/**
  * What the configuration parser refuses, and exactly what integers and strings it reads
  * (crates/usbfwd-attach/src/toml.rs:91-354).
  */
module TomlRefusals {
  import opened Types
  import opened Text
  import opened Toml
  import opened TomlPrint

  // ------------------------------------------------------------------- values

  predicate AllDigits(ds: string) {
    ds != "" && forall i :: 0 <= i < |ds| ==> IsDigit(ds[i])
  }

  /** An optional sign and decimal digits. */
  predicate IntShape(t: string) {
    AllDigits(t) || (t != "" && (t[0] == '+' || t[0] == '-') && AllDigits(t[1..]))
  }

  /** Leading zeros and a plus sign make no difference; what 64 bits cannot hold is refused. */
  lemma IntExactly(sign: string, zeros: nat, n: nat)
    requires sign == "" || sign == "+" || sign == "-"
    ensures var v := if sign == "-" then 0 - n else n;
            ParseInt(sign + seq(zeros, _ => '0') + Decimal(n))
            == if -0x8000_0000_0000_0000 <= v < 0x8000_0000_0000_0000 then Some(v) else None
  {
    var ds := seq(zeros, _ => '0') + Decimal(n);
    assert sign + seq(zeros, _ => '0') + Decimal(n) == sign + ds;
    DecimalReads(n);
    ZerosAhead(zeros, Decimal(n));
    SignedDigits(sign, ds);
  }

  lemma SignedDigits(sign: string, ds: string)
    requires AllDigits(ds) && (sign == "" || sign == "+" || sign == "-")
    ensures var v := if sign == "-" then 0 - Number(ds, 10) else Number(ds, 10);
            ParseInt(sign + ds) == if -0x8000_0000_0000_0000 <= v < 0x8000_0000_0000_0000 then Some(v) else None
  {
    var t := sign + ds;
    if sign == "" {
      assert t == ds && IsDigit(t[0]);
    } else {
      assert t[0] == sign[0] && t[1..] == ds;
    }
  }

  lemma {:induction false} ZerosAhead(zeros: nat, ds: string)
    requires forall i :: 0 <= i < |ds| ==> IsDigit(ds[i])
    ensures Number(seq(zeros, _ => '0') + ds, 10) == Number(ds, 10)
    decreases |ds|, zeros
  {
    var all := seq(zeros, _ => '0') + ds;
    if ds != "" {
      assert all[..|all| - 1] == seq(zeros, _ => '0') + ds[..|ds| - 1];
      ZerosAhead(zeros, ds[..|ds| - 1]);
    } else if zeros > 0 {
      assert all[..|all| - 1] == seq(zeros - 1, _ => '0') + ds;
      ZerosAhead(zeros - 1, ds);
    } else {
      assert all == ds;
    }
  }

  lemma OnlyIntShapes(t: string)
    ensures ParseInt(t).Some? ==> IntShape(t)
  {
    var digits := if t != "" && (t[0] == '-' || t[0] == '+') then t[1..] else t;
    if ParseInt(t).Some? {
      forall i | 0 <= i < |digits|
        ensures IsDigit(digits[i])
      {
        assert digits[i] in digits;
      }
    }
  }

  /** What is neither a word, an array, a string nor a number is no value. */
  lemma NoValue(t: string)
    requires t != "" && t != "true" && t != "false" && t[0] != '[' && t[0] != '"' && t[0] != '\'' && !IntShape(t)
    ensures ParseValue(t) == Err(NotAValue)
  {
    OnlyIntShapes(t);
  }

  /** A string or an array that does not end as it began is refused. */
  lemma Unterminated(t: string)
    requires t != ""
    ensures t[0] == '[' && (|t| < 2 || t[|t| - 1] != ']') ==> ParseValue(t) == Err(UnterminatedArray)
    ensures (t[0] == '"' || t[0] == '\'') && (|t| < 2 || t[|t| - 1] != t[0]) ==>
              ParseValue(t) == Err(UnterminatedString)
  {
    assert t[0] == '[' || t[0] == '"' || t[0] == '\'' ==> t[0] != "true"[0] && t[0] != "false"[0];
  }

  lemma {:induction false} UnescapeAfter(pre: string, rest: string)
    requires Unescape(pre).Ok?
    ensures Unescape(pre + rest) == Prefixed(Unescape(pre).value, Unescape(rest))
    decreases |pre|
  {
    if pre == "" {
      assert pre + rest == rest;
    } else {
      var n := if pre[0] == '\\' then 2 else 1;
      assert (pre + rest)[n..] == pre[n..] + rest;
      UnescapeAfter(pre[n..], rest);
      var c := if n == 1 then pre[0] else Escaped(pre[1]).value;
      assert Unescape(pre).value == [c] + Unescape(pre[n..]).value;
      assert (pre + rest)[0] == pre[0] && (n == 2 ==> (pre + rest)[1] == pre[1]);
      if Unescape(rest).Ok? {
        assert [c] + (Unescape(pre[n..]).value + Unescape(rest).value)
            == [c] + Unescape(pre[n..]).value + Unescape(rest).value;
      }
    }
  }

  /** Behind a backslash only five characters may stand, and something must. */
  lemma BadEscapeRefused(pre: string, c: char, rest: string)
    requires Unescape(pre).Ok? && c !in {'n', 't', 'r', '"', '\\'}
    ensures ParseValue("\"" + pre + "\\" + [c] + rest + "\"") == Err(BadEscape)
    ensures ParseValue("\"" + pre + "\\\"") == Err(BadEscape)
  {
    var bad := "\\" + [c] + rest;
    assert bad[1] == c;
    UnescapeAfter(pre, bad);
    UnescapeAfter(pre, "\\");
    QuotedFails(pre + bad);
    QuotedFails(pre + "\\");
    assert "\"" + (pre + bad) + "\"" == "\"" + pre + "\\" + [c] + rest + "\"";
    assert "\"" + (pre + "\\") + "\"" == "\"" + pre + "\\\"";
  }

  lemma QuotedFails(body: string)
    requires Unescape(body).Err?
    ensures ParseValue("\"" + body + "\"") == Err(Unescape(body).error)
  {
    var t := "\"" + body + "\"";
    assert t[1..|t| - 1] == body && t[0] != "true"[0] && t[0] != "false"[0];
  }

  /** An array holds strings and nothing else. */
  lemma ElementsAreStrings(parts: seq<string>, bound: nat, i: nat)
    requires (forall p :: p in parts ==> |p| < bound) && i < |parts| && AllStrings(parts[..i])
    requires Trim(parts[i]) != ""
    ensures ParseValue(Trim(parts[i])).Ok? && !ParseValue(Trim(parts[i])).value.Str? ==>
              ParseElems(parts, bound) == Err(NotAString)
    ensures ParseValue(Trim(parts[i])).Err? ==> ParseElems(parts, bound) == Err(ParseValue(Trim(parts[i])).error)
    decreases i
  {
    if i > 0 {
      assert parts[..i][0] == parts[0] && parts[1..][..i - 1] == parts[..i][1..];
      assert AllStrings(parts[..i][1..]) by {
        forall k | 0 <= k < i - 1
          ensures Trim(parts[..i][1..][k]) == "" || (ParseValue(Trim(parts[..i][1..][k])).Ok?
                                                     && ParseValue(Trim(parts[..i][1..][k])).value.Str?)
        {
          assert parts[..i][1..][k] == parts[..i][k + 1];
        }
      }
      ElementsAreStrings(parts[1..], bound, i - 1);
    }
  }

  predicate AllStrings(parts: seq<string>) {
    forall k :: 0 <= k < |parts| ==>
      Trim(parts[k]) == "" || (ParseValue(Trim(parts[k])).Ok? && ParseValue(Trim(parts[k])).value.Str?)
  }

  // -------------------------------------------------------------------- lines

  /** A header that is not closed the way it was opened. */
  predicate OpenHeader(x: string) {
    x != "" && x[0] == '['
    && (if |x| > 1 && x[1] == '[' then |x| < 4 || x[|x| - 2] != ']' || x[|x| - 1] != ']' else x[|x| - 1] != ']')
  }

  lemma {:induction false} EqualsIn(x: string)
    ensures EqualsAt(x) == |x| <==> '=' !in x
    ensures EqualsAt(x) < |x| ==> x[EqualsAt(x)] == '='
  {
    if x != "" && x[0] != '=' {
      EqualsIn(x[1..]);
      assert x == [x[0]] + x[1..];
    }
  }

  /**
    * A line that is, without its comment and the white space around it, an unclosed header or has
    * no key or no equals sign, is refused with its own number, wherever it stands.
    */
  lemma BadLineRefused(p: Progress, x: string)
    requires p.rest != [] && Trim(StripComment(p.rest[0])) == x && x != ""
    ensures OpenHeader(x) ==> ReadAll(p) == Err(TomlError(p.n + 1, UnterminatedHeader))
    ensures x[0] != '[' && '=' !in x ==> ReadAll(p) == Err(TomlError(p.n + 1, ExpectedKeyValue))
    ensures x[0] == '=' ==> ReadAll(p) == Err(TomlError(p.n + 1, EmptyKey))
  {
    EqualsIn(x);
    assert "[["[0] == '[' && "[["[1] == '[';
    if OpenHeader(x) {
      HeaderStaysOpen(x);
    } else if x[0] == '=' {
      assert x[..0] == "" && Trim("") == "";
    }
  }

  lemma HeaderStaysOpen(x: string)
    requires OpenHeader(x)
    ensures KindOf(x) == Bad(UnterminatedHeader)
  {
    if |x| > 1 && x[1] == '[' {
      assert x[..2] == "[[";
      if |x| >= 4 {
        assert x[|x| - 2..][0] == x[|x| - 2] && x[|x| - 2..][1] == x[|x| - 1];
        assert "]]"[0] == ']' && "]]"[1] == ']';
      }
    } else {
      assert !("[[" <= x) by {
        assert "[["[1] == '[';
      }
    }
  }

  /** A value that cannot be read is refused with the number of the line its key is on. */
  lemma BadValueRefused(p: Progress, key: string, text: string)
    requires p.rest != [] && Trim(StripComment(p.rest[0])) == key + "=" + text
    requires Tight(key) && '=' !in key && key[0] != '[' && !Keyed(p.cur.entries, key) && !StartsArray(text)
    requires ParseValue(Trim(text)).Err?
    ensures ReadAll(p) == Err(TomlError(p.n + 1, ParseValue(Trim(text)).error))
    ensures Trim(text) == "" ==> ReadAll(p) == Err(TomlError(p.n + 1, MissingValue))
  {
    var x := key + "=" + text;
    EqualsAfterKey(key, text);
    TrimName(key);
    assert x[..|key|] == key && x[|key| + 1..] == text && x[0] == key[0] && "[["[0] == '[';
    assert KindOf(x) == KeyValue(key, text);
  }

  lemma EqualsAfterKey(key: string, text: string)
    requires '=' !in key
    ensures EqualsAt(key + "=" + text) == |key|
  {
    forall i | 0 <= i < |key|
      ensures key[i] != '='
    {
      assert key[i] in key;
    }
    EqualsAfter(key, text);
  }

  /** An array whose brackets never balance again is refused, once the file has run out. */
  lemma OpenArrayRefused(p: Progress, key: string, text: string)
    requires p.rest != [] && Trim(StripComment(p.rest[0])) == key + "=" + text
    requires Tight(key) && '=' !in key && key[0] != '[' && !Keyed(p.cur.entries, key) && StartsArray(text)
    requires forall k :: 0 < k <= |p.rest| ==> !Balanced(Pulled(text, p.rest[1..k]))
    ensures ReadAll(p) == Err(TomlError(p.n + 1, UnterminatedArray))
  {
    var x := key + "=" + text;
    EqualsAfterKey(key, text);
    TrimName(key);
    assert x[..|key|] == key && x[|key| + 1..] == text && x[0] == key[0] && "[["[0] == '[';
    assert KindOf(x) == KeyValue(key, text);
    forall k | 0 <= k <= |p.rest[1..]|
      ensures !Balanced(Pulled(text, p.rest[1..][..k]))
    {
      assert p.rest[1..][..k] == p.rest[1..k + 1];
    }
    GathersAll(p.rest[1..], text);
    assert p.rest[1..][..0] == [];
  }

  /** An opening line with further ones pulled in behind it. */
  function Pulled(text: string, lines: seq<string>): string
    decreases |lines|
  {
    if lines == [] then text else Pulled(text + " " + StripComment(lines[0]), lines[1..])
  }

  lemma {:induction false} GathersAll(rest: seq<string>, text: string)
    requires forall k :: 0 <= k <= |rest| ==> !Balanced(Pulled(text, rest[..k]))
    ensures Gather(rest, text).1 == [] && !Balanced(Gather(rest, text).0)
    decreases |rest|
  {
    assert rest[..0] == [];
    if rest != [] {
      var owned := text + " " + StripComment(rest[0]);
      forall k | 0 <= k <= |rest| - 1
        ensures !Balanced(Pulled(owned, rest[1..][..k]))
      {
        assert rest[..k + 1][0] == rest[0] && rest[..k + 1][1..] == rest[1..][..k];
        assert !Balanced(Pulled(text, rest[..k + 1]));
      }
      GathersAll(rest[1..], owned);
    }
  }
}
