/**
  * Writing a chord down and reading it back (crates/usbfwd-server/src/chord.rs:52-190).
  */
module ChordText {
  import opened Types
  import opened Text
  import opened Chord

  type Table = seq<(string, nat)>

  const BUTTONS: Table := [
    ("r2", 0), ("l2", 1), ("r1", 2), ("l1", 3), ("y", 4), ("b", 5), ("x", 6), ("a", 7), ("up", 8),
    ("right", 9), ("left", 10), ("down", 11), ("view", 12), ("steam", 13), ("menu", 14), ("l5", 15),
    ("r5", 16), ("lpad", 17), ("rpad", 18), ("lpadtouch", 19), ("rpadtouch", 20), ("l3", 22),
    ("r3", 26), ("l4", 41), ("r4", 42), ("qam", 50)]

  datatype ChordError =
    | NeedsAButton | NotAMask(tok: string) | NotABit(tok: string) | OutsideField(n: nat) | UnknownButton(tok: string)

  // ------------------------------------------------------------------- tokens

  /** `u64::from_str_radix(hex, 16)`: one plus sign is allowed, an empty number is not. */
  function FromHex(s: string): Option<nat> {
    var digits := if s != "" && s[0] == '+' then s[1..] else s;
    if digits == "" || exists c :: c in digits && !IsHexDigit(c) then None
    else if Number(digits, 16) >= Pow2(64) then None
    else Some(Number(digits, 16))
  }

  function BitNumber(tok: string): Option<string> {
    var n := match StripPrefix(tok, "bit")
             case Some(rest) => Some(rest)
             case None => StripPrefix(tok, "b");
    if n.Some? && n.value != "" && forall c :: c in n.value ==> IsDigit(c) then n else None
  }

  /** `BUTTONS.iter().find` by name: an index into the table, or its length. */
  function FindName(table: Table, name: string, from: nat): (i: nat)
    requires from <= |table|
    ensures from <= i <= |table|
    ensures i < |table| ==> table[i].0 == name
    ensures forall j :: from <= j < i ==> table[j].0 != name
    decreases |table| - from
  {
    if from == |table| || table[from].0 == name then from else FindName(table, name, from + 1)
  }

  /** And by bit. */
  function FindBit(table: Table, bit: nat, from: nat): (i: nat)
    requires from <= |table|
    ensures from <= i <= |table|
    ensures i < |table| ==> table[i].1 == bit
    ensures forall j :: from <= j < i ==> table[j].1 != bit
    decreases |table| - from
  {
    if from == |table| || table[from].1 == bit then from else FindBit(table, bit, from + 1)
  }

  function ParseToken(table: Table, tok: string): Result<Mask, ChordError> {
    if StripPrefix(tok, "0x").Some? then
      match FromHex(tok[2..])
      case Some(v) => Ok(BitsOf(v))
      case None => Err(NotAMask(tok))
    else if BitNumber(tok).Some? then
      var n := Number(BitNumber(tok).value, 10);
      if n >= 0x1_0000_0000 then Err(NotABit(tok))
      else if n > 63 then Err(OutsideField(n))
      else Ok({n})
    else
      var i := FindName(table, tok, 0);
      if i < |table| then Ok({table[i].1}) else Err(UnknownButton(tok))
  }

  // -------------------------------------------------------------------- lists

  predicate IsSeparator(c: char) { c == '+' || c == ',' }

  /** `str::split`: always one piece more than there are separators. */
  function Split(s: string): (r: seq<string>)
    ensures |r| > 0
  {
    if s == "" then [""]
    else
      var r := Split(s[1..]);
      if IsSeparator(s[0]) then [""] + r else [[s[0]] + r[0]] + r[1..]
  }

  function LowerChar(c: char): (d: char)
    ensures if 'A' <= c <= 'Z' then d as int - 'a' as int == c as int - 'A' as int else d == c
  {
    if 'A' <= c <= 'Z' then (c as int + 32) as char else c
  }

  function Lower(s: string): (r: string)
    ensures |r| == |s| && forall i :: 0 <= i < |s| ==> r[i] == LowerChar(s[i])
  {
    seq(|s|, i requires 0 <= i < |s| => LowerChar(s[i]))
  }

  /** The union of what the tokens name; the first that cannot be read decides otherwise. */
  function ParseTokens(table: Table, toks: seq<string>, mask: Mask, any: bool): Result<Mask, ChordError> {
    if toks == [] then (if any then Ok(mask) else Err(NeedsAButton))
    else if Trim(toks[0]) == "" then ParseTokens(table, toks[1..], mask, any)
    else
      var m :- ParseToken(table, Lower(Trim(toks[0])));
      ParseTokens(table, toks[1..], mask + m, true)
  }

  function ParseChord(table: Table, s: string): Result<Mask, ChordError> {
    ParseTokens(table, Split(s), {}, false)
  }

  /** `Chord::from_str`. */
  method FromStr(table: Table, s: string) returns (r: Result<Mask, ChordError>)
    ensures r == ParseChord(table, s)
  {
    var mask: Mask, any := {}, false;
    var toks := Split(s);
    for i := 0 to |toks|
      invariant ParseTokens(table, toks[i..], mask, any) == ParseChord(table, s)
    {
      assert toks[i..][1..] == toks[i + 1..];
      var tok := Trim(toks[i]);
      if tok != "" {
        any := true;
        var m :- ParseToken(table, Lower(tok));
        mask := mask + m;
      }
    }
    if !any {
      return Err(NeedsAButton);
    }
    return Ok(mask);
  }

  // ---------------------------------------------------------------- describing

  /** A bit's name, or its number where the table has none. */
  function NameOf(table: Table, bit: nat): string {
    var i := FindBit(table, bit, 0);
    if i < |table| then table[i].0 else "b" + Decimal(bit)
  }

  function Parts(table: Table, mask: Mask, from: nat): seq<string>
    decreases 64 - from, table
  {
    if from >= 64 then []
    else (if from in mask then [NameOf(table, from)] else []) + Parts(table, mask, from + 1)
  }

  function Join(parts: seq<string>): string {
    if parts == [] then ""
    else if |parts| == 1 then parts[0]
    else parts[0] + "+" + Join(parts[1..])
  }

  function DescribeChord(table: Table, mask: Mask): string {
    if mask == {} then "none" else Join(Parts(table, mask, 0))
  }

  method Describe(table: Table, mask: Mask) returns (s: string)
    ensures s == DescribeChord(table, mask)
  {
    if mask == {} {
      return "none";
    }
    var parts: seq<string> := [];
    for bit := 0 to 64
      invariant parts + Parts(table, mask, bit) == Parts(table, mask, 0)
    {
      if bit !in mask {
        continue;
      }
      var i := FindBit(table, bit, 0);
      parts := parts + [if i < |table| then table[i].0 else "b" + Decimal(bit)];
    }
    assert parts + [] == parts;
    return Join(parts);
  }

  // ---------------------------------------------------------------- round trip

  predicate IsPlain(c: char) { 'a' <= c <= 'z' || IsDigit(c) }

  /** A name that cannot be mistaken for a number, a mask or two names. */
  predicate GoodName(name: string) {
    && name != "" && (forall i :: 0 <= i < |name| ==> IsPlain(name[i]))
    && !("0x" <= name) && BitNumber(name).None?
  }

  /** What the round trip needs of a table. */
  predicate GoodTable(table: Table) {
    && (forall i :: 0 <= i < |table| ==> GoodName(table[i].0) && table[i].1 < 64)
    && (forall i, j :: 0 <= i < j < |table| ==> table[i].0 != table[j].0)
    && (forall i :: 0 <= i < |table| ==> table[i].0 != "none")
  }

  /** A token that survives splitting, trimming and lower-casing, and names one bit. */
  predicate Names(table: Table, tok: string, bit: nat) {
    && tok != "" && (forall i :: 0 <= i < |tok| ==> IsPlain(tok[i]))
    && ParseToken(table, tok) == Ok({bit})
  }

  lemma NumberNames(table: Table, bit: nat)
    requires bit < 64
    ensures Names(table, "b" + Decimal(bit), bit)
  {
    var d := Decimal(bit);
    assert ("b" + d)[1..] == d;
    if bit < 10 {
      assert d[..0] == "" && Number(d, 10) == HexValue(d[0]);
    } else {
      TwoDigits(bit / 10, bit % 10);
    }
  }

  lemma TwoDigits(a: nat, b: nat)
    requires 0 < a < 10 && b < 10
    ensures var d := [DigitChar(a), DigitChar(b)];
            Decimal(10 * a + b) == d && Number(d, 10) == 10 * a + b
  {
    var d := [DigitChar(a), DigitChar(b)];
    assert Decimal(10 * a + b) == Decimal(a) + [DigitChar(b)];
    assert d[..1] == [DigitChar(a)] && d[..1][..0] == "";
    assert Number(d[..1], 10) == a;
  }

  lemma BitNames(table: Table, bit: nat)
    requires bit < 64 && GoodTable(table)
    ensures Names(table, NameOf(table, bit), bit)
  {
    var i := FindBit(table, bit, 0);
    if i < |table| {
      assert GoodName(table[i].0);
      assert FindName(table, table[i].0, 0) == i;
    } else {
      NumberNames(table, bit);
    }
  }

  predicate AllPlain(s: string) {
    forall i :: 0 <= i < |s| ==> IsPlain(s[i])
  }

  lemma {:induction false} SplitPart(p: string, rest: string)
    requires AllPlain(p)
    ensures Split(p) == [p] && Split(p + "+" + rest) == [p] + Split(rest)
  {
    if p == "" {
      assert (p + "+" + rest)[1..] == rest;
    } else {
      SplitPart(p[1..], rest);
      assert (p + "+" + rest)[1..] == p[1..] + "+" + rest;
      assert p == [p[0]] + p[1..];
    }
  }

  lemma {:induction false} SplitJoin(parts: seq<string>)
    requires parts != [] && forall k :: 0 <= k < |parts| ==> AllPlain(parts[k])
    ensures Split(Join(parts)) == parts
  {
    if |parts| == 1 {
      SplitPart(parts[0], "");
      assert parts == [parts[0]];
    } else {
      SplitJoin(parts[1..]);
      SplitMore(parts[0], Join(parts[1..]), parts[1..]);
      assert parts == [parts[0]] + parts[1..];
    }
  }

  lemma SplitMore(p: string, rest: string, ps: seq<string>)
    requires AllPlain(p) && Split(rest) == ps
    ensures Split(p + "+" + rest) == [p] + ps
  {
    SplitPart(p, rest);
  }

  lemma PlainIsUntouched(tok: string)
    requires tok != "" && forall i :: 0 <= i < |tok| ==> IsPlain(tok[i])
    ensures Lower(Trim(tok)) == tok && Trim(tok) == tok
  {
    assert !IsSpace(tok[0]) && !IsSpace(tok[|tok| - 1]);
    assert Lower(tok) == tok;
  }

  /** The bits at `from` and above. */
  function Above(mask: Mask, from: nat): Mask {
    set b | b in mask && b >= from
  }

  lemma {:induction false} PartsParse(table: Table, mask: Mask, from: nat, sofar: Mask, any: bool)
    requires GoodTable(table) && forall b :: b in mask ==> b < 64
    requires from <= 64
    ensures ParseTokens(table, Parts(table, mask, from), sofar, any)
            == if any || Above(mask, from) != {} then Ok(sofar + Above(mask, from)) else Err(NeedsAButton)
    decreases 64 - from
  {
    var parts := Parts(table, mask, from);
    if from == 64 {
      assert Above(mask, from) == {} && sofar + {} == sofar;
    } else if from in mask {
      BitNames(table, from);
      PlainIsUntouched(parts[0]);
      PartsParse(table, mask, from + 1, sofar + {from}, true);
      assert parts[1..] == Parts(table, mask, from + 1);
      assert Above(mask, from) == {from} + Above(mask, from + 1);
      assert sofar + {from} + Above(mask, from + 1) == sofar + Above(mask, from);
    } else {
      PartsParse(table, mask, from + 1, sofar, any);
      assert parts == Parts(table, mask, from + 1);
      assert Above(mask, from) == Above(mask, from + 1);
    }
  }

  lemma {:induction false} PartsArePlain(table: Table, mask: Mask, from: nat)
    requires GoodTable(table)
    ensures var parts := Parts(table, mask, from); forall k :: 0 <= k < |parts| ==> AllPlain(parts[k])
    ensures (exists b :: b in mask && from <= b < 64) ==> Parts(table, mask, from) != []
    decreases 64 - from
  {
    if from < 64 {
      BitNames(table, from);
      PartsArePlain(table, mask, from + 1);
    }
  }

  lemma NoneIsUnknown(table: Table)
    requires GoodTable(table)
    ensures ParseChord(table, "none") == Err(UnknownButton("none"))
  {
    var toks := Split("none");
    SplitPart("none", "");
    PlainIsUntouched("none");
    NoNumberNoMask("none");
    assert toks == ["none"] && ParseToken(table, "none") == Err(UnknownButton("none"));
  }

  lemma NonzeroRoundTrip(table: Table, mask: Mask)
    requires GoodTable(table) && mask != {} && forall b :: b in mask ==> b < 64
    ensures ParseChord(table, DescribeChord(table, mask)) == Ok(mask)
  {
    PartsArePlain(table, mask, 0);
    SplitJoin(Parts(table, mask, 0));
    PartsParse(table, mask, 0, {}, false);
    assert Above(mask, 0) == mask && {} + mask == mask;
  }

  /** Reading a printed chord gives the chord back, for every mask but the empty one. */
  lemma DescribeRoundTrip(table: Table, mask: Mask)
    requires GoodTable(table) && forall b :: b in mask ==> b < 64
    ensures ParseChord(table, DescribeChord(table, mask)) == Ok(mask) <==> mask != {}
    ensures mask == {} ==> ParseChord(table, DescribeChord(table, mask)) == Err(UnknownButton("none"))
  {
    if mask == {} {
      NoneIsUnknown(table);
    } else {
      NonzeroRoundTrip(table, mask);
    }
  }

  lemma NamesDiffer(i: nat, j: nat)
    requires i < j < |BUTTONS|
    ensures BUTTONS[i].0 != BUTTONS[j].0
  {
  }

  lemma NameIsGood(i: nat)
    requires i < |BUTTONS|
    ensures GoodName(BUTTONS[i].0) && BUTTONS[i].1 < 64 && BUTTONS[i].0 != "none"
  {
    NoNumberNoMask(BUTTONS[i].0);
  }

  lemma NoNumberNoMask(name: string)
    requires name == "b" || (name != "" && name[0] != 'b' && name[0] != '0')
    ensures !("0x" <= name) && BitNumber(name).None?
  {
    assert "0x"[0] == '0' && "bit"[0] == 'b' && "b"[0] == 'b';
  }

  lemma ButtonsAreGood()
    ensures GoodTable(BUTTONS)
  {
    forall i, j | 0 <= i < j < |BUTTONS|
      ensures BUTTONS[i].0 != BUTTONS[j].0
    {
      NamesDiffer(i, j);
    }
    forall i | 0 <= i < |BUTTONS|
      ensures GoodName(BUTTONS[i].0) && BUTTONS[i].1 < 64 && BUTTONS[i].0 != "none"
    {
      NameIsGood(i);
    }
  }

  /** The program's own table: `describe` and `from_str` are inverse on every nonzero mask. */
  lemma ChordRoundTrip(mask: Mask)
    requires forall b :: b in mask ==> b < 64
    ensures ParseChord(BUTTONS, DescribeChord(BUTTONS, mask)) == Ok(mask) <==> mask != {}
  {
    ButtonsAreGood();
    DescribeRoundTrip(BUTTONS, mask);
  }

  // ------------------------------------------------------- what may be written

  function HexChar(n: nat): char
    requires n < 16
  {
    if n < 10 then DigitChar(n) else ('a' as int + n - 10) as char
  }

  function HexText(v: nat): string {
    if v < 16 then [HexChar(v)] else HexText(v / 16) + [HexChar(v % 16)]
  }

  lemma {:induction false} HexReads(v: nat)
    ensures var d := HexText(v);
            d != "" && (forall i :: 0 <= i < |d| ==> IsHexDigit(d[i])) && Number(d, 16) == v
  {
    if v < 16 {
      assert HexText(v)[..0] == "";
    } else {
      HexReads(v / 16);
      assert HexText(v)[..|HexText(v)| - 1] == HexText(v / 16);
    }
  }

  lemma {:induction false} Pow2Sum(a: nat, b: nat)
    ensures Pow2(a + b) == Pow2(a) * Pow2(b)
    decreases a
  {
    if a > 0 {
      Pow2Sum(a - 1, b);
      assert Pow2(a + b) == 2 * Pow2(a - 1 + b);
    }
  }

  lemma SixtyFourBits()
    ensures Pow2(64) == 0x1_0000_0000_0000_0000
  {
    assert Pow2(8) == 2 * (2 * (2 * (2 * (2 * (2 * (2 * (2 * Pow2(0)))))))) == 0x100;
    Pow2Sum(8, 8);
    Pow2Sum(16, 16);
    Pow2Sum(32, 32);
  }

  lemma FromHexReads(digits: string, plus: bool)
    requires digits != "" && forall i :: 0 <= i < |digits| ==> IsHexDigit(digits[i])
    ensures FromHex((if plus then "+" else "") + digits)
            == if Number(digits, 16) < Pow2(64) then Some(Number(digits, 16)) else None
  {
    if plus {
      assert ("+" + digits)[0] == '+' && ("+" + digits)[1..] == digits;
      HexDigitsRead("+" + digits, digits);
    } else {
      assert "" + digits == digits && IsHexDigit(digits[0]);
      HexDigitsRead(digits, digits);
    }
  }

  lemma HexDigitsRead(s: string, digits: string)
    requires digits == if s != "" && s[0] == '+' then s[1..] else s
    requires digits != "" && forall i :: 0 <= i < |digits| ==> IsHexDigit(digits[i])
    ensures FromHex(s) == if Number(digits, 16) < Pow2(64) then Some(Number(digits, 16)) else None
  {
    forall c | c in digits
      ensures IsHexDigit(c)
    {
    }
  }

  lemma BitsByValue(v: nat)
    ensures BitsOf(v) == set i: nat | i < 64 && v / Pow2(i) % 2 == 1
  {
    forall i: nat
      ensures HasBit(v, i) <==> v / Pow2(i) % 2 == 1
    {
      BitIsQuotient(v, i);
    }
  }

  /** A mask in hexadecimal, one plus sign allowed, names the bits of its value, if that has no more than 64. */
  lemma HexToken(table: Table, v: nat, plus: bool)
    ensures var tok := "0x" + ((if plus then "+" else "") + HexText(v));
            ParseToken(table, tok) == if v < 0x1_0000_0000_0000_0000
                                      then Ok(set i: nat | i < 64 && v / Pow2(i) % 2 == 1)
                                      else Err(NotAMask(tok))
  {
    var d := (if plus then "+" else "") + HexText(v);
    HexReads(v);
    SixtyFourBits();
    FromHexReads(HexText(v), plus);
    BitsByValue(v);
    assert ("0x" + d)[2..] == d;
  }

  /** After `0x` anything but hexadecimal digits is refused, and so is nothing. */
  lemma HexRefused(table: Table, d: string)
    requires d == "" || d == "+" || exists i :: 0 <= i < |d| && d[i] != '+' && !IsHexDigit(d[i])
    ensures ParseToken(table, "0x" + d) == Err(NotAMask("0x" + d))
  {
    assert ("0x" + d)[2..] == d;
    if i :| 0 <= i < |d| && d[i] != '+' && !IsHexDigit(d[i]) {
      assert d[i] in d && (d[0] == '+' ==> d[1..][i - 1] == d[i]);
    }
  }

  /** A bit by its number, in either spelling; numbers a 64-bit word does not have are refused. */
  lemma BitToken(table: Table, n: nat, long: bool)
    ensures var tok := (if long then "bit" else "b") + Decimal(n);
            ParseToken(table, tok) == if n < 64 then Ok({n})
                                      else if n < 0x1_0000_0000 then Err(OutsideField(n))
                                      else Err(NotABit(tok))
  {
    var d := Decimal(n);
    DecimalReads(n);
    var tok := (if long then "bit" else "b") + d;
    assert tok[0] == 'b' && "0x"[0] == '0';
    assert tok[if long then 3 else 1..] == d;
    if !long {
      assert tok[1] == d[0] && "bit"[1] == 'i';
    }
    assert BitNumber(tok) == Some(d);
  }

  /** Pieces with one of the two separators between each and the next. */
  function Woven(pieces: seq<string>, seps: string): string
    requires |pieces| == |seps| + 1
    decreases |pieces|
  {
    if |pieces| == 1 then pieces[0] else pieces[0] + [seps[0]] + Woven(pieces[1..], seps[1..])
  }

  lemma {:induction false} SplitPiece(p: string, c: char, rest: string)
    requires IsSeparator(c) && forall i :: 0 <= i < |p| ==> !IsSeparator(p[i])
    ensures Split(p) == [p] && Split(p + [c] + rest) == [p] + Split(rest)
    decreases |p|
  {
    if p == "" {
      assert (p + [c] + rest)[1..] == rest;
    } else {
      SplitPiece(p[1..], c, rest);
      assert (p + [c] + rest)[1..] == p[1..] + [c] + rest && p == [p[0]] + p[1..];
    }
  }

  lemma {:induction false} SplitWoven(pieces: seq<string>, seps: string)
    requires |pieces| == |seps| + 1 && forall i :: 0 <= i < |seps| ==> seps[i] == '+' || seps[i] == ','
    requires forall i, j :: 0 <= i < |pieces| && 0 <= j < |pieces[i]| ==> pieces[i][j] != '+' && pieces[i][j] != ','
    ensures Split(Woven(pieces, seps)) == pieces
    decreases |pieces|
  {
    if |pieces| == 1 {
      SplitPiece(pieces[0], '+', "");
      assert pieces == [pieces[0]];
    } else {
      SplitWoven(pieces[1..], seps[1..]);
      SplitPiece(pieces[0], seps[0], Woven(pieces[1..], seps[1..]));
      assert pieces == [pieces[0]] + pieces[1..];
    }
  }

  /** Nothing but white space, or a token in any case with white space around it that names `bits`. */
  ghost predicate Means(table: Table, piece: string, bits: Mask) {
    if AllSpace(piece) then bits == {}
    else exists a, t, b :: piece == a + t + b && AllSpace(a) && AllSpace(b) && Tight(t)
                           && ParseToken(table, Lower(t)) == Ok(bits)
  }

  function Union(masks: seq<Mask>): Mask {
    if masks == [] then {} else masks[0] + Union(masks[1..])
  }

  lemma PieceParses(table: Table, piece: string, bits: Mask, rest: seq<string>, sofar: Mask, any: bool)
    requires Means(table, piece, bits)
    ensures ParseTokens(table, [piece] + rest, sofar, any)
            == ParseTokens(table, rest, sofar + bits, any || !AllSpace(piece))
  {
    assert ([piece] + rest)[1..] == rest;
    if AllSpace(piece) {
      TrimSpace(piece);
      assert sofar + bits == sofar;
    } else {
      var a, t, b :| piece == a + t + b && AllSpace(a) && AllSpace(b) && Tight(t)
                     && ParseToken(table, Lower(t)) == Ok(bits);
      TrimAround(a, t, b);
    }
  }

  lemma {:induction false} PiecesParse(table: Table, pieces: seq<string>, masks: seq<Mask>, sofar: Mask, any: bool)
    requires |pieces| == |masks| && forall i :: 0 <= i < |pieces| ==> Means(table, pieces[i], masks[i])
    ensures ParseTokens(table, pieces, sofar, any)
            == if any || exists i :: 0 <= i < |pieces| && !AllSpace(pieces[i]) then Ok(sofar + Union(masks))
               else Err(NeedsAButton)
    decreases |pieces|
  {
    if pieces == [] {
      assert sofar + {} == sofar;
    } else {
      assert pieces == [pieces[0]] + pieces[1..];
      PieceParses(table, pieces[0], masks[0], pieces[1..], sofar, any);
      PiecesParse(table, pieces[1..], masks[1..], sofar + masks[0], any || !AllSpace(pieces[0]));
      assert sofar + masks[0] + Union(masks[1..]) == sofar + Union(masks);
      assert (exists i :: 0 <= i < |pieces| && !AllSpace(pieces[i])) <==>
             !AllSpace(pieces[0]) || exists i :: 0 <= i < |pieces| - 1 && !AllSpace(pieces[1..][i]) by {
        if i :| 0 < i < |pieces| && !AllSpace(pieces[i]) {
          assert pieces[1..][i - 1] == pieces[i];
        }
      }
    }
  }

  /**
    * However a chord is written, with either separator, any white space, empty pieces and any case, it is
    * the union of what its tokens name; with no token at all it is refused.
    */
  lemma WrittenAnyWay(table: Table, pieces: seq<string>, seps: string, masks: seq<Mask>)
    requires |pieces| == |seps| + 1 && forall i :: 0 <= i < |seps| ==> seps[i] == '+' || seps[i] == ','
    requires forall i, j :: 0 <= i < |pieces| && 0 <= j < |pieces[i]| ==> pieces[i][j] != '+' && pieces[i][j] != ','
    requires |pieces| == |masks| && forall i :: 0 <= i < |pieces| ==> Means(table, pieces[i], masks[i])
    ensures ParseChord(table, Woven(pieces, seps))
            == if exists i :: 0 <= i < |pieces| && !AllSpace(pieces[i]) then Ok(Union(masks)) else Err(NeedsAButton)
  {
    SplitWoven(pieces, seps);
    PiecesParse(table, pieces, masks, {}, false);
    assert {} + Union(masks) == Union(masks);
  }
}
