/**
  * Writing a configuration down and parsing it again (crates/usbfwd-attach/src/toml.rs).
  * A document fixes its layout as well as its contents: comments and blank lines anywhere,
  * any spacing inside arrays, arrays on one line or many. Strings hold anything at all.
  */
module TomlPrint {
  import opened Types
  import opened Text
  import opened Toml

  // ------------------------------------------------------- scanning in parts

  /** `x` in front of what was found behind it. */
  function Attach(x: string, r: seq<string>): seq<string>
    requires r != []
  {
    [x + r[0]] + r[1..]
  }

  lemma AttachTwice(c: char, x: string, r: seq<string>)
    requires r != []
    ensures Attach([c], Attach(x, r)) == Attach([c] + x, r)
  {
    assert [c] + (x + r[0]) == [c] + x + r[0];
    assert Attach(x, r)[1..] == r[1..];
  }

  /** Nothing outside a string starts a comment or ends an element. */
  predicate Silent(x: string, s: Scan) {
    x == "" || (!(s.Out? && (x[0] == '#' || x[0] == ',')) && Silent(x[1..], Turn(s, x[0])))
  }

  /** Text that every scanner passes over: it leaves them as they were. */
  predicate Inert(x: string, s: Scan) {
    EndOf(x, s) == s && Depth(x, s) == 0 && Silent(x, s)
  }

  lemma {:induction false} EndAppend(x: string, y: string, s: Scan)
    ensures EndOf(x + y, s) == EndOf(y, EndOf(x, s))
    ensures Depth(x + y, s) == Depth(x, s) + Depth(y, EndOf(x, s))
    ensures Silent(x + y, s) <==> Silent(x, s) && Silent(y, EndOf(x, s))
    decreases |x|
  {
    if x == "" {
      assert x + y == y;
    } else {
      assert (x + y)[1..] == x[1..] + y;
      EndAppend(x[1..], y, Turn(s, x[0]));
    }
  }

  lemma {:induction false} StripAppend(x: string, y: string, s: Scan)
    requires Stripped(x, s) == x
    ensures Stripped(x + y, s) == x + Stripped(y, EndOf(x, s))
    decreases |x|
  {
    if x == "" {
      assert x + y == y;
    } else {
      assert (x + y)[1..] == x[1..] + y;
      assert x == [x[0]] + x[1..];
      StripAppend(x[1..], y, Turn(s, x[0]));
    }
  }

  lemma {:induction false} SilentStrips(x: string, s: Scan)
    requires Silent(x, s)
    ensures Stripped(x, s) == x
  {
    if x != "" {
      SilentStrips(x[1..], Turn(s, x[0]));
      assert x == [x[0]] + x[1..];
    }
  }

  lemma {:induction false} PiecesAppend(x: string, y: string, s: Scan)
    requires Silent(x, s)
    ensures Pieces(x + y, s) == Attach(x, Pieces(y, EndOf(x, s)))
    decreases |x|
  {
    var r := Pieces(y, EndOf(x, s));
    if x == "" {
      assert x + y == y && x + r[0] == r[0];
    } else {
      assert (x + y)[1..] == x[1..] + y && x == [x[0]] + x[1..];
      PiecesAppend(x[1..], y, Turn(s, x[0]));
      AttachTwice(x[0], x[1..], r);
    }
  }

  lemma InertThen(x: string, y: string, s: Scan)
    requires Inert(x, s)
    ensures EndOf(x + y, s) == EndOf(y, s) && Depth(x + y, s) == Depth(y, s)
    ensures Stripped(x + y, s) == x + Stripped(y, s) && Pieces(x + y, s) == Attach(x, Pieces(y, s))
  {
    EndAppend(x, y, s);
    SilentStrips(x, s);
    StripAppend(x, y, s);
    PiecesAppend(x, y, s);
  }

  lemma InertAlone(x: string, s: Scan)
    requires Inert(x, s)
    ensures Stripped(x, s) == x && Pieces(x, s) == [x]
  {
    assert x + "" == x;
    InertThen(x, "", s);
  }

  lemma InertPair(x: string, y: string, s: Scan)
    requires Inert(x, s) && Inert(y, s)
    ensures Inert(x + y, s)
  {
    EndAppend(x, y, s);
  }

  lemma {:induction false} SpaceIsInert(x: string)
    requires AllSpace(x)
    ensures Inert(x, Out)
  {
    if x != "" {
      SpaceIsInert(x[1..]);
    }
  }

  // ---------------------------------------------------------- string literals

  function EscapeChar(c: char): string {
    if c == '\n' then "\\n"
    else if c == '\t' then "\\t"
    else if c == '\r' then "\\r"
    else if c == '"' then "\\\""
    else if c == '\\' then "\\\\"
    else [c]
  }

  function Escape(s: string): string {
    if s == "" then "" else EscapeChar(s[0]) + Escape(s[1..])
  }

  function Literal(s: string): string {
    "\"" + Escape(s) + "\""
  }

  const INSIDE := In('"', false)

  lemma EscapeCharIsInert(c: char)
    ensures Inert(EscapeChar(c), INSIDE)
  {
    var x := EscapeChar(c);
    if |x| == 2 {
      assert x[1..] == [x[1]] && x[1..][1..] == "";
      assert Turn(INSIDE, x[0]) == In('"', true) && Turn(In('"', true), x[1]) == INSIDE;
      assert EndOf(x[1..], In('"', true)) == EndOf("", INSIDE) && Depth(x[1..], In('"', true)) == Depth("", INSIDE);
    } else {
      assert x[1..] == "" && Turn(INSIDE, c) == INSIDE;
    }
  }

  lemma {:induction false} EscapeIsInert(s: string)
    ensures Inert(Escape(s), INSIDE)
  {
    if s != "" {
      EscapeCharIsInert(s[0]);
      EscapeIsInert(s[1..]);
      InertPair(EscapeChar(s[0]), Escape(s[1..]), INSIDE);
    }
  }

  /** Whatever a string holds, its literal is inert: no scanner can be misled by its contents. */
  lemma LiteralIsInert(s: string)
    ensures Inert(Literal(s), Out)
  {
    var x := Escape(s) + "\"";
    EscapeIsInert(s);
    EndAppend(Escape(s), "\"", INSIDE);
    assert Literal(s) == "\"" + x && Literal(s)[1..] == x;
    assert "\""[1..] == "" && Turn(INSIDE, '"') == Out && Turn(Out, '"') == INSIDE;
  }

  lemma {:induction false} UnescapeEscape(s: string)
    ensures Unescape(Escape(s)) == Ok(s)
  {
    if s != "" {
      UnescapeEscape(s[1..]);
      var e, rest := EscapeChar(s[0]), Escape(s[1..]);
      assert (e + rest)[|e|..] == rest && s == [s[0]] + s[1..];
    }
  }

  lemma LiteralParses(s: string)
    ensures ParseValue(Literal(s)) == Ok(Str(s))
    ensures Literal(s)[0] == '"' && Literal(s)[|Literal(s)| - 1] == '"'
  {
    var t := Literal(s);
    assert t[1..|t| - 1] == Escape(s);
    assert t[0] != "true"[0] && t[0] != "false"[0];
    UnescapeEscape(s);
  }

  // ------------------------------------------------------------ other spellings

  /** Between single quotes everything stands for itself. */
  lemma VerbatimParses(s: string)
    ensures ParseValue("'" + s + "'") == Ok(Str(s))
  {
    var t := "'" + s + "'";
    assert t[0] == '\'' && t[|t| - 1] == '\'' && t[1..|t| - 1] == s;
    assert t[0] != "true"[0] && t[0] != "false"[0];
  }

  lemma {:induction false} InsideVerbatim(s: string)
    requires '\'' !in s
    ensures Inert(s, In('\'', false))
  {
    if s != "" {
      InsideVerbatim(s[1..]);
    }
  }

  /** and no scanner notices anything there either, hashes, commas and backslashes included. */
  lemma VerbatimPasses(s: string)
    requires '\'' !in s
    ensures Inert("'" + s + "'", Out) && Passed("'" + s + "'") && Tight("'" + s + "'")
  {
    var inside := In('\'', false);
    var x := s + "'";
    InsideVerbatim(s);
    EndAppend(s, "'", inside);
    assert "'" + s + "'" == "'" + x && ("'" + x)[1..] == x;
    assert "'"[1..] == "" && Turn(inside, '\'') == Out && Turn(Out, '\'') == inside;
    InertAlone("'" + x, Out);
  }

  // ------------------------------------------------------------------- arrays

  /** The inside of an array: `gaps` goes around the elements, one more of them than there are of these. */
  function Inner(elems: seq<string>, gaps: seq<string>, trailing: bool): string
    requires |gaps| == |elems| + 1
    decreases |elems|
  {
    if elems == [] then gaps[0]
    else
      var head := gaps[0] + Literal(elems[0]);
      if |elems| == 1 && !trailing then head + gaps[1]
      else head + "," + Inner(elems[1..], gaps[1..], trailing)
  }

  predicate Gaps(gaps: seq<string>) {
    forall i :: 0 <= i < |gaps| ==> AllSpace(gaps[i])
  }

  lemma HeadIsInert(gap: string, s: string)
    requires AllSpace(gap)
    ensures Inert(gap + Literal(s), Out)
  {
    SpaceIsInert(gap);
    LiteralIsInert(s);
    InertPair(gap, Literal(s), Out);
  }

  /** Comment stripping and bracket counting pass over it. */
  predicate Passed(t: string) {
    EndOf(t, Out) == Out && Depth(t, Out) == 0 && Stripped(t, Out) == t
  }

  lemma PassedLast(gap: string, s: string, after: string)
    requires AllSpace(gap) && AllSpace(after)
    ensures Passed(gap + Literal(s) + after)
  {
    HeadIsInert(gap, s);
    SpaceIsInert(after);
    InertPair(gap + Literal(s), after, Out);
    InertAlone(gap + Literal(s) + after, Out);
  }

  lemma PassedMore(gap: string, s: string, rest: string)
    requires AllSpace(gap) && Passed(rest)
    ensures Passed(gap + Literal(s) + "," + rest)
  {
    var head := gap + Literal(s);
    HeadIsInert(gap, s);
    CommaScans(rest);
    assert head + "," + rest == head + ("," + rest);
    InertThen(head, "," + rest, Out);
  }

  lemma {:induction false} InnerPasses(elems: seq<string>, gaps: seq<string>, trailing: bool)
    requires |gaps| == |elems| + 1 && Gaps(gaps)
    ensures Passed(Inner(elems, gaps, trailing))
    decreases |elems|
  {
    if elems == [] {
      SpaceIsInert(gaps[0]);
      InertAlone(gaps[0], Out);
    } else if |elems| == 1 && !trailing {
      PassedLast(gaps[0], elems[0], gaps[1]);
    } else {
      InnerPasses(elems[1..], gaps[1..], trailing);
      PassedMore(gaps[0], elems[0], Inner(elems[1..], gaps[1..], trailing));
    }
  }

  lemma CommaScans(y: string)
    ensures EndOf("," + y, Out) == EndOf(y, Out) && Depth("," + y, Out) == Depth(y, Out)
    ensures Stripped("," + y, Out) == "," + Stripped(y, Out)
    ensures Pieces("," + y, Out) == [""] + Pieces(y, Out)
  {
    assert ("," + y)[1..] == y;
  }

  lemma LastParses(gap: string, s: string, after: string, bound: nat)
    requires AllSpace(gap) && AllSpace(after) && |gap + Literal(s) + after| < bound
    ensures ParseElems(Pieces(gap + Literal(s) + after, Out), bound) == Ok([s])
  {
    HeadIsInert(gap, s);
    SpaceIsInert(after);
    InertPair(gap + Literal(s), after, Out);
    InertAlone(gap + Literal(s) + after, Out);
    ElemParses(gap, s, after, [], [], bound);
    var one := [gap + Literal(s) + after];
    assert one + [] == one && [s] + [] == [s];
  }

  lemma MoreParses(gap: string, s: string, rest: string, elems: seq<string>, bound: nat)
    requires AllSpace(gap) && |gap + Literal(s) + "," + rest| < bound
    requires ParseElems(Pieces(rest, Out), bound) == Ok(elems)
    ensures ParseElems(Pieces(gap + Literal(s) + "," + rest, Out), bound) == Ok([s] + elems)
  {
    var head := gap + Literal(s);
    HeadIsInert(gap, s);
    HeadPieces(head, rest);
    assert head + "" == head;
    ElemParses(gap, s, "", Pieces(rest, Out), elems, bound);
  }

  /** Splitting an array's inside and reading the pieces gives its elements. */
  lemma {:induction false} InnerParses(elems: seq<string>, gaps: seq<string>, trailing: bool, bound: nat)
    requires |gaps| == |elems| + 1 && Gaps(gaps) && |Inner(elems, gaps, trailing)| < bound
    ensures ParseElems(Pieces(Inner(elems, gaps, trailing), Out), bound) == Ok(elems)
    decreases |elems|
  {
    if elems == [] {
      SpaceParses(gaps[0], bound);
    } else if |elems| == 1 && !trailing {
      LastParses(gaps[0], elems[0], gaps[1], bound);
      assert elems == [elems[0]];
    } else {
      InnerParses(elems[1..], gaps[1..], trailing, bound);
      MoreParses(gaps[0], elems[0], Inner(elems[1..], gaps[1..], trailing), elems[1..], bound);
      assert elems == [elems[0]] + elems[1..];
    }
  }

  lemma SpaceParses(gap: string, bound: nat)
    requires AllSpace(gap) && |gap| < bound
    ensures ParseElems(Pieces(gap, Out), bound) == Ok([])
  {
    SpaceIsInert(gap);
    InertAlone(gap, Out);
    TrimSpace(gap);
    assert [gap][1..] == [];
  }

  lemma HeadPieces(head: string, rest: string)
    requires Inert(head, Out)
    ensures Pieces(head + "," + rest, Out) == [head] + Pieces(rest, Out)
  {
    CommaScans(rest);
    assert head + "," + rest == head + ("," + rest);
    InertThen(head, "," + rest, Out);
    assert head + "" == head && ([""] + Pieces(rest, Out))[1..] == Pieces(rest, Out);
  }

  /** One element in front of others. */
  lemma ElemParses(a: string, s: string, b: string, parts: seq<string>, elems: seq<string>, bound: nat)
    requires AllSpace(a) && AllSpace(b) && |a + Literal(s) + b| < bound && forall p :: p in parts ==> |p| < bound
    requires ParseElems(parts, bound) == Ok(elems)
    ensures ParseElems([a + Literal(s) + b] + parts, bound) == Ok([s] + elems)
  {
    LiteralParses(s);
    TrimAround(a, Literal(s), b);
    assert ([a + Literal(s) + b] + parts)[1..] == parts;
  }

  // ------------------------------------------------------------------- values

  function IntText(n: int): string {
    if n < 0 then "-" + Decimal(-n) else Decimal(n)
  }

  /** A value on one line. */
  function FlatText(v: Value, gaps: seq<string>, trailing: bool): string
    requires v.Arr? ==> |gaps| == |v.elems| + 1
  {
    match v
    case Str(s) => Literal(s)
    case Int(n) => IntText(n)
    case Bool(b) => if b then "true" else "false"
    case Arr(elems) => "[" + Inner(elems, gaps, trailing) + "]"
  }

  predicate ValueOk(v: Value) {
    v.Int? ==> -0x8000_0000_0000_0000 <= v.n < 0x8000_0000_0000_0000
  }

  lemma IntParses(n: int)
    requires ValueOk(Int(n))
    ensures ParseValue(IntText(n)) == Ok(Int(n)) && Tight(IntText(n))
    ensures Passed(IntText(n)) && IntText(n)[0] != '['
  {
    var t := IntText(n);
    var d := if n < 0 then Decimal(-n) else Decimal(n);
    DecimalReads(if n < 0 then -n else n);
    assert n < 0 ==> t[1..] == d;
    assert t[0] != "true"[0] && t[0] != "false"[0];
    assert ParseInt(t) == Some(n);
    PlainPasses(t);
  }

  /** Without quotes, hashes and brackets there is nothing to notice. */
  lemma {:induction false} PlainPasses(x: string)
    requires forall i :: 0 <= i < |x| ==> !Opens(x[i]) && x[i] != '[' && x[i] != ']'
    ensures Passed(x)
  {
    if x != "" {
      PlainPasses(x[1..]);
      assert x == [x[0]] + x[1..];
    }
  }

  lemma ArrayScans(inner: string)
    requires Passed(inner)
    ensures Passed("[" + inner + "]")
  {
    var t := inner + "]";
    assert "[" + inner + "]" == "[" + t && ("[" + t)[1..] == t;
    assert "]"[1..] == "" && Depth("]", Out) == -1 && Stripped("]", Out) == "]";
    EndAppend(inner, "]", Out);
    StripAppend(inner, "]", Out);
  }

  lemma ArrayOf(t: string, inner: string, elems: seq<string>)
    requires |t| == |inner| + 2 && t[0] == '[' && t[|t| - 1] == ']' && t[1..|t| - 1] == inner
    requires ParseElems(Pieces(inner, Out), |inner| + 1) == Ok(elems)
    ensures ParseValue(t) == Ok(Arr(elems))
  {
    assert t[0] != "true"[0] && t[0] != "false"[0];
  }

  lemma Bracket(inner: string)
    ensures var t := "[" + inner + "]";
            |t| == |inner| + 2 && t[0] == '[' && t[|t| - 1] == ']' && t[1..|t| - 1] == inner && Tight(t)
  {
  }

  lemma ArrayParses(elems: seq<string>, gaps: seq<string>, trailing: bool)
    requires |gaps| == |elems| + 1 && Gaps(gaps)
    ensures var t := "[" + Inner(elems, gaps, trailing) + "]";
            ParseValue(t) == Ok(Arr(elems)) && Passed(t) && Tight(t) && t[0] == '['
  {
    var inner := Inner(elems, gaps, trailing);
    InnerPasses(elems, gaps, trailing);
    ArrayScans(inner);
    InnerParses(elems, gaps, trailing, |inner| + 1);
    Bracket(inner);
    ArrayOf("[" + inner + "]", inner, elems);
  }

  lemma StringParses(s: string)
    ensures ParseValue(Literal(s)) == Ok(Str(s)) && Passed(Literal(s)) && Tight(Literal(s))
  {
    LiteralIsInert(s);
    InertAlone(Literal(s), Out);
    LiteralParses(s);
  }

  /** A printed value reads back, and no scanner notices anything in it. */
  lemma FlatParses(v: Value, gaps: seq<string>, trailing: bool)
    requires ValueOk(v) && (v.Arr? ==> |gaps| == |v.elems| + 1 && Gaps(gaps))
    ensures var t := FlatText(v, gaps, trailing);
            ParseValue(t) == Ok(v) && Passed(t) && Tight(t)
  {
    match v {
      case Str(s) => StringParses(s);
      case Int(n) => IntParses(n);
      case Bool(b) => PlainPasses(if b then "true" else "false");
      case Arr(elems) => ArrayParses(elems, gaps, trailing);
    }
  }

  // -------------------------------------------------------------------- lines

  predicate OneLine(s: string) {
    forall i :: 0 <= i < |s| ==> s[i] != '\n' && s[i] != '\r'
  }

  /** White space, and then perhaps a comment. */
  predicate IsTail(t: string) {
    t == "" || t[0] == '#' || (IsSpace(t[0]) && IsTail(t[1..]))
  }

  /** What is left of a tail when its comment is gone. */
  function Gap(tail: string): string {
    Stripped(tail, Out)
  }

  lemma {:induction false} GapIsSpace(tail: string)
    requires IsTail(tail)
    ensures AllSpace(Gap(tail))
  {
    if tail != "" && tail[0] != '#' {
      GapIsSpace(tail[1..]);
      assert Turn(Out, tail[0]) == Out;
    }
  }

  /** A line with a tail: the comment goes, the rest stays. */
  lemma LineStrips(x: string, tail: string)
    requires Stripped(x, Out) == x && EndOf(x, Out) == Out && IsTail(tail)
    ensures StripComment(x + tail) == x + Gap(tail) && AllSpace(Gap(tail))
    ensures Tight(x) ==> Trim(StripComment(x + tail)) == x
    ensures x == "" ==> Trim(StripComment(x + tail)) == ""
  {
    StripAppend(x, tail, Out);
    GapIsSpace(tail);
    TrimTail(x, Gap(tail));
  }

  lemma TrimTail(x: string, g: string)
    requires AllSpace(g)
    ensures Tight(x) ==> Trim(x + g) == x
    ensures x == "" ==> Trim(x + g) == ""
  {
    if Tight(x) {
      assert "" + x + g == x + g;
      TrimAround("", x, g);
    } else if x == "" {
      assert x + g == g;
      TrimSpace(g);
    }
  }

  /** A character that begins a string or a comment. */
  predicate Opens(c: char) {
    c == '"' || c == '\'' || c == '#'
  }

  predicate KeyOk(key: string) {
    && Tight(key) && key[0] != '[' && OneLine(key)
    && forall i :: 0 <= i < |key| ==> !Opens(key[i]) && key[i] != '='
  }

  predicate NameOk(name: string) {
    && (name == "" || Tight(name)) && OneLine(name)
    && forall i :: 0 <= i < |name| ==> !Opens(name[i])
  }

  /** Like `PlainPasses`, for text in which brackets may stand. */
  lemma {:induction false} PlainStrips(x: string)
    requires forall i :: 0 <= i < |x| ==> !Opens(x[i])
    ensures Stripped(x, Out) == x && EndOf(x, Out) == Out
  {
    if x != "" {
      PlainStrips(x[1..]);
      assert x == [x[0]] + x[1..];
    }
  }

  lemma {:induction false} EqualsAfter(p: string, q: string)
    requires forall i :: 0 <= i < |p| ==> p[i] != '='
    ensures EqualsAt(p + "=" + q) == |p|
  {
    if p == "" {
      assert (p + "=" + q)[0] == '=';
    } else {
      assert (p + "=" + q)[1..] == p[1..] + "=" + q;
      EqualsAfter(p[1..], q);
    }
  }

  function KeyLine(key: string, text: string): string {
    key + " = " + text
  }

  lemma KeyLineKind(key: string, text: string)
    requires KeyOk(key) && Stripped(text, Out) == text && EndOf(text, Out) == Out && Tight(text)
    ensures var x := KeyLine(key, text);
            && Stripped(x, Out) == x && EndOf(x, Out) == Out && Tight(x)
            && KindOf(x) == KeyValue(key, " " + text)
  {
    KeyChars(key);
    PlainStrips(key + " = ");
    StripAppend(key + " = ", text, Out);
    EndAppend(key + " = ", text, Out);
    KeyLineSplits(key, text);
  }

  lemma KeyLineSplits(key: string, text: string)
    requires KeyOk(key) && text != ""
    ensures var x := KeyLine(key, text);
            x[0] == key[0] && x[|x| - 1] == text[|text| - 1] && KindOf(x) == KeyValue(key, " " + text)
  {
    var x, p := KeyLine(key, text), key + " ";
    KeyChars(key);
    assert x == p + "=" + (" " + text);
    EqualsAfter(p, " " + text);
    assert x[..|p|] == p && x[|p| + 1..] == " " + text && x[0] == key[0];
    TrimTail(key, " ");
    assert "[["[0] == '[';
  }

  lemma KeyChars(key: string)
    requires KeyOk(key)
    ensures forall i :: 0 <= i < |key + " = "| ==> !Opens((key + " = ")[i])
    ensures forall i :: 0 <= i < |key + " "| ==> (key + " ")[i] != '='
  {
  }

  /** `[[name]]`, or `[name]` for a table that may stand only once. */
  function HeaderText(name: string, once: bool): string {
    if once then "[" + name + "]" else "[[" + name + "]]"
  }

  lemma TrimName(name: string)
    requires name == "" || Tight(name)
    ensures Trim(name) == name
  {
    if name != "" {
      assert "" + name + "" == name;
      TrimAround("", name, "");
    }
  }

  lemma HeaderKind(name: string, once: bool)
    requires NameOk(name) && (once ==> name != "" && name[0] != '[')
    ensures var x := HeaderText(name, once);
            && Stripped(x, Out) == x && EndOf(x, Out) == Out && Tight(x)
            && KindOf(x) == if once then PlainTable(name) else ArrayTable(name)
  {
    PlainStrips(HeaderText(name, once));
    TrimName(name);
    if once {
      OnceKind(name);
    } else {
      var x := HeaderText(name, once);
      assert x[2..|x| - 2] == name && x[|x| - 2..] == "]]" && "[[" <= x;
    }
  }

  lemma OnceKind(name: string)
    requires name != "" && name[0] != '[' && Trim(name) == name
    ensures KindOf("[" + name + "]") == PlainTable(name)
  {
    var x := "[" + name + "]";
    assert x[1..|x| - 1] == name && x[0] == '[' && x[1] == name[0];
    assert "[["[1] == '[';
  }
}
