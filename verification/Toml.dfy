/**
  * The configuration parser (crates/usbfwd-attach/src/toml.rs). Four scanners walk the same
  * text and have to agree on where strings begin and end; here they share one notion of it.
  */
module Toml {
  import opened Types
  import opened Text

  datatype Value = Str(s: string) | Int(n: int) | Bool(b: bool) | Arr(elems: seq<string>)

  datatype Entry = Entry(key: string, value: Value, line: nat)

  datatype Section = Section(name: string, line: nat, entries: seq<Entry>)

  datatype Problem =
    | UnterminatedHeader | RepeatedTable | ExpectedKeyValue | EmptyKey | RepeatedKey | UnterminatedArray
    | MissingValue | NotAString | UnterminatedString | BadEscape | NotAValue

  datatype TomlError = TomlError(line: nat, problem: Problem)

  // ---------------------------------------------------------------- scanning

  /** Whether a scanner stands inside a string, in which quotes, and just after a backslash. */
  datatype Scan = Out | In(quote: char, escape: bool)

  function Turn(s: Scan, c: char): Scan {
    match s
    case Out => if c == '"' || c == '\'' then In(c, false) else Out
    case In(q, escape) =>
      if escape then In(q, false)
      else if c == '\\' && q == '"' then In(q, true)
      else if c == q then Out
      else s
  }

  function EndOf(t: string, s: Scan): Scan {
    if t == "" then s else EndOf(t[1..], Turn(s, t[0]))
  }

  /** The text up to the first `#` outside a string. */
  function Stripped(t: string, s: Scan): string {
    if t == "" || (s.Out? && t[0] == '#') then "" else [t[0]] + Stripped(t[1..], Turn(s, t[0]))
  }

  /** Opening less closing brackets outside strings. */
  function Depth(t: string, s: Scan): int {
    if t == "" then 0
    else
      (if s.Out? && t[0] == '[' then 1 else if s.Out? && t[0] == ']' then -1 else 0)
      + Depth(t[1..], Turn(s, t[0]))
  }

  predicate Balanced(t: string) {
    Depth(t, Out) == 0 && EndOf(t, Out).Out?
  }

  /** The pieces between the commas outside strings. */
  function Pieces(t: string, s: Scan): (r: seq<string>)
    ensures |r| > 0 && forall p :: p in r ==> |p| <= |t|
  {
    if t == "" then [""]
    else
      var r := Pieces(t[1..], Turn(s, t[0]));
      if s.Out? && t[0] == ',' then [""] + r else [[t[0]] + r[0]] + r[1..]
  }

  function StripComment(line: string): string {
    Stripped(line, Out)
  }

  /** The flags the code keeps instead of a `Scan`. */
  function Flags(inStr: bool, quote: char, escape: bool): Scan {
    if inStr then In(quote, escape) else Out
  }

  method StripCommentScan(line: string) returns (r: string)
    ensures r == StripComment(line)
  {
    var inStr, quote, escape := false, '"', false;
    for i := 0 to |line|
      invariant StripComment(line) == line[..i] + Stripped(line[i..], Flags(inStr, quote, escape))
      invariant escape ==> inStr
    {
      var c := line[i];
      StrippedStep(line, i, Flags(inStr, quote, escape));
      if inStr {
        if escape {
          escape := false;
        } else if c == '\\' && quote == '"' {
          escape := true;
        } else if c == quote {
          inStr := false;
        }
        continue;
      }
      if c == '"' || c == '\'' {
        inStr, quote := true, c;
      } else if c == '#' {
        return line[..i];
      }
    }
    assert line[..|line|] == line;
    return line;
  }

  method BracketsBalanced(t: string) returns (r: bool)
    ensures r == Balanced(t)
  {
    var depth, inStr, quote, escape := 0, false, '"', false;
    for i := 0 to |t|
      invariant Depth(t, Out) == depth + Depth(t[i..], Flags(inStr, quote, escape))
      invariant EndOf(t, Out) == EndOf(t[i..], Flags(inStr, quote, escape))
      invariant escape ==> inStr
    {
      var c := t[i];
      assert t[i..][1..] == t[i + 1..];
      if inStr {
        if escape {
          escape := false;
        } else if c == '\\' && quote == '"' {
          escape := true;
        } else if c == quote {
          inStr := false;
        }
        continue;
      }
      if c == '"' || c == '\'' {
        inStr, quote := true, c;
      } else if c == '[' {
        depth := depth + 1;
      } else if c == ']' {
        depth := depth - 1;
      }
    }
    return depth == 0 && !inStr;
  }

  /** Pieces collected so far, the one being read, and those still to come. */
  function Joined(out: seq<string>, cur: string, rest: seq<string>): (r: seq<string>)
    requires rest != []
    ensures out == [] && cur == "" ==> r == rest
    ensures rest == [""] ==> r == out + [cur]
  {
    assert cur == "" ==> cur + rest[0] == rest[0];
    assert rest == [""] ==> cur + rest[0] == cur;
    out + ([cur + rest[0]] + rest[1..])
  }

  lemma JoinedChar(out: seq<string>, cur: string, c: char, rest: seq<string>)
    requires rest != []
    ensures Joined(out, cur, [[c] + rest[0]] + rest[1..]) == Joined(out, cur + [c], rest)
  {
    assert cur + ([c] + rest[0]) == cur + [c] + rest[0];
    assert ([[c] + rest[0]] + rest[1..])[1..] == rest[1..];
  }

  lemma JoinedComma(out: seq<string>, cur: string, rest: seq<string>)
    requires rest != []
    ensures Joined(out, cur, [""] + rest) == Joined(out + [cur], "", rest)
  {
    assert cur + "" == cur && "" + rest[0] == rest[0];
    assert ([""] + rest)[1..] == rest && rest == [rest[0]] + rest[1..];
  }

  /** One character further, seen from the pieces. */
  lemma PiecesStep(out: seq<string>, cur: string, t: string, i: nat, s: Scan)
    requires i < |t|
    ensures var rest := Pieces(t[i + 1..], Turn(s, t[i]));
            Joined(out, cur, Pieces(t[i..], s))
            == if s.Out? && t[i] == ',' then Joined(out + [cur], "", rest) else Joined(out, cur + [t[i]], rest)
  {
    var rest := Pieces(t[i + 1..], Turn(s, t[i]));
    assert t[i..][0] == t[i] && t[i..][1..] == t[i + 1..];
    JoinedChar(out, cur, t[i], rest);
    JoinedComma(out, cur, rest);
  }

  /** And seen from what a comment leaves. */
  lemma StrippedStep(t: string, i: nat, s: Scan)
    requires i < |t|
    ensures t[..i] + Stripped(t[i..], s)
            == if s.Out? && t[i] == '#' then t[..i] else t[..i + 1] + Stripped(t[i + 1..], Turn(s, t[i]))
  {
    assert t[i..][0] == t[i] && t[i..][1..] == t[i + 1..];
    if !(s.Out? && t[i] == '#') {
      var rest := Stripped(t[i + 1..], Turn(s, t[i]));
      assert t[..i] + ([t[i]] + rest) == t[..i + 1] + rest;
    }
  }

  method SplitArray(inner: string) returns (out: seq<string>)
    ensures out == Pieces(inner, Out)
  {
    out := [];
    var cur, inStr, quote, escape := "", false, '"', false;
    for i := 0 to |inner|
      invariant escape ==> inStr
      invariant Pieces(inner, Out) == Joined(out, cur, Pieces(inner[i..], Flags(inStr, quote, escape)))
    {
      var c := inner[i];
      PiecesStep(out, cur, inner, i, Flags(inStr, quote, escape));
      if inStr {
        cur := cur + [c];
        if escape {
          escape := false;
        } else if c == '\\' && quote == '"' {
          escape := true;
        } else if c == quote {
          inStr := false;
        }
        continue;
      }
      if c == '"' || c == '\'' {
        inStr, quote := true, c;
        cur := cur + [c];
      } else if c == ',' {
        out := out + [cur];
        cur := "";
      } else {
        cur := cur + [c];
      }
    }
    out := out + [cur];
  }

  // ------------------------------------------------------------------- values

  function Unescape(body: string): Result<string, Problem> {
    if body == "" then Ok("")
    else if body[0] != '\\' then
      var rest :- Unescape(body[1..]);
      Ok([body[0]] + rest)
    else if |body| == 1 then Err(BadEscape)
    else
      var c :- Escaped(body[1]);
      var rest :- Unescape(body[2..]);
      Ok([c] + rest)
  }

  function Escaped(c: char): Result<char, Problem> {
    if c == 'n' then Ok('\n')
    else if c == 't' then Ok('\t')
    else if c == 'r' then Ok('\r')
    else if c == '"' || c == '\\' then Ok(c)
    else Err(BadEscape)
  }

  function ParseString(t: string): Result<string, Problem>
    requires t != ""
  {
    if |t| < 2 || t[|t| - 1] != t[0] then Err(UnterminatedString)
    else if t[0] == '\'' then Ok(t[1..|t| - 1])
    else Unescape(t[1..|t| - 1])
  }

  method UnescapeScan(body: string) returns (r: Result<string, Problem>)
    ensures r == Unescape(body)
  {
    var out, i := "", 0;
    while i < |body|
      invariant 0 <= i <= |body|
      invariant Unescape(body) == Prefixed(out, Unescape(body[i..]))
    {
      var c := body[i];
      assert body[i..][1..] == body[i + 1..];
      i := i + 1;
      if c != '\\' {
        PrefixedOne(out, c, Unescape(body[i..]));
        out := out + [c];
        continue;
      }
      if i == |body| {
        return Err(BadEscape);
      }
      assert body[i - 1..][2..] == body[i + 1..];
      var e :- Escaped(body[i]);
      PrefixedOne(out, e, Unescape(body[i + 1..]));
      out := out + [e];
      i := i + 1;
    }
    return Ok(out);
  }

  /** `str::parse::<i64>`. */
  function ParseInt(t: string): Option<int> {
    var digits := if t != "" && (t[0] == '-' || t[0] == '+') then t[1..] else t;
    if digits == "" || exists c :: c in digits && !IsDigit(c) then None
    else
      var v: int := if t[0] == '-' then 0 - Number(digits, 10) else Number(digits, 10);
      if -0x8000_0000_0000_0000 <= v < 0x8000_0000_0000_0000 then Some(v) else None
  }

  function ParseValue(t: string): Result<Value, Problem>
    decreases |t|, 0
  {
    if t == "true" then Ok(Bool(true))
    else if t == "false" then Ok(Bool(false))
    else if t == "" then Err(MissingValue)
    else if t[0] == '[' then
      if |t| < 2 || t[|t| - 1] != ']' then Err(UnterminatedArray)
      else
        var elems :- ParseElems(Pieces(t[1..|t| - 1], Out), |t| - 1);
        Ok(Arr(elems))
    else if t[0] == '"' || t[0] == '\'' then
      var s :- ParseString(t);
      Ok(Str(s))
    else
      match ParseInt(t)
      case Some(n) => Ok(Int(n))
      case None => Err(NotAValue)
  }

  function ParseElems(parts: seq<string>, bound: nat): Result<seq<string>, Problem>
    requires forall p :: p in parts ==> |p| < bound
    decreases bound, |parts|
  {
    if parts == [] then Ok([])
    else
      TrimShrinks(parts[0]);
      if Trim(parts[0]) == "" then ParseElems(parts[1..], bound)
      else
        var v :- ParseValue(Trim(parts[0]));
        if !v.Str? then Err(NotAString)
        else
          var rest :- ParseElems(parts[1..], bound);
          Ok([v.s] + rest)
  }

  lemma TrimShrinks(s: string)
    ensures |Trim(s)| <= |s|
  {
    TrimStartShrinks(s);
    TrimEndShrinks(TrimStart(s));
  }

  lemma TrimStartShrinks(s: string)
    ensures |TrimStart(s)| <= |s|
  {
  }

  lemma TrimEndShrinks(s: string)
    ensures |TrimEnd(s)| <= |s|
  {
  }

  /** `parse_value`, whose array case reads its elements one after the other. */
  method ParseValueText(t: string) returns (r: Result<Value, Problem>)
    ensures r == ParseValue(t)
    decreases |t|
  {
    if t == "true" {
      return Ok(Bool(true));
    } else if t == "false" {
      return Ok(Bool(false));
    } else if t == "" {
      return Err(MissingValue);
    }
    if t[0] == '[' {
      if |t| < 2 || t[|t| - 1] != ']' {
        return Err(UnterminatedArray);
      }
      var parts := SplitArray(t[1..|t| - 1]);
      var out: seq<string> := [];
      for i := 0 to |parts|
        invariant ParseElems(parts, |t| - 1) == Prefixed(out, ParseElems(parts[i..], |t| - 1))
      {
        assert parts[i..][1..] == parts[i + 1..];
        TrimShrinks(parts[i]);
        var part := Trim(parts[i]);
        if part == "" {
          continue;
        }
        var v :- ParseValueText(part);
        if !v.Str? {
          return Err(NotAString);
        }
        PrefixedOne(out, v.s, ParseElems(parts[i + 1..], |t| - 1));
        out := out + [v.s];
      }
      return Ok(Arr(out));
    }
    if t[0] == '"' || t[0] == '\'' {
      if |t| < 2 || t[|t| - 1] != t[0] {
        return Err(UnterminatedString);
      }
      if t[0] == '\'' {
        return Ok(Str(t[1..|t| - 1]));
      }
      var s :- UnescapeScan(t[1..|t| - 1]);
      return Ok(Str(s));
    }
    match ParseInt(t)
    case Some(n) => return Ok(Int(n));
    case None => return Err(NotAValue);
  }

  // ---------------------------------------------------------------- documents

  function LineEnd(s: string): (k: nat)
    ensures k <= |s| && (k < |s| ==> s[k] == '\n')
  {
    if s == "" || s[0] == '\n' then 0 else 1 + LineEnd(s[1..])
  }

  function ChopReturn(l: string): string {
    if l != "" && l[|l| - 1] == '\r' then l[..|l| - 1] else l
  }

  /** `str::lines`: a carriage return goes only together with its line feed. */
  function LinesOf(s: string): seq<string>
    decreases |s|
  {
    if s == "" then []
    else
      var k := LineEnd(s);
      if k == |s| then [s] else [ChopReturn(s[..k])] + LinesOf(s[k + 1..])
  }

  datatype LineKind =
    | Blank
    | ArrayTable(name: string)
    | PlainTable(name: string)
    | KeyValue(key: string, text: string)
    | Bad(problem: Problem)

  function EqualsAt(s: string): (k: nat)
    ensures k <= |s|
  {
    if s == "" || s[0] == '=' then 0 else 1 + EqualsAt(s[1..])
  }

  /** What a line is, once its comment is gone and it has been trimmed. */
  function KindOf(line: string): LineKind {
    var n := |line|;
    if line == "" then Blank
    else if "[[" <= line then
      if n >= 4 && line[n - 2..] == "]]" then ArrayTable(Trim(line[2..n - 2])) else Bad(UnterminatedHeader)
    else if line[0] == '[' then
      if n >= 2 && line[n - 1] == ']' then PlainTable(Trim(line[1..n - 1])) else Bad(UnterminatedHeader)
    else
      var k := EqualsAt(line);
      if k == n then Bad(ExpectedKeyValue)
      else if Trim(line[..k]) == "" then Bad(EmptyKey)
      else KeyValue(Trim(line[..k]), line[k + 1..])
  }

  predicate Named(ts: seq<Section>, name: string) {
    exists i :: 0 <= i < |ts| && ts[i].name == name
  }

  predicate Keyed(es: seq<Entry>, key: string) {
    exists i :: 0 <= i < |es| && es[i].key == key
  }

  predicate StartsArray(text: string) {
    var t := TrimStart(text);
    t != "" && t[0] == '['
  }

  /** An array may run over several lines: they are pulled in until the brackets balance. */
  function Gather(rest: seq<string>, owned: string): (r: (string, seq<string>))
    ensures |r.1| <= |rest|
  {
    if rest == [] || Balanced(owned) then (owned, rest)
    else Gather(rest[1..], owned + " " + StripComment(rest[0]))
  }

  function ValueText(text: string, rest: seq<string>): (r: (string, seq<string>))
    ensures |r.1| <= |rest|
  {
    if StartsArray(text) && !Balanced(text) then Gather(rest, text) else (text, rest)
  }

  function Kept(ts: seq<Section>): seq<Section> {
    if ts == [] then []
    else
      var last := ts[|ts| - 1];
      Kept(ts[..|ts| - 1]) + (if last.name != "" || last.entries != [] then [last] else [])
  }

  /** How far the parser has got: lines left, lines read, tables finished, table being filled. */
  datatype Progress = Progress(rest: seq<string>, n: nat, done: seq<Section>, cur: Section)

  function Begun(p: Progress, name: string): Progress
    requires p.rest != []
  {
    Progress(p.rest[1..], p.n + 1, p.done + [p.cur], Section(name, p.n + 1, []))
  }

  function Filled(p: Progress, key: string, v: Value, rest: seq<string>): Progress
    requires |rest| < |p.rest|
  {
    Progress(rest, p.n + |p.rest| - |rest|, p.done,
             p.cur.(entries := p.cur.entries + [Entry(key, v, p.n + 1)]))
  }

  function ReadEntry(p: Progress, key: string, text: string): (r: Result<Progress, Problem>)
    requires p.rest != []
    ensures r.Ok? ==> |r.value.rest| < |p.rest|
  {
    if Keyed(p.cur.entries, key) then Err(RepeatedKey)
    else
      var (whole, rest) := ValueText(text, p.rest[1..]);
      if StartsArray(text) && !Balanced(whole) then Err(UnterminatedArray)
      else
        var v :- ParseValue(Trim(whole));
        Ok(Filled(p, key, v, rest))
  }

  /** One turn of the parser's loop. */
  function ReadLine(p: Progress): (r: Result<Progress, Problem>)
    requires p.rest != []
    ensures r.Ok? ==> |r.value.rest| < |p.rest|
  {
    match KindOf(Trim(StripComment(p.rest[0])))
    case Blank => Ok(p.(rest := p.rest[1..], n := p.n + 1))
    case ArrayTable(name) => Ok(Begun(p, name))
    case PlainTable(name) => if Named(p.done + [p.cur], name) then Err(RepeatedTable) else Ok(Begun(p, name))
    case Bad(problem) => Err(problem)
    case KeyValue(key, text) => ReadEntry(p, key, text)
  }

  function ReadAll(p: Progress): Result<seq<Section>, TomlError>
    decreases |p.rest|
  {
    if p.rest == [] then Ok(Kept(p.done + [p.cur]))
    else
      match ReadLine(p)
      case Ok(p') => ReadAll(p')
      case Err(problem) => Err(TomlError(p.n + 1, problem))
  }

  function ParseToml(input: string): Result<seq<Section>, TomlError> {
    ReadAll(Progress(LinesOf(input), 0, [], Section("", 0, [])))
  }

  /** `parse`. */
  method Parse(input: string) returns (r: Result<seq<Section>, TomlError>)
    ensures r == ParseToml(input)
  {
    var lines := LinesOf(input);
    var tables: seq<Section> := [];
    var current := Section("", 0, []);
    var i := 0;
    while i < |lines|
      invariant 0 <= i <= |lines|
      invariant ParseToml(input) == ReadAll(Progress(lines[i..], i, tables, current))
      decreases |lines| - i
    {
      var lineno := i + 1;
      var next := ParseLine(lines, i, tables, current);
      if next.Err? {
        return Err(TomlError(lineno, next.error));
      }
      i, tables, current := next.value.0, next.value.1, next.value.2;
    }
    r := Ok(Kept(tables + [current]));
  }

  /** The body of that loop. */
  method ParseLine(lines: seq<string>, i: nat, tables: seq<Section>, current: Section)
    returns (r: Result<(nat, seq<Section>, Section), Problem>)
    requires i < |lines|
    ensures match ReadLine(Progress(lines[i..], i, tables, current))
            case Err(problem) => r == Err(problem)
            case Ok(p) => r.Ok? && i < r.value.0 <= |lines|
                          && p == Progress(lines[r.value.0..], r.value.0, r.value.1, r.value.2)
  {
    assert lines[i..][0] == lines[i] && lines[i..][1..] == lines[i + 1..];
    var stripped := StripCommentScan(lines[i]);
    match KindOf(Trim(stripped)) {
      case Blank =>
        return Ok((i + 1, tables, current));
      case ArrayTable(name) =>
        return Ok((i + 1, tables + [current], Section(name, i + 1, [])));
      case PlainTable(name) =>
        if Named(tables + [current], name) {
          return Err(RepeatedTable);
        }
        return Ok((i + 1, tables + [current], Section(name, i + 1, [])));
      case Bad(problem) =>
        return Err(problem);
      case KeyValue(key, text) =>
        var entry :- ParseEntry(lines, i, tables, current, key, text);
        r := Ok((entry.0, tables, entry.1));
    }
  }

  method ParseEntry(lines: seq<string>, i: nat, ghost tables: seq<Section>, current: Section, key: string, text: string)
    returns (r: Result<(nat, Section), Problem>)
    requires i < |lines|
    ensures match ReadEntry(Progress(lines[i..], i, tables, current), key, text)
            case Err(problem) => r == Err(problem)
            case Ok(p) => r.Ok? && i < r.value.0 <= |lines|
                          && p == Progress(lines[r.value.0..], r.value.0, tables, r.value.1)
  {
    if Keyed(current.entries, key) {
      return Err(RepeatedKey);
    }
    assert lines[i..][1..] == lines[i + 1..];
    var whole, j := text, i + 1;
    if StartsArray(text) {
      whole, j := GatherLines(lines, i + 1, text);
      if !Balanced(whole) {
        return Err(UnterminatedArray);
      }
    }
    var value :- ParseValueText(Trim(whole));
    r := Ok((j, current.(entries := current.entries + [Entry(key, value, i + 1)])));
  }

  /** The loop that pulls in the lines of an array. */
  method GatherLines(lines: seq<string>, start: nat, text: string) returns (owned: string, i: nat)
    requires start <= |lines|
    ensures start <= i <= |lines| && (owned, lines[i..]) == Gather(lines[start..], text)
  {
    owned, i := text, start;
    var balanced := BracketsBalanced(owned);
    while i < |lines| && !balanced
      invariant start <= i <= |lines| && balanced == Balanced(owned)
      invariant Gather(lines[i..], owned) == Gather(lines[start..], text)
    {
      assert lines[i..][1..] == lines[i + 1..];
      var more := StripCommentScan(lines[i]);
      owned := owned + " " + more;
      i := i + 1;
      balanced := BracketsBalanced(owned);
    }
  }
}
