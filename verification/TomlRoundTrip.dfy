/** Whole documents: printing one and parsing it gives the same tables, with the lines they stand on. */
module TomlRoundTrip {
  import opened Types
  import opened Text
  import opened Toml
  import opened TomlPrint

  /**
    * How a value is laid out. `Flat` keeps to one line; `Broken` gives an array a line for its
    * opening bracket and one for each element, each with a tail of its own; `Verbatim` puts a
    * string in single quotes, where nothing is escaped.
    */
  datatype Layout = Flat(gaps: seq<string>, trailing: bool) | Broken(tails: seq<string>) | Verbatim

  datatype DocEntry = DocEntry(filler: seq<string>, key: string, value: Value, layout: Layout, tail: string)

  datatype DocTable = DocTable(
    filler: seq<string>, name: string, once: bool, tail: string, entries: seq<DocEntry>)

  datatype Doc = Doc(root: seq<DocEntry>, tables: seq<DocTable>, ending: seq<string>)

  predicate TailOk(t: string) {
    IsTail(t) && OneLine(t)
  }

  predicate TailsOk(ts: seq<string>) {
    forall i :: 0 <= i < |ts| ==> TailOk(ts[i])
  }

  predicate LayoutOk(v: Value, l: Layout) {
    match l
    case Flat(gaps, _) =>
      v.Arr? ==> |gaps| == |v.elems| + 1 && Gaps(gaps) && forall i :: 0 <= i < |gaps| ==> OneLine(gaps[i])
    case Broken(tails) => v.Arr? && |tails| == |v.elems| + 1 && TailsOk(tails)
    case Verbatim => v.Str? && '\'' !in v.s && OneLine(v.s)
  }

  predicate EntryOk(e: DocEntry) {
    KeyOk(e.key) && ValueOk(e.value) && LayoutOk(e.value, e.layout) && TailOk(e.tail) && TailsOk(e.filler)
  }

  /** Keys are set once in a table. */
  predicate EntriesOk(es: seq<DocEntry>) {
    && (forall i :: 0 <= i < |es| ==> EntryOk(es[i]))
    && (forall i, j :: 0 <= i < j < |es| ==> es[i].key != es[j].key)
  }

  /** A table with neither name nor entries is nothing a document can say. */
  predicate TableOk(t: DocTable) {
    && NameOk(t.name) && TailOk(t.tail) && TailsOk(t.filler) && EntriesOk(t.entries)
    && (t.name != "" || t.entries != []) && (t.once ==> t.name != "" && t.name[0] != '[')
  }

  /** A table written `[name]` must not have been there before. */
  predicate Unrepeated(ts: seq<DocTable>, before: set<string>) {
    ts == [] || ((ts[0].once ==> ts[0].name !in before) && Unrepeated(ts[1..], before + {ts[0].name}))
  }

  predicate DocOk(d: Doc) {
    && EntriesOk(d.root) && (forall i :: 0 <= i < |d.tables| ==> TableOk(d.tables[i])) && TailsOk(d.ending)
    && Unrepeated(d.tables, {""})
  }

  // ----------------------------------------------------------------- printing

  function ElemLines(elems: seq<string>, tails: seq<string>): seq<string>
    requires |tails| == |elems|
  {
    if elems == [] then [] else [Literal(elems[0]) + "," + tails[0]] + ElemLines(elems[1..], tails[1..])
  }

  function BodyLines(e: DocEntry): (ls: seq<string>)
    requires EntryOk(e)
    ensures |ls| > 0
  {
    match e.layout
    case Flat(gaps, trailing) => [KeyLine(e.key, FlatText(e.value, gaps, trailing)) + e.tail]
    case Broken(tails) =>
      [KeyLine(e.key, "[") + tails[0]] + (ElemLines(e.value.elems, tails[1..]) + ["]" + e.tail])
    case Verbatim => [KeyLine(e.key, "'" + e.value.s + "'") + e.tail]
  }

  function EntryLines(e: DocEntry): seq<string>
    requires EntryOk(e)
  {
    e.filler + BodyLines(e)
  }

  /** An entry as it stands on the page: its lines, and which of them (from 1) carries the key. */
  datatype Rendered = Rendered(lines: seq<string>, key: string, value: Value, at: nat)

  function Render(e: DocEntry): Rendered
    requires EntryOk(e)
  {
    Rendered(EntryLines(e), e.key, e.value, |e.filler| + 1)
  }

  function RenderAll(es: seq<DocEntry>): seq<Rendered>
    requires EntriesOk(es)
  {
    if es == [] then [] else [Render(es[0])] + RenderAll(es[1..])
  }

  function AllLines(rs: seq<Rendered>): seq<string> {
    if rs == [] then [] else rs[0].lines + AllLines(rs[1..])
  }

  function EntriesLines(es: seq<DocEntry>): seq<string>
    requires EntriesOk(es)
  {
    AllLines(RenderAll(es))
  }

  function TableLines(t: DocTable): seq<string>
    requires TableOk(t)
  {
    t.filler + [HeaderText(t.name, t.once) + t.tail] + EntriesLines(t.entries)
  }

  function TablesLines(ts: seq<DocTable>): seq<string>
    requires forall i :: 0 <= i < |ts| ==> TableOk(ts[i])
  {
    if ts == [] then [] else TableLines(ts[0]) + TablesLines(ts[1..])
  }

  function DocLines(d: Doc): seq<string>
    requires DocOk(d)
  {
    EntriesLines(d.root) + TablesLines(d.tables) + d.ending
  }

  /** Each line ends in a line feed, after a carriage return where `crlf` says so. */
  function Unlines(ls: seq<string>, crlf: seq<bool>): string
    requires LineEndsOk(ls, crlf)
    decreases |ls|
  {
    if ls == [] then ""
    else if crlf == [] then ls[0]
    else ls[0] + (if crlf[0] then "\r\n" else "\n") + Unlines(ls[1..], crlf[1..])
  }

  /** Every line has an end, except perhaps a last one with something on it. */
  predicate LineEndsOk(ls: seq<string>, crlf: seq<bool>) {
    |crlf| == |ls| || (|crlf| + 1 == |ls| && ls[|ls| - 1] != "")
  }

  // ------------------------------------------------- what it should parse to

  function Numbered(rs: seq<Rendered>, n: nat): seq<Entry> {
    if rs == [] then []
    else [Entry(rs[0].key, rs[0].value, n + rs[0].at)] + Numbered(rs[1..], n + |rs[0].lines|)
  }

  function SectionOf(t: DocTable, n: nat): Section
    requires TableOk(t)
  {
    var line := n + |t.filler| + 1;
    Section(t.name, line, Numbered(RenderAll(t.entries), line))
  }

  function Sections(ts: seq<DocTable>, n: nat): seq<Section>
    requires forall i :: 0 <= i < |ts| ==> TableOk(ts[i])
  {
    if ts == [] then [] else [SectionOf(ts[0], n)] + Sections(ts[1..], n + |TableLines(ts[0])|)
  }

  function Expected(d: Doc): seq<Section>
    requires DocOk(d)
  {
    (if d.root == [] then [] else [Section("", 0, Numbered(RenderAll(d.root), 0))])
    + Sections(d.tables, |EntriesLines(d.root)|)
  }

  // -------------------------------------------------------------- one line each

  lemma Ahead(xs: seq<string>, ys: seq<string>)
    requires xs != []
    ensures (xs + ys)[0] == xs[0] && (xs + ys)[1..] == xs[1..] + ys
  {
  }

  /** One turn of the parser's loop. */
  ghost predicate Turns(p: Progress, q: Progress) {
    p.rest != [] && ReadLine(p) == Ok(q)
  }

  ghost predicate Trace(ps: seq<Progress>) {
    forall i, j :: 0 <= i < |ps| && 0 <= j < |ps| && j == i + 1 ==> Turns(ps[i], ps[j])
  }

  /** The parser gets from `p` to `q`. */
  ghost predicate Gets(p: Progress, q: Progress) {
    exists ps: seq<Progress> :: |ps| > 0 && ps[0] == p && ps[|ps| - 1] == q && Trace(ps)
  }

  lemma GetsNowhere(p: Progress)
    ensures Gets(p, p)
  {
    var ps := [p];
    assert Trace(ps) && ps[0] == p && ps[|ps| - 1] == p;
  }

  lemma GetsStep(p: Progress, q: Progress)
    requires Turns(p, q)
    ensures Gets(p, q)
  {
    var ps := [p, q];
    assert Trace(ps) && ps[0] == p && ps[|ps| - 1] == q;
  }

  lemma GetsOn(p: Progress, q: Progress, r: Progress)
    requires Gets(p, q) && Gets(q, r)
    ensures Gets(p, r)
  {
    var a: seq<Progress> :| |a| > 0 && a[0] == p && a[|a| - 1] == q && Trace(a);
    var b: seq<Progress> :| |b| > 0 && b[0] == q && b[|b| - 1] == r && Trace(b);
    var ps: seq<Progress> := a + b[1..];
    forall i, j | 0 <= i < |ps| && 0 <= j < |ps| && j == i + 1
      ensures Turns(ps[i], ps[j])
    {
      if j < |a| {
        assert ps[i] == a[i] && ps[j] == a[j];
      } else {
        assert ps[i] == b[i - |a| + 1] && ps[j] == b[j - |a| + 1];
      }
    }
    assert ps[|ps| - 1] == r;
  }

  lemma {:induction false} TraceReads(ps: seq<Progress>)
    requires |ps| > 0 && Trace(ps)
    ensures ReadAll(ps[0]) == ReadAll(ps[|ps| - 1])
    decreases |ps|
  {
    if |ps| > 1 {
      var qs := ps[1..];
      assert Turns(ps[0], ps[1]) && ps[1] == qs[0];
      forall i, j | 0 <= i < |qs| && 0 <= j < |qs| && j == i + 1
        ensures Turns(qs[i], qs[j])
      {
        assert qs[i] == ps[i + 1] && qs[j] == ps[j + 1];
      }
      TraceReads(qs);
    }
  }

  lemma GetsReads(p: Progress, q: Progress)
    requires Gets(p, q)
    ensures ReadAll(p) == ReadAll(q)
  {
    var ps: seq<Progress> :| |ps| > 0 && ps[0] == p && ps[|ps| - 1] == q && Trace(ps);
    TraceReads(ps);
  }

  lemma {:induction false} FillerReads(p: Progress, fs: seq<string>, more: seq<string>)
    requires TailsOk(fs) && p.rest == fs + more
    ensures Gets(p, p.(rest := more, n := p.n + |fs|))
    decreases |fs|
  {
    if fs == [] {
      assert fs + more == more;
      GetsNowhere(p);
    } else {
      Ahead(fs, more);
      var p' := p.(rest := fs[1..] + more, n := p.n + 1);
      BlankReads(p, fs[0]);
      FillerReads(p', fs[1..], more);
      GetsOn(p, p', p.(rest := more, n := p.n + |fs|));
    }
  }

  lemma BlankReads(p: Progress, f: string)
    requires p.rest != [] && p.rest[0] == f && IsTail(f)
    ensures Gets(p, p.(rest := p.rest[1..], n := p.n + 1))
  {
    assert "" + f == f;
    LineStrips("", f);
    GetsStep(p, p.(rest := p.rest[1..], n := p.n + 1));
  }

  lemma HeaderReads(p: Progress, name: string, once: bool, tail: string)
    requires p.rest != [] && p.rest[0] == HeaderText(name, once) + tail && NameOk(name) && IsTail(tail)
    requires once ==> name != "" && name[0] != '[' && !Named(p.done + [p.cur], name)
    ensures Gets(p, Begun(p, name))
  {
    HeaderKind(name, once);
    LineStrips(HeaderText(name, once), tail);
    GetsStep(p, Begun(p, name));
  }

  /** A line that reads as `key = text`, whose text reads as `v`. */
  lemma EntryReadsAs(p: Progress, key: string, text: string, v: Value, rest: seq<string>)
    requires p.rest != [] && KindOf(Trim(StripComment(p.rest[0]))) == KeyValue(key, text)
    requires !Keyed(p.cur.entries, key) && |rest| < |p.rest|
    requires ValueText(text, p.rest[1..]).1 == rest
    requires var whole := ValueText(text, p.rest[1..]).0;
             (StartsArray(text) ==> Balanced(whole)) && ParseValue(Trim(whole)) == Ok(v)
    ensures Gets(p, Filled(p, key, v, rest))
  {
    assert ReadEntry(p, key, text) == Ok(Filled(p, key, v, rest));
    GetsStep(p, Filled(p, key, v, rest));
  }

  /** A table that must not stand twice is refused, on its own line, when it does, */
  lemma RepeatedTableRefused(p: Progress, name: string, tail: string)
    requires p.rest != [] && p.rest[0] == HeaderText(name, true) + tail && IsTail(tail)
    requires NameOk(name) && name != "" && name[0] != '['
    requires p.cur.name == name || exists i :: 0 <= i < |p.done| && p.done[i].name == name
    ensures ReadAll(p) == Err(TomlError(p.n + 1, RepeatedTable))
  {
    HeaderKind(name, true);
    LineStrips(HeaderText(name, true), tail);
    var all := p.done + [p.cur];
    if i :| 0 <= i < |p.done| && p.done[i].name == name {
      assert all[i].name == name;
    } else {
      assert all[|p.done|].name == name;
    }
  }

  /** and so is a key. */
  lemma RepeatedKeyRefused(p: Progress, key: string, text: string, tail: string)
    requires p.rest != [] && p.rest[0] == KeyLine(key, text) + tail && IsTail(tail)
    requires KeyOk(key) && Passed(text) && Tight(text)
    requires exists i :: 0 <= i < |p.cur.entries| && p.cur.entries[i].key == key
    ensures ReadAll(p) == Err(TomlError(p.n + 1, RepeatedKey))
  {
    KeyLineKind(key, text);
    LineStrips(KeyLine(key, text), tail);
    SetTwice(p, key, " " + text);
  }

  lemma SetTwice(p: Progress, key: string, text: string)
    requires p.rest != [] && KindOf(Trim(StripComment(p.rest[0]))) == KeyValue(key, text) && Keyed(p.cur.entries, key)
    ensures ReadAll(p) == Err(TomlError(p.n + 1, RepeatedKey))
  {
  }

  lemma FlatReads(p: Progress, key: string, text: string, tail: string, v: Value)
    requires p.rest != [] && p.rest[0] == KeyLine(key, text) + tail && KeyOk(key) && IsTail(tail)
    requires Passed(text) && Tight(text) && ParseValue(text) == Ok(v) && !Keyed(p.cur.entries, key)
    ensures Gets(p, Filled(p, key, v, p.rest[1..]))
  {
    KeyLineKind(key, text);
    LineStrips(KeyLine(key, text), tail);
    SpaceThen(text);
    NothingGathered(" " + text, p.rest[1..]);
    EntryReadsAs(p, key, " " + text, v, p.rest[1..]);
  }

  lemma NothingGathered(text: string, rest: seq<string>)
    requires Balanced(text)
    ensures ValueText(text, rest) == (text, rest)
  {
  }

  lemma SpaceThen(text: string)
    requires Passed(text) && Tight(text)
    ensures Balanced(" " + text) && Trim(" " + text) == text
  {
    assert " " + text + "" == " " + text;
    TrimAround(" ", text, "");
    SpaceIsInert(" ");
    InertThen(" ", text, Out);
  }

  // --------------------------------------------------------- arrays over lines

  /** The gaps that pulling the lines of a broken array together leaves between its elements. */
  function Gathered(tails: seq<string>): (gaps: seq<string>)
    ensures |gaps| == |tails|
  {
    if tails == [] then [] else [Gap(tails[0]) + " "] + Gathered(tails[1..])
  }

  lemma {:induction false} GatheredAreGaps(tails: seq<string>)
    requires TailsOk(tails)
    ensures Gaps(Gathered(tails))
  {
    if tails != [] {
      assert TailOk(tails[0]);
      GapIsSpace(tails[0]);
      GatheredAreGaps(tails[1..]);
    }
  }

  lemma Regroup(g: string, h: string, x: string, y: string)
    ensures g + h + x + "," + y == g + (h + x + "," + y)
  {
  }

  lemma GapMoves(g: string, h: string, elems: seq<string>, gaps: seq<string>)
    requires |gaps| == |elems|
    ensures Inner(elems, [g + h] + gaps, true) == g + Inner(elems, [h] + gaps, true)
  {
    if elems != [] {
      assert ([g + h] + gaps)[1..] == gaps && ([h] + gaps)[1..] == gaps;
      Regroup(g, h, Literal(elems[0]), Inner(elems[1..], gaps, true));
    }
  }

  /** Joining a further line on, as the parser does. */
  lemma OwnedGrows(owned: string, x: string)
    requires EndOf(owned, Out) == Out
    ensures EndOf(owned + " " + x, Out) == EndOf(x, Out)
    ensures Depth(owned + " " + x, Out) == Depth(owned, Out) + Depth(x, Out)
  {
    SpaceIsInert(" ");
    InertThen(" ", x, Out);
    assert owned + " " + x == owned + (" " + x);
    EndAppend(owned, " " + x, Out);
  }

  /** An element's line, less its comment, changes no depth. */
  lemma ElemLine(s: string, tail: string)
    requires IsTail(tail)
    ensures var x := StripComment(Literal(s) + "," + tail);
            x == Literal(s) + "," + Gap(tail) && EndOf(x, Out) == Out && Depth(x, Out) == 0
  {
    var x := Literal(s) + ",";
    LiteralIsInert(s);
    CommaScans("");
    assert "," + "" == ",";
    InertThen(Literal(s), ",", Out);
    LineStrips(x, tail);
    SpaceIsInert(Gap(tail));
    EndAppend(x, Gap(tail), Out);
  }

  lemma ClosingLine(tail: string)
    requires IsTail(tail)
    ensures var x := StripComment("]" + tail);
            x == "]" + Gap(tail) && EndOf(x, Out) == Out && Depth(x, Out) == -1 && AllSpace(Gap(tail))
  {
    assert "]"[1..] == "" && Depth("]", Out) == -1 && Stripped("]", Out) == "]" && EndOf("]", Out) == Out;
    LineStrips("]", tail);
    SpaceIsInert(Gap(tail));
    EndAppend("]", Gap(tail), Out);
  }

  lemma GatherStep(rest: seq<string>, owned: string, owned': string)
    requires rest != [] && !Balanced(owned) && owned' == owned + " " + StripComment(rest[0])
    ensures Gather(rest, owned) == Gather(rest[1..], owned')
  {
  }

  lemma GatherEnds(rest: seq<string>, owned: string, tail: string)
    requires EndOf(owned, Out) == Out && Depth(owned, Out) == 1 && IsTail(tail)
    requires rest != [] && rest[0] == "]" + tail
    ensures Gather(rest, owned) == (owned + " " + "]" + Gap(tail), rest[1..])
    ensures Balanced(owned + " " + "]" + Gap(tail))
  {
    var owned' := owned + " " + ("]" + Gap(tail));
    ClosingLine(tail);
    OwnedGrows(owned, "]" + Gap(tail));
    assert owned + " " + "]" + Gap(tail) == owned';
    GatherStep(rest, owned, owned');
  }

  lemma ElemJoins(owned: string, s: string, g: string, elems: seq<string>, gaps: seq<string>, closing: string)
    requires |gaps| == |elems|
    ensures owned + " " + (Literal(s) + "," + g) + Inner(elems, [" "] + gaps, true) + closing
            == owned + Inner([s] + elems, [" ", g + " "] + gaps, true) + closing
  {
    var rest := Inner(elems, [" "] + gaps, true);
    GapMoves(g, " ", elems, gaps);
    assert ([s] + elems)[1..] == elems && ([" ", g + " "] + gaps)[1..] == [g + " "] + gaps;
    assert Inner([s] + elems, [" ", g + " "] + gaps, true) == " " + Literal(s) + "," + (g + rest);
    JoinStrings(owned, Literal(s), g, rest, closing);
  }

  lemma JoinStrings(owned: string, x: string, g: string, rest: string, closing: string)
    ensures owned + " " + (x + "," + g) + rest + closing == owned + (" " + x + "," + (g + rest)) + closing
  {
  }

  lemma AheadOf(x: string, xs: seq<string>, ys: seq<string>)
    ensures ([x] + xs) + ys != [] && (([x] + xs) + ys)[0] == x && (([x] + xs) + ys)[1..] == xs + ys
  {
  }

  /** One element's line is pulled in. */
  lemma BrokenStep(rest: seq<string>, s: string, tail: string, lines: seq<string>, end: seq<string>, owned: string)
    requires IsTail(tail) && EndOf(owned, Out) == Out && Depth(owned, Out) == 1
    requires rest == ([Literal(s) + "," + tail] + lines) + end
    ensures var owned' := owned + " " + (Literal(s) + "," + Gap(tail));
            && Gather(rest, owned) == Gather(lines + end, owned')
            && EndOf(owned', Out) == Out && Depth(owned', Out) == 1
  {
    var owned' := owned + " " + (Literal(s) + "," + Gap(tail));
    AheadOf(Literal(s) + "," + tail, lines, end);
    ElemLine(s, tail);
    OwnedGrows(owned, Literal(s) + "," + Gap(tail));
    GatherStep(rest, owned, owned');
  }

  function Whole(owned: string, elems: seq<string>, tails: seq<string>, tail: string): string
    requires |tails| == |elems|
  {
    owned + Inner(elems, [" "] + Gathered(tails), true) + ("]" + Gap(tail))
  }

  lemma WholeSame(owned: string, elems: seq<string>, tails: seq<string>, tail: string)
    requires |tails| == |elems| && elems != []
    ensures Whole(owned + " " + (Literal(elems[0]) + "," + Gap(tails[0])), elems[1..], tails[1..], tail)
            == Whole(owned, elems, tails, tail)
  {
    ElemJoins(owned, elems[0], Gap(tails[0]), elems[1..], Gathered(tails[1..]), "]" + Gap(tail));
    FrontElem(elems);
    FrontGap(" ", Gap(tails[0]) + " ", Gathered(tails[1..]));
  }

  lemma FrontElem(elems: seq<string>)
    requires elems != []
    ensures [elems[0]] + elems[1..] == elems
  {
  }

  lemma FrontGap(a: string, b: string, gaps: seq<string>)
    ensures [a, b] + gaps == [a] + ([b] + gaps)
  {
  }

  lemma WholeEnds(owned: string, tail: string)
    ensures Whole(owned, [], [], tail) == owned + " " + "]" + Gap(tail)
  {
    assert [" "] + [] == [" "];
    assert owned + " " + "]" + Gap(tail) == owned + " " + ("]" + Gap(tail));
  }

  /** Pulling in a broken array's lines gives the same text as if it had been printed on one. */
  lemma {:induction false} GatherBroken(rest: seq<string>, elems: seq<string>, tails: seq<string>,
                                        tail: string, more: seq<string>, owned: string)
    requires |tails| == |elems| && TailsOk(tails) && IsTail(tail)
    requires EndOf(owned, Out) == Out && Depth(owned, Out) == 1
    requires rest == ElemLines(elems, tails) + (["]" + tail] + more)
    ensures Gather(rest, owned) == (Whole(owned, elems, tails, tail), more)
    ensures Balanced(Whole(owned, elems, tails, tail))
    decreases |elems|
  {
    if elems == [] {
      assert rest == ["]" + tail] + more && rest[1..] == more;
      GatherEnds(rest, owned, tail);
      WholeEnds(owned, tail);
    } else {
      var lines, end := ElemLines(elems[1..], tails[1..]), ["]" + tail] + more;
      var owned' := owned + " " + (Literal(elems[0]) + "," + Gap(tails[0]));
      assert TailOk(tails[0]);
      BrokenStep(rest, elems[0], tails[0], lines, end, owned);
      GatherBroken(lines + end, elems[1..], tails[1..], tail, more, owned');
      WholeSame(owned, elems, tails, tail);
    }
  }

  lemma BrokenReads(p: Progress, key: string, elems: seq<string>, tails: seq<string>, tail: string, more: seq<string>)
    requires |tails| == |elems| + 1 && TailsOk(tails) && IsTail(tail) && KeyOk(key)
    requires p.rest == [KeyLine(key, "[") + tails[0]] + (ElemLines(elems, tails[1..]) + (["]" + tail] + more))
    requires !Keyed(p.cur.entries, key)
    ensures Gets(p, Filled(p, key, Arr(elems), more))
  {
    var rest := ElemLines(elems, tails[1..]) + (["]" + tail] + more);
    assert p.rest[0] == KeyLine(key, "[") + tails[0] && p.rest[1..] == rest;
    OpeningLine(key, tails[0]);
    GatherBroken(rest, elems, tails[1..], tail, more, " [");
    WholeParses(elems, tails[1..], tail);
    EntryReadsAs(p, key, " [", Arr(elems), more);
  }

  lemma OpeningLine(key: string, tail: string)
    requires KeyOk(key) && IsTail(tail)
    ensures KindOf(Trim(StripComment(KeyLine(key, "[") + tail))) == KeyValue(key, " [")
    ensures StartsArray(" [") && EndOf(" [", Out) == Out && Depth(" [", Out) == 1
  {
    assert "["[1..] == "" && Stripped("[", Out) == "[" && EndOf("[", Out) == Out && Depth("[", Out) == 1;
    KeyLineKind(key, "[");
    assert " " + "[" == " [" && " [" + "" == " [";
    LineStrips(KeyLine(key, "["), tail);
    TrimAround(" ", "[", "");
    SpaceIsInert(" ");
    InertThen(" ", "[", Out);
  }

  lemma WholeParses(elems: seq<string>, tails: seq<string>, tail: string)
    requires |tails| == |elems| && TailsOk(tails) && IsTail(tail)
    ensures ParseValue(Trim(Whole(" [", elems, tails, tail))) == Ok(Arr(elems))
  {
    var gaps := [" "] + Gathered(tails);
    var x := "[" + Inner(elems, gaps, true) + "]";
    GatheredAreGaps(tails);
    GapIsSpace(tail);
    ArrayParses(elems, gaps, true);
    Bracketed(Inner(elems, gaps, true), Gap(tail));
    TrimAround(" ", x, Gap(tail));
  }

  lemma Bracketed(inner: string, g: string)
    ensures " [" + inner + ("]" + g) == " " + ("[" + inner + "]") + g
  {
  }

  // ------------------------------------------------------- entries and tables

  function AfterEntry(p: Progress, r: Rendered, more: seq<string>): Progress {
    Progress(more, p.n + |r.lines|, p.done,
             p.cur.(entries := p.cur.entries + [Entry(r.key, r.value, p.n + r.at)]))
  }

  lemma BodyReads(p: Progress, e: DocEntry, more: seq<string>)
    requires EntryOk(e) && p.rest == BodyLines(e) + more && !Keyed(p.cur.entries, e.key)
    ensures Gets(p, Filled(p, e.key, e.value, more))
  {
    match e.layout {
      case Flat(gaps, trailing) =>
        var text := FlatText(e.value, gaps, trailing);
        AheadOf(KeyLine(e.key, text) + e.tail, [], more);
        assert [KeyLine(e.key, text) + e.tail] + [] == BodyLines(e) && [] + more == more;
        FlatParses(e.value, gaps, trailing);
        FlatReads(p, e.key, text, e.tail, e.value);
      case Verbatim =>
        var text := "'" + e.value.s + "'";
        AheadOf(KeyLine(e.key, text) + e.tail, [], more);
        assert [KeyLine(e.key, text) + e.tail] + [] == BodyLines(e) && [] + more == more;
        VerbatimParses(e.value.s);
        VerbatimPasses(e.value.s);
        FlatReads(p, e.key, text, e.tail, e.value);
      case Broken(tails) =>
        BrokenShape(e, more);
        BrokenReads(p, e.key, e.value.elems, tails, e.tail, more);
    }
  }

  lemma BrokenShape(e: DocEntry, more: seq<string>)
    requires EntryOk(e) && e.layout.Broken?
    ensures BodyLines(e) + more
            == [KeyLine(e.key, "[") + e.layout.tails[0]]
               + (ElemLines(e.value.elems, e.layout.tails[1..]) + (["]" + e.tail] + more))
  {
    LinesAssoc([KeyLine(e.key, "[") + e.layout.tails[0]],
               ElemLines(e.value.elems, e.layout.tails[1..]), ["]" + e.tail], more);
  }

  lemma LinesAssoc(a: seq<string>, b: seq<string>, c: seq<string>, d: seq<string>)
    ensures (a + (b + c)) + d == a + (b + (c + d))
    ensures (a + b) + c == a + (b + c)
  {
  }

  lemma EntryReads(p: Progress, e: DocEntry, more: seq<string>)
    requires EntryOk(e) && p.rest == EntryLines(e) + more && !Keyed(p.cur.entries, e.key)
    ensures Gets(p, AfterEntry(p, Render(e), more))
  {
    var body := BodyLines(e) + more;
    var p1 := p.(rest := body, n := p.n + |e.filler|);
    LinesAssoc(e.filler, BodyLines(e), more, []);
    FillerReads(p, e.filler, body);
    BodyReads(p1, e, more);
    SameProgress(p, e, more);
    GetsOn(p, p1, AfterEntry(p, Render(e), more));
  }

  lemma SameProgress(p: Progress, e: DocEntry, more: seq<string>)
    requires EntryOk(e)
    ensures var p1 := p.(rest := BodyLines(e) + more, n := p.n + |e.filler|);
            Filled(p1, e.key, e.value, more) == AfterEntry(p, Render(e), more)
  {
  }

  /** Wherever these lines come next, the parser reads the entry off them. */
  ghost predicate ReadsAs(r: Rendered) {
    forall p: Progress, more: seq<string> {:trigger AfterEntry(p, r, more)} ::
      p.rest == r.lines + more && !Keyed(p.cur.entries, r.key) ==> Gets(p, AfterEntry(p, r, more))
  }

  lemma RenderReads(e: DocEntry)
    requires EntryOk(e)
    ensures ReadsAs(Render(e))
  {
    var r := Render(e);
    forall p: Progress, more: seq<string> | p.rest == r.lines + more && !Keyed(p.cur.entries, r.key)
      ensures Gets(p, AfterEntry(p, r, more))
    {
      EntryReads(p, e, more);
    }
  }

  /** Entries that read back, with keys that neither repeat nor occur in `entries`. */
  ghost predicate AllRead(rs: seq<Rendered>, entries: seq<Entry>) {
    && (forall i :: 0 <= i < |rs| ==> ReadsAs(rs[i]) && !Keyed(entries, rs[i].key))
    && (forall i, j :: 0 <= i < j < |rs| ==> rs[i].key != rs[j].key)
  }

  lemma {:induction false} RenderAllReads(es: seq<DocEntry>)
    requires EntriesOk(es)
    ensures |RenderAll(es)| == |es| && AllRead(RenderAll(es), [])
    ensures forall i :: 0 <= i < |es| ==> RenderAll(es)[i].key == es[i].key
  {
    if es != [] {
      var rs := RenderAll(es[1..]);
      RenderReads(es[0]);
      RenderAllReads(es[1..]);
      KeysAhead(Render(es[0]), rs, es);
    }
  }

  lemma KeysAhead(r: Rendered, rs: seq<Rendered>, es: seq<DocEntry>)
    requires |es| == |rs| + 1 && es[0].key == r.key && ReadsAs(r) && AllRead(rs, [])
    requires forall i :: 0 <= i < |rs| ==> rs[i].key == es[1..][i].key
    requires forall i, j :: 0 <= i < j < |es| ==> es[i].key != es[j].key
    ensures AllRead([r] + rs, [])
    ensures forall i :: 0 <= i < |es| ==> ([r] + rs)[i].key == es[i].key
  {
    var all := [r] + rs;
    forall i | 0 <= i < |es|
      ensures all[i].key == es[i].key && ReadsAs(all[i]) && !Keyed([], all[i].key)
    {
      assert i > 0 ==> all[i] == rs[i - 1] && es[i] == es[1..][i - 1];
    }
  }

  lemma StillFresh(rs: seq<Rendered>, entries: seq<Entry>, x: Entry)
    requires rs != [] && AllRead(rs, entries) && x.key == rs[0].key
    ensures AllRead(rs[1..], entries + [x])
  {
    var rest := rs[1..];
    forall i | 0 <= i < |rest|
      ensures ReadsAs(rest[i]) && !Keyed(entries + [x], rest[i].key)
    {
      assert rest[i] == rs[i + 1] && !Keyed(entries, rs[i + 1].key);
    }
  }

  function AfterEntries(p: Progress, rs: seq<Rendered>, more: seq<string>): Progress {
    Progress(more, p.n + |AllLines(rs)|, p.done, p.cur.(entries := p.cur.entries + Numbered(rs, p.n)))
  }

  lemma {:induction false} EntriesRead(p: Progress, rs: seq<Rendered>, more: seq<string>)
    requires AllRead(rs, p.cur.entries) && p.rest == AllLines(rs) + more
    ensures Gets(p, AfterEntries(p, rs, more))
    decreases |rs|
  {
    if rs == [] {
      assert [] + more == more && p.cur.entries + [] == p.cur.entries;
      GetsNowhere(p);
    } else {
      var r, rest := rs[0], AllLines(rs[1..]) + more;
      var p1 := AfterEntry(p, r, rest);
      FirstReads(p, rs, more);
      StillFresh(rs, p.cur.entries, Entry(r.key, r.value, p.n + r.at));
      EntriesRead(p1, rs[1..], more);
      AfterOneAndRest(p, rs, rest, more);
      GetsOn(p, p1, AfterEntries(p, rs, more));
    }
  }

  lemma FirstReads(p: Progress, rs: seq<Rendered>, more: seq<string>)
    requires rs != [] && ReadsAs(rs[0]) && !Keyed(p.cur.entries, rs[0].key) && p.rest == AllLines(rs) + more
    ensures Gets(p, AfterEntry(p, rs[0], AllLines(rs[1..]) + more))
  {
    LinesAssoc(rs[0].lines, AllLines(rs[1..]), more, []);
  }

  lemma AfterOneAndRest(p: Progress, rs: seq<Rendered>, rest: seq<string>, more: seq<string>)
    requires rs != []
    ensures AfterEntries(AfterEntry(p, rs[0], rest), rs[1..], more) == AfterEntries(p, rs, more)
  {
    EntriesAssoc(p.cur.entries, Entry(rs[0].key, rs[0].value, p.n + rs[0].at),
                 Numbered(rs[1..], p.n + |rs[0].lines|));
  }

  lemma EntriesAssoc(a: seq<Entry>, x: Entry, b: seq<Entry>)
    ensures a + [x] + b == a + ([x] + b)
  {
  }

  /** A table and everything in it. */
  lemma TableReads(p: Progress, t: DocTable, more: seq<string>)
    requires TableOk(t) && p.rest == TableLines(t) + more && (t.once ==> !Named(p.done + [p.cur], t.name))
    ensures Gets(p, Progress(more, p.n + |TableLines(t)|, p.done + [p.cur], SectionOf(t, p.n)))
  {
    var p2 := TableOpens(p, t, more);
    var rs := RenderAll(t.entries);
    RenderAllReads(t.entries);
    EntriesRead(p2, rs, more);
    TableEnds(p, t, more);
    GetsOn(p, p2, AfterEntries(p2, rs, more));
  }

  lemma TableOpens(p: Progress, t: DocTable, more: seq<string>) returns (p2: Progress)
    requires TableOk(t) && p.rest == TableLines(t) + more && (t.once ==> !Named(p.done + [p.cur], t.name))
    ensures var line := p.n + |t.filler| + 1;
            p2 == Progress(EntriesLines(t.entries) + more, line, p.done + [p.cur], Section(t.name, line, []))
    ensures Gets(p, p2)
  {
    var rest := EntriesLines(t.entries) + more;
    var lines := [HeaderText(t.name, t.once) + t.tail] + rest;
    var p1 := p.(rest := lines, n := p.n + |t.filler|);
    TableShape(t, more);
    FillerReads(p, t.filler, lines);
    HeaderAhead(p1, t, rest);
    p2 := Begun(p1, t.name);
    GetsOn(p, p1, p2);
  }

  lemma HeaderAhead(p: Progress, t: DocTable, rest: seq<string>)
    requires TableOk(t) && p.rest == [HeaderText(t.name, t.once) + t.tail] + rest
    requires t.once ==> !Named(p.done + [p.cur], t.name)
    ensures Gets(p, Begun(p, t.name)) && Begun(p, t.name).rest == rest
  {
    HeaderReads(p, t.name, t.once, t.tail);
  }

  lemma TableEnds(p: Progress, t: DocTable, more: seq<string>)
    requires TableOk(t)
    ensures var line := p.n + |t.filler| + 1;
            var p2 := Progress(EntriesLines(t.entries) + more, line, p.done + [p.cur], Section(t.name, line, []));
            AfterEntries(p2, RenderAll(t.entries), more)
            == Progress(more, p.n + |TableLines(t)|, p.done + [p.cur], SectionOf(t, p.n))
  {
    var line := p.n + |t.filler| + 1;
    assert [] + Numbered(RenderAll(t.entries), line) == Numbered(RenderAll(t.entries), line);
  }

  lemma TableShape(t: DocTable, more: seq<string>)
    requires TableOk(t)
    ensures TableLines(t) + more
            == t.filler + ([HeaderText(t.name, t.once) + t.tail] + (EntriesLines(t.entries) + more))
  {
    var a, b, c := t.filler, [HeaderText(t.name, t.once) + t.tail], EntriesLines(t.entries);
    LinesAssoc(a, b, c, more);
  }

  function NamesOf(ss: seq<Section>): set<string> {
    set i | 0 <= i < |ss| :: ss[i].name
  }

  lemma NamesGrow(ss: seq<Section>, x: Section)
    ensures NamesOf(ss + [x]) == NamesOf(ss) + {x.name}
    ensures forall name :: Named(ss, name) <==> name in NamesOf(ss)
  {
    var all := ss + [x];
    assert forall i :: 0 <= i < |ss| ==> all[i] == ss[i];
    assert all[|ss|] == x;
    forall n | n in NamesOf(ss) + {x.name} ensures n in NamesOf(all) {
      if n in NamesOf(ss) {
        var i :| 0 <= i < |ss| && ss[i].name == n;
        assert all[i].name == n;
      }
    }
  }

  /** All the tables: finished and current ones together are those there were and those printed. */
  lemma {:induction false} TablesRead(p: Progress, ts: seq<DocTable>, more: seq<string>) returns (q: Progress)
    requires (forall i :: 0 <= i < |ts| ==> TableOk(ts[i])) && p.rest == TablesLines(ts) + more
    requires Unrepeated(ts, NamesOf(p.done + [p.cur]))
    ensures Gets(p, q) && q.rest == more && q.done + [q.cur] == p.done + [p.cur] + Sections(ts, p.n)
    decreases |ts|
  {
    if ts == [] {
      assert [] + more == more && p.done + [p.cur] + [] == p.done + [p.cur];
      GetsNowhere(p);
      q := p;
    } else {
      var rest := TablesLines(ts[1..]) + more;
      var p1 := Progress(rest, p.n + |TableLines(ts[0])|, p.done + [p.cur], SectionOf(ts[0], p.n));
      LinesAssoc(TableLines(ts[0]), TablesLines(ts[1..]), more, []);
      NamesGrow(p.done + [p.cur], SectionOf(ts[0], p.n));
      TableReads(p, ts[0], rest);
      q := TablesRead(p1, ts[1..], more);
      SectionsAssoc(p.done + [p.cur], SectionOf(ts[0], p.n), Sections(ts[1..], p1.n));
      GetsOn(p, p1, q);
    }
  }

  lemma SectionsAssoc(a: seq<Section>, x: Section, b: seq<Section>)
    ensures a + [x] + b == a + ([x] + b)
  {
  }

  // ------------------------------------------------------------ whole documents

  /** A table worth keeping. */
  predicate Says(s: Section) {
    s.name != "" || s.entries != []
  }

  predicate AllSay(xs: seq<Section>) {
    forall i :: 0 <= i < |xs| ==> Says(xs[i])
  }

  lemma KeptLast(all: seq<Section>, front: seq<Section>, x: Section)
    requires all == front + [x]
    ensures Kept(all) == Kept(front) + (if Says(x) then [x] else [])
  {
    assert all[..|all| - 1] == front;
  }

  lemma {:induction false} KeptAfter(r: Section, xs: seq<Section>)
    requires AllSay(xs)
    ensures Kept([r] + xs) == (if Says(r) then [r] else []) + xs
    decreases |xs|
  {
    if xs == [] {
      assert [r] + xs == [] + [r];
      KeptLast([r] + xs, [], r);
    } else {
      var front, x := xs[..|xs| - 1], xs[|xs| - 1];
      assert xs == front + [x] && Says(x);
      assert [r] + xs == ([r] + front) + [x];
      KeptAfter(r, front);
      KeptLast([r] + xs, [r] + front, x);
    }
  }

  lemma SectionSays(t: DocTable, n: nat)
    requires TableOk(t)
    ensures Says(SectionOf(t, n))
  {
  }

  lemma OneMoreSays(x: Section, xs: seq<Section>)
    requires Says(x) && AllSay(xs)
    ensures AllSay([x] + xs)
  {
  }

  lemma {:induction false} SectionsAreKept(ts: seq<DocTable>, n: nat)
    requires forall i :: 0 <= i < |ts| ==> TableOk(ts[i])
    ensures AllSay(Sections(ts, n))
    decreases |ts|
  {
    if ts != [] {
      var x, rest := SectionOf(ts[0], n), Sections(ts[1..], n + |TableLines(ts[0])|);
      assert Sections(ts, n) == [x] + rest;
      SectionSays(ts[0], n);
      SectionsAreKept(ts[1..], n + |TableLines(ts[0])|);
      OneMoreSays(x, rest);
    }
  }

  lemma RootIsNameless(root: Section)
    requires root.name == ""
    ensures NamesOf([] + [root]) == {""}
  {
    NamesGrow([], root);
  }

  /** The printed lines read back as the document, table by table. */
  lemma DocReads(d: Doc)
    requires DocOk(d)
    ensures ReadAll(Progress(DocLines(d), 0, [], Section("", 0, []))) == Ok(Expected(d))
  {
    var root := Section("", 0, Numbered(RenderAll(d.root), 0));
    var p := Progress(DocLines(d), 0, [], Section("", 0, []));
    var rest := TablesLines(d.tables) + d.ending;
    var p1 := Progress(rest, |EntriesLines(d.root)|, [], root);
    LinesAssoc(EntriesLines(d.root), TablesLines(d.tables), d.ending, []);
    RenderAllReads(d.root);
    EntriesRead(p, RenderAll(d.root), rest);
    assert [] + Numbered(RenderAll(d.root), 0) == Numbered(RenderAll(d.root), 0);
    RootIsNameless(root);
    var q := TablesRead(p1, d.tables, d.ending);
    GetsOn(p, p1, q);
    var last := q.(rest := [], n := q.n + |d.ending|);
    assert d.ending + [] == d.ending;
    FillerReads(q, d.ending, []);
    GetsOn(p, q, last);
    GetsReads(p, last);
    DocKept(d, last.done + [last.cur]);
  }

  lemma DocKept(d: Doc, all: seq<Section>)
    requires DocOk(d)
    requires all == [] + [Section("", 0, Numbered(RenderAll(d.root), 0))] + Sections(d.tables, |EntriesLines(d.root)|)
    ensures Kept(all) == Expected(d)
  {
    var root := Section("", 0, Numbered(RenderAll(d.root), 0));
    assert [] + [root] == [root];
    SectionsAreKept(d.tables, |EntriesLines(d.root)|);
    KeptAfter(root, Sections(d.tables, |EntriesLines(d.root)|));
  }

  // -------------------------------------------------------------- line breaks

  predicate AllOneLine(ls: seq<string>) {
    forall i :: 0 <= i < |ls| ==> OneLine(ls[i])
  }

  lemma {:induction false} LineEndAt(l: string, rest: string)
    requires forall i :: 0 <= i < |l| ==> l[i] != '\n'
    ensures LineEnd(l + "\n" + rest) == |l| && LineEnd(l) == |l|
  {
    var s := l + "\n" + rest;
    if l == "" {
      assert s[0] == '\n';
    } else {
      assert s[1..] == l[1..] + "\n" + rest;
      LineEndAt(l[1..], rest);
    }
  }

  /** One line, whichever way it ends. */
  lemma FirstLine(l: string, crlf: bool, rest: string)
    requires OneLine(l)
    ensures LinesOf(l + (if crlf then "\r\n" else "\n") + rest) == [l] + LinesOf(rest)
  {
    var body := if crlf then l + "\r" else l;
    var s := body + "\n" + rest;
    assert s == l + (if crlf then "\r\n" else "\n") + rest;
    LineEndAt(body, rest);
    assert s[..|body|] == body && s[|body| + 1..] == rest;
    assert crlf ==> body[..|body| - 1] == l;
  }

  lemma {:induction false} LinesOfUnlines(ls: seq<string>, crlf: seq<bool>)
    requires AllOneLine(ls) && LineEndsOk(ls, crlf)
    ensures LinesOf(Unlines(ls, crlf)) == ls
    decreases |ls|
  {
    if ls != [] {
      assert ls == [ls[0]] + ls[1..];
      if crlf == [] {
        LineEndAt(ls[0], "");
      } else {
        LinesOfUnlines(ls[1..], crlf[1..]);
        FirstLine(ls[0], crlf[0], Unlines(ls[1..], crlf[1..]));
      }
    }
  }

  lemma {:induction false} LiteralOneLine(s: string)
    ensures OneLine(Escape(s)) && OneLine(Literal(s))
  {
    if s != "" {
      LiteralOneLine(s[1..]);
      assert OneLine(EscapeChar(s[0]));
    }
  }

  lemma {:induction false} InnerOneLine(elems: seq<string>, gaps: seq<string>, trailing: bool)
    requires |gaps| == |elems| + 1 && forall i :: 0 <= i < |gaps| ==> OneLine(gaps[i])
    ensures OneLine(Inner(elems, gaps, trailing))
    decreases |elems|
  {
    if elems != [] {
      LiteralOneLine(elems[0]);
      if |elems| > 1 || trailing {
        InnerOneLine(elems[1..], gaps[1..], trailing);
        CommaOneLine(gaps[0], Literal(elems[0]), Inner(elems[1..], gaps[1..], trailing));
      }
    }
  }

  lemma CommaOneLine(a: string, b: string, c: string)
    requires OneLine(a) && OneLine(b) && OneLine(c)
    ensures OneLine(a + b + "," + c)
  {
  }

  lemma FlatOneLine(v: Value, gaps: seq<string>, trailing: bool)
    requires LayoutOk(v, Flat(gaps, trailing))
    ensures OneLine(FlatText(v, gaps, trailing))
  {
    match v {
      case Str(s) => LiteralOneLine(s);
      case Int(n) => DecimalReads(if n < 0 then -n else n);
      case Bool(b) =>
      case Arr(elems) => InnerOneLine(elems, gaps, trailing);
    }
  }

  lemma {:induction false} ElemLinesOneLine(elems: seq<string>, tails: seq<string>)
    requires |tails| == |elems| && TailsOk(tails)
    ensures AllOneLine(ElemLines(elems, tails))
    decreases |elems|
  {
    if elems != [] {
      LiteralOneLine(elems[0]);
      assert TailOk(tails[0]);
      CommaOneLine("", Literal(elems[0]), tails[0]);
      assert "" + Literal(elems[0]) + "," + tails[0] == Literal(elems[0]) + "," + tails[0];
      ElemLinesOneLine(elems[1..], tails[1..]);
    }
  }

  lemma KeyLineOneLine(key: string, text: string, tail: string)
    requires OneLine(key) && OneLine(text) && OneLine(tail)
    ensures OneLine(KeyLine(key, text) + tail)
  {
  }

  lemma BodyOneLine(e: DocEntry)
    requires EntryOk(e)
    ensures AllOneLine(BodyLines(e))
  {
    match e.layout {
      case Flat(gaps, trailing) =>
        FlatOneLine(e.value, gaps, trailing);
        KeyLineOneLine(e.key, FlatText(e.value, gaps, trailing), e.tail);
      case Verbatim =>
        KeyLineOneLine(e.key, "'" + e.value.s + "'", e.tail);
      case Broken(tails) =>
        assert TailOk(tails[0]);
        KeyLineOneLine(e.key, "[", tails[0]);
        ElemLinesOneLine(e.value.elems, tails[1..]);
        assert OneLine("]" + e.tail);
    }
  }

  lemma JoinOneLine(a: seq<string>, b: seq<string>)
    requires AllOneLine(a) && AllOneLine(b)
    ensures AllOneLine(a + b)
  {
  }

  lemma TailsOneLine(ts: seq<string>)
    requires TailsOk(ts)
    ensures AllOneLine(ts)
  {
    forall i | 0 <= i < |ts| ensures OneLine(ts[i]) { assert TailOk(ts[i]); }
  }

  lemma {:induction false} EntriesOneLine(es: seq<DocEntry>)
    requires EntriesOk(es)
    ensures AllOneLine(EntriesLines(es))
  {
    if es != [] {
      var r, rs := Render(es[0]), RenderAll(es[1..]);
      TailsOneLine(es[0].filler);
      BodyOneLine(es[0]);
      JoinOneLine(es[0].filler, BodyLines(es[0]));
      EntriesOneLine(es[1..]);
      JoinOneLine(r.lines, AllLines(rs));
      assert ([r] + rs)[1..] == rs;
    }
  }

  lemma TableOneLine(t: DocTable)
    requires TableOk(t)
    ensures AllOneLine(TableLines(t))
  {
    var header := HeaderText(t.name, t.once) + t.tail;
    TailsOneLine(t.filler);
    EntriesOneLine(t.entries);
    assert OneLine(header) && AllOneLine([header]);
    JoinOneLine(t.filler, [header]);
    JoinOneLine(t.filler + [header], EntriesLines(t.entries));
  }

  lemma {:induction false} TablesOneLine(ts: seq<DocTable>)
    requires forall i :: 0 <= i < |ts| ==> TableOk(ts[i])
    ensures AllOneLine(TablesLines(ts))
  {
    if ts != [] {
      TableOneLine(ts[0]);
      TablesOneLine(ts[1..]);
      JoinOneLine(TableLines(ts[0]), TablesLines(ts[1..]));
    }
  }

  /**
    * For every document: printing it with escapes, in whatever layout and with whatever line ends,
    * and parsing the text gives its tables, each table and entry with the line it was printed on.
    */
  lemma DocRoundTrip(d: Doc, crlf: seq<bool>)
    requires DocOk(d) && LineEndsOk(DocLines(d), crlf)
    ensures ParseToml(Unlines(DocLines(d), crlf)) == Ok(Expected(d))
  {
    EntriesOneLine(d.root);
    TablesOneLine(d.tables);
    TailsOneLine(d.ending);
    JoinOneLine(EntriesLines(d.root), TablesLines(d.tables));
    JoinOneLine(EntriesLines(d.root) + TablesLines(d.tables), d.ending);
    LinesOfUnlines(DocLines(d), crlf);
    DocReads(d);
  }
}
