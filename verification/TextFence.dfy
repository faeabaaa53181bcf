/** Plain-text fences: adding at the tail, and what whole sequences of edits leave behind. */
module TextFence {
  import opened TextLines
  import opened Fencing

  function BlockLines(unit: string, body: seq<string>): seq<string> {
    [BeginMarker(Text, unit)] + body + [EndMarker(Text, unit)]
  }

  predicate Has(ls: seq<string>, unit: string) {
    FindBegin(Text, ls, unit, 0) < |ls|
  }

  function AddText(content: string, unit: string, body: seq<string>): string {
    if Has(Lines(content), unit) then content
    else
      var closed := if content != [] && !EndsInNewline(content) then content + "\n" else content;
      (if closed != [] then closed + "\n" else closed) + Unlines(BlockLines(unit, body))
  }

  /**
   Insert a fenced block at the tail, line by line. A text with the unit's begin line stays as it is; any
   other gets one blank line, if it has lines at all, then the begin line, the body and the end line.
   */
  method Add(content: string, unit: string, body: seq<string>) returns (out: string)
    ensures out == AddText(content, unit, body)
    ensures ("# <!-- specere:begin " + unit + " -->") in Lines(content) ==> out == content
    ensures ("# <!-- specere:begin " + unit + " -->") !in Lines(content) && '\n' !in unit && SingleLines(body) ==>
              && EndsInNewline(out)
              && Lines(out) == Lines(content) + (if Lines(content) == [] then [] else [[]])
                               + ["# <!-- specere:begin " + unit + " -->"] + body + ["# <!-- specere:end " + unit + " -->"]
  {
    hide Has, Lines, Unlines, BeginMarker, EndMarker, EndsInNewline, SingleLines;
    BeginIsPresent(Lines(content), unit);
    if '\n' !in unit && SingleLines(body) && !Has(Lines(content), unit) {
      AddedAtEnd(content, unit, body);
    }
    if Has(Lines(content), unit) {
      return content;
    }
    out := content;
    if out != [] && !EndsInNewline(out) {
      out := out + "\n";
    }
    if out != [] {
      out := out + "\n";
    }
    ghost var head := out;
    assert head + Unlines([]) == head by { NoLines(); }
    PushLine(head, [], BeginMarker(Text, unit));
    out := out + BeginMarker(Text, unit) + "\n";
    assert [BeginMarker(Text, unit)] + body[..0] == [] + [BeginMarker(Text, unit)];
    for i := 0 to |body|
      invariant out == head + Unlines([BeginMarker(Text, unit)] + body[..i])
    {
      PushLine(head, [BeginMarker(Text, unit)] + body[..i], body[i]);
      assert [BeginMarker(Text, unit)] + body[..i + 1] == [BeginMarker(Text, unit)] + body[..i] + [body[i]];
      out := out + body[i] + "\n";
    }
    assert body[..|body|] == body;
    PushLine(head, [BeginMarker(Text, unit)] + body, EndMarker(Text, unit));
    out := out + EndMarker(Text, unit) + "\n";
  }

  lemma PushLine(head: string, ls: seq<string>, l: string)
    ensures head + Unlines(ls + [l]) == head + Unlines(ls) + l + "\n"
  {
    UnlinesConcat(ls, [l]);
    assert Unlines([l]) == l + "\n";
    Associate(head, Unlines(ls), l + "\n");
    Associate(head + Unlines(ls), l, "\n");
  }

  // ---- markers ----

  predicate UnitOk(unit: string) {
    '\n' !in unit
  }

  lemma MarkerFacts(u: string, v: string)
    ensures BeginMarker(Text, u) == BeginMarker(Text, v) ==> u == v
    ensures BeginMarker(Text, u) != EndMarker(Text, v)
    ensures UnitOk(u) ==> '\n' !in BeginMarker(Text, u) && '\n' !in EndMarker(Text, u)
  {
    var p, q := "# <!-- specere:begin ", " -->";
    assert BeginMarker(Text, u)[|p|..|BeginMarker(Text, u)| - |q|] == u;
    assert BeginMarker(Text, v)[|p|..|BeginMarker(Text, v)| - |q|] == v;
    assert BeginMarker(Text, u)[15] == 'b' && EndMarker(Text, v)[15] == 'e';
  }

  /** No line is a marker of one of the units in play. */
  ghost predicate NoMarkers(ls: seq<string>, units: set<string>) {
    forall l, u :: l in ls && u in units ==> l != BeginMarker(Text, u) && l != EndMarker(Text, u)
  }

  lemma BlockIsFence(unit: string, body: seq<string>, units: set<string>)
    requires unit in units && NoMarkers(body, units)
    ensures IsFence(Text, BlockLines(unit, body), unit)
    ensures forall v :: v in units && v != unit ==> Free(Text, BlockLines(unit, body), v)
  {
    hide BeginMarker, EndMarker;
    var f := BlockLines(unit, body);
    MarkerFacts(unit, unit);
    forall i | 0 < i < |f| - 1 ensures !IsEnd(Text, f[i], unit) {
      assert f[i] == body[i - 1] && body[i - 1] in body;
    }
    forall v, l | v in units && v != unit && l in f ensures !IsBegin(Text, l, v) {
      MarkerFacts(unit, v);
      MarkerFacts(v, unit);
      assert l in body || l == BeginMarker(Text, unit) || l == EndMarker(Text, unit);
    }
  }

  // ---- one block added and removed ----

  /** The lines after an add. */
  function AddLines(ls: seq<string>, unit: string, body: seq<string>): seq<string> {
    if Has(ls, unit) then ls else (if ls == [] then [] else ls + [[]]) + BlockLines(unit, body)
  }

  lemma AddIsAddLines(content: string, unit: string, body: seq<string>)
    requires UnitOk(unit) && SingleLines(body) && !Has(Lines(content), unit)
    ensures Lines(AddText(content, unit, body)) == AddLines(Lines(content), unit, body)
    ensures AddText(content, unit, body) == Unlines(AddLines(Lines(content), unit, body))
  {
    hide Has, BeginMarker, EndMarker, Unlines;
    var block := BlockLines(unit, body);
    MarkerFacts(unit, unit);
    LinesAreSingle(content);
    var ls := Lines(content);
    if content == [] {
      LinesUnlines(block);
      assert [] + block == block && [] + Unlines(block) == Unlines(block);
    } else {
      JoinLines(content);
      UnlinesJoin(ls);
      var closed := if !EndsInNewline(content) then content + "\n" else content;
      assert closed == Unlines(ls);
      UnlinesBlank();
      UnlinesConcat(ls, [[]]);
      UnlinesConcat(ls + [[]], block);
      LinesUnlines(ls + [[]] + block);
    }
  }

  lemma BeginIsPresent(ls: seq<string>, unit: string)
    ensures Has(ls, unit) <==> ("# <!-- specere:begin " + unit + " -->") in ls
  {
    assert BeginMarker(Text, unit) == "# <!-- specere:begin " + unit + " -->";
    if Has(ls, unit) { assert ls[FindBegin(Text, ls, unit, 0)] in ls; }
  }

  lemma AddedAtEnd(content: string, unit: string, body: seq<string>)
    requires UnitOk(unit) && SingleLines(body) && !Has(Lines(content), unit)
    ensures EndsInNewline(AddText(content, unit, body))
    ensures Lines(AddText(content, unit, body))
            == Lines(content) + (if Lines(content) == [] then [] else [[]])
               + ["# <!-- specere:begin " + unit + " -->"] + body + ["# <!-- specere:end " + unit + " -->"]
  {
    hide Has, Unlines, Lines, SingleLines;
    var begin, end := "# <!-- specere:begin " + unit + " -->", "# <!-- specere:end " + unit + " -->";
    AddIsAddLines(content, unit, body);
    UnlinesEnds(AddLines(Lines(content), unit, body));
    var front := if Lines(content) == [] then [] else Lines(content) + [[]];
    assert Lines(content) + (if Lines(content) == [] then [] else [[]]) == front;
    Associate(front, [begin], body);
    Associate(front, [begin] + body, [end]);
  }

  lemma UnlinesBlank()
    ensures Unlines([[]]) == "\n"
  {
  }

  /** What comes back when a block is added and removed again. */
  lemma RoundTripResult(content: string, unit: string, body: seq<string>)
    requires UnitOk(unit) && SingleLines(body) && NoMarkers(body, {unit}) && !Has(Lines(content), unit)
    ensures RemoveText(Text, AddText(content, unit, body), unit) == Ok(Unlines(Tidied(Lines(content))))
  {
    hide Has, BeginMarker, EndMarker, Tidied, AddText, Strip, IsFence, Free, Unlines, NoMarkers;
    var ls, block := Lines(content), BlockLines(unit, body);
    var p := if ls == [] then [] else ls + [[]];
    AddIsAddLines(content, unit, body);
    BlockIsFence(unit, body, {unit});
    AbsentMeansFree(ls, unit);
    assert p + block + [] == p + block;
    StripFence(Text, p, block, [], unit);
    assert p + [] == p;
    TrailingBlankTidied(ls);
    TidiedIsTidy(ls);
    UnlinesEnds(p + block);
    RejoinTerminated(Tidied(ls));
  }

  /**
   Adding a block and removing it again gives back the text exactly when the text is empty, or
   is newline-terminated without adjacent or trailing blank lines.
   */
  lemma RoundTripExactly(content: string, unit: string, body: seq<string>)
    requires UnitOk(unit) && SingleLines(body) && NoMarkers(body, {unit}) && !Has(Lines(content), unit)
    ensures RemoveText(Text, AddText(content, unit, body), unit) == Ok(content)
       <==> content == [] || (EndsInNewline(content) && IsTidy(Lines(content)))
  {
    hide Has, NoMarkers, AddText, RemoveText, IsTidy, Tidied, Unlines, Lines;
    RoundTripResult(content, unit, body);
    var ls := Lines(content);
    LinesAreSingle(content);
    TidiedIsTidy(ls);
    TidiedSingle(ls);
    LinesUnlines(Tidied(ls));
    UnlinesEnds(Tidied(ls));
    if content == [] {
      EmptyText();
    } else if EndsInNewline(content) {
      TerminatedText(content);
    }
  }

  /** A file with two blank lines in a row comes back with one of them. */
  lemma BlankRunIsLost(unit: string, body: seq<string>)
    requires UnitOk(unit) && SingleLines(body) && NoMarkers(body, {unit})
    ensures var content := Unlines(["a", [], [], "b"]);
      RemoveText(Text, AddText(content, unit, body), unit) == Ok(Unlines(["a", [], "b"])) != Ok(content)
  {
    hide AddText, RemoveText, Unlines, Lines, NoMarkers, Has;
    var ls: seq<string> := ["a", [], [], "b"];
    LinesUnlines(ls);
    ShortIsFree(ls, unit);
    RoundTripResult(Unlines(ls), unit, body);
    TidiedExample();
    LinesUnlines(["a", [], "b"]);
  }

  lemma TidiedExample()
    ensures Tidied(["a", [], [], "b"]) == ["a", [], "b"]
  {
    var c: seq<string> := ["a", [], "b"];
    assert Collapse(false, ["b"]) == ["b"] && Collapse(true, ["b"]) == ["b"];
    assert ["a", [], [], "b"][1..] == [[], [], "b"] && [[], [], "b"][1..] == [[], "b"] && [[], "b"][1..] == ["b"];
    assert Collapse(true, [[], "b"]) == ["b"];
    assert Collapse(false, [[], [], "b"]) == [[]] + ["b"];
    assert Collapse(false, ["a", [], [], "b"]) == ["a"] + ([[]] + ["b"]) == c;
  }

  lemma ShortIsFree(ls: seq<string>, unit: string)
    requires forall l :: l in ls ==> |l| < 2
    ensures !Has(ls, unit)
  {
    assert forall i :: 0 <= i < |ls| ==> ls[i] in ls;
    assert |BeginMarker(Text, unit)| >= 2;
  }

  lemma EmptyText()
    ensures Lines([]) == [] && Tidied([]) == [] && Unlines([]) == []
  {
  }

  lemma AbsentMeansFree(ls: seq<string>, unit: string)
    requires !Has(ls, unit)
    ensures Free(Text, ls, unit)
    ensures Free(Text, if ls == [] then [] else ls + [[]], unit)
  {
    MarkersNotBlankText(unit);
  }

  lemma MarkersNotBlankText(unit: string)
    ensures BeginMarker(Text, unit) != []
  {
  }

  lemma TrailingBlankTidied(ls: seq<string>)
    ensures Tidied(if ls == [] then [] else ls + [[]]) == Tidied(ls)
  {
    if ls != [] {
      CollapseConcat(false, ls, [[]]);
      var c := Collapse(EndBlank(false, ls), [[]]);
      AllBlankCollapse(EndBlank(false, ls), [[]]);
      TrimConcat(Collapse(false, ls), c);
    }
  }

  // ---- whole sequences of edits by several units ----

  datatype Block = Block(unit: string, body: seq<string>)
  datatype Op = AddOp(unit: string, body: seq<string>) | RemoveOp(unit: string)

  function Apply(content: string, op: Op): FenceResult {
    match op
    case AddOp(unit, body) => Ok(AddText(content, unit, body))
    case RemoveOp(unit) => RemoveText(Text, content, unit)
  }

  /** The edits in order; the first error ends the run. */
  function Run(content: string, ops: seq<Op>): FenceResult
    decreases ops
  {
    if ops == [] then Ok(content)
    else
      var r := Apply(content, ops[0]);
      if r.Ok? then Run(r.text, ops[1..]) else r
  }

  /** The units that have a block after the edits. */
  function Present(units: set<string>, ops: seq<Op>): set<string>
    decreases ops
  {
    if ops == [] then units
    else Present(if ops[0].AddOp? then units + {ops[0].unit} else units - {ops[0].unit}, ops[1..])
  }

  ghost predicate OpsOk(ops: seq<Op>, units: set<string>) {
    forall op :: op in ops ==> op.unit in units && UnitOk(op.unit)
                               && (op.AddOp? ==> SingleLines(op.body) && NoMarkers(op.body, units))
  }

  /** Each block with a blank line before it. */
  ghost function Sections(bs: seq<Block>): seq<string> {
    if bs == [] then [] else [[]] + BlockLines(bs[0].unit, bs[0].body) + Sections(bs[1..])
  }

  /** Removing a block collapses the blank runs in the others. */
  ghost function Collapsed(bs: seq<Block>): (r: seq<Block>)
    ensures |r| == |bs| && forall i :: 0 <= i < |bs| ==> r[i] == Block(bs[i].unit, Collapse(false, bs[i].body))
  {
    seq(|bs|, i requires 0 <= i < |bs| => Block(bs[i].unit, Collapse(false, bs[i].body)))
  }

  /** The lines of a text with blocks; only over an empty start can the first separator be missing. */
  ghost function Rendered(base: seq<string>, lead: bool, bs: seq<Block>): seq<string> {
    if base == [] && !lead && bs != [] then Sections(bs)[1..] else base + Sections(bs)
  }

  ghost function UnitsOf(bs: seq<Block>): set<string> {
    set b | b in bs :: b.unit
  }

  ghost predicate BlocksOk(bs: seq<Block>, units: set<string>) {
    && (forall b :: b in bs ==> b.unit in units && UnitOk(b.unit) && SingleLines(b.body) && NoMarkers(b.body, units))
    && (forall i, j :: 0 <= i < j < |bs| ==> bs[i].unit != bs[j].unit)
  }

  ghost predicate BaseOk(base: seq<string>, units: set<string>) {
    IsTidy(base) && SingleLines(base) && forall u :: u in units ==> Free(Text, base, u)
  }

  lemma {:induction false} SectionsConcat(a: seq<Block>, b: seq<Block>)
    ensures Sections(a + b) == Sections(a) + Sections(b)
    decreases a
  {
    if a == [] {
      assert a + b == b;
    } else {
      SectionsConcat(a[1..], b);
      assert (a + b)[0] == a[0] && (a + b)[1..] == a[1..] + b;
      Associate([[]] + BlockLines(a[0].unit, a[0].body), Sections(a[1..]), Sections(b));
    }
  }

  lemma BlockCollapses(b: Block, units: set<string>, prev: bool)
    requires b.unit in units && NoMarkers(b.body, units)
    ensures Collapse(prev, BlockLines(b.unit, b.body)) == BlockLines(b.unit, Collapse(false, b.body))
    ensures !EndBlank(prev, BlockLines(b.unit, b.body))
  {
    var first, last := BeginMarker(Text, b.unit), EndMarker(Text, b.unit);
    assert BlockLines(b.unit, b.body) == [first] + (b.body + [last]);
    CollapseConcat(prev, [first], b.body + [last]);
    CollapseConcat(false, b.body, [last]);
  }

  /** Collapsing a run of sections; after a blank line the first separator goes. */
  lemma {:induction false} SectionsCollapse(bs: seq<Block>, units: set<string>)
    requires BlocksOk(bs, units)
    ensures Collapse(false, Sections(bs)) == Sections(Collapsed(bs))
    ensures bs != [] ==> Sections(Collapsed(bs)) == [[]] + Collapse(true, Sections(bs))
    ensures !EndBlank(false, Sections(bs))
    decreases bs
  {
    hide BeginMarker, EndMarker, BlockLines, BlocksOk, Collapse;
    if bs == [] {
      NothingCollapses();
    } else {
      var block, rest := BlockLines(bs[0].unit, bs[0].body), Sections(bs[1..]);
      FewerBlocks(bs, units);
      SectionsCollapse(bs[1..], units);
      BlockCollapses(bs[0], units, true);
      CollapseConcat(true, block, rest);
      assert Sections(bs) == [[]] + (block + rest);
      CollapseAfterBlank(block + rest);
      assert EndBlank(false, Sections(bs)) == EndBlank(true, block + rest) == EndBlank(EndBlank(true, block), rest);
      assert Collapsed(bs)[1..] == Collapsed(bs[1..]);
      Associate([[]], BlockLines(bs[0].unit, Collapse(false, bs[0].body)), Sections(Collapsed(bs[1..])));
    }
  }

  lemma NothingCollapses()
    ensures Collapse(false, []) == [] == Collapse(true, [])
  {
  }

  lemma CollapseAfterBlank(ls: seq<string>)
    ensures Collapse(false, [[]] + ls) == [[]] + Collapse(true, ls)
    ensures Collapse(true, [[]] + ls) == Collapse(true, ls)
  {
    assert ([[]] + ls)[1..] == ls;
  }

  lemma FewerBlocks(bs: seq<Block>, units: set<string>)
    requires bs != [] && BlocksOk(bs, units)
    ensures BlocksOk(bs[1..], units)
    ensures bs[0].unit in units && NoMarkers(bs[0].body, units)
  {
  }

  /** Tidying where a block was cut out: one separator less. */
  lemma CutTidied(x: seq<string>, rest: seq<Block>, units: set<string>)
    requires BlocksOk(rest, units) && !EndBlank(false, x)
    ensures Tidied(x + [[]] + Sections(rest)) == Collapse(false, x) + Sections(Collapsed(rest))
    ensures Tidied(x + Sections(rest)) == Collapse(false, x) + Sections(Collapsed(rest))
  {
    hide BlocksOk, Collapse, Sections, Collapsed;
    var s, c := Sections(rest), Collapsed(rest);
    SectionsCollapse(rest, units);
    CollapseConcat(false, x, s);
    CollapseConcat(false, x, [[]] + s);
    assert x + [[]] + s == x + ([[]] + s);
    CollapseAfterBlank(s);
    CollapseShape(false, x);
    CollapseShape(false, s);
    var front := Collapse(false, x);
    TrimOne(front);
    if rest == [] {
      NoSections();
      NothingCollapses();
      assert front + ([[]] + Collapse(true, s)) == front + [[]];
      assert front + s == front && front + Sections(c) == front;
    } else {
      assert front + ([[]] + Collapse(true, s)) == front + Sections(c);
      TrimOne(front + Sections(c));
    }
  }

  lemma TrimOne(ls: seq<string>)
    requires !EndBlank(false, ls)
    ensures TrimBlanks(ls) == ls && TrimBlanks(ls + [[]]) == ls
  {
    assert (ls + [[]])[..|ls + [[]]| - 1] == ls;
  }

  lemma NoSections()
    ensures Sections([]) == [] && Collapsed([]) == []
  {
  }

  lemma RenderedMore(base: seq<string>, lead: bool, a: seq<Block>, b: seq<Block>)
    requires a != []
    ensures Rendered(base, lead, a) + Sections(b) == Rendered(base, lead, a + b)
  {
    SectionsConcat(a, b);
    SectionsNotEmpty(a);
    hide Sections;
    assert (Sections(a) + Sections(b))[1..] == Sections(a)[1..] + Sections(b);
    Associate(base, Sections(a), Sections(b));
  }

  lemma SectionsNotEmpty(bs: seq<Block>)
    requires bs != []
    ensures Sections(bs) != []
  {
  }

  lemma RenderedCollapses(base: seq<string>, lead: bool, bs: seq<Block>, units: set<string>)
    requires BlocksOk(bs, units) && IsTidy(base) && bs != []
    ensures Collapse(false, Rendered(base, lead, bs)) == Rendered(base, lead, Collapsed(bs))
    ensures !EndBlank(false, Rendered(base, lead, bs))
  {
    hide BlocksOk, Collapse, IsTidy, BeginMarker, EndMarker;
    SectionsCollapse(bs, units);
    if base == [] && !lead {
      FirstRenderedCollapses(bs, units);
    } else {
      CollapseConcat(false, base, Sections(bs));
      TidyIsCollapsed(base);
    }
  }

  lemma FirstRenderedCollapses(bs: seq<Block>, units: set<string>)
    requires BlocksOk(bs, units) && bs != []
    ensures Collapse(false, Sections(bs)[1..]) == Sections(Collapsed(bs))[1..]
    ensures !EndBlank(false, Sections(bs)[1..])
  {
    hide BlocksOk, Collapse, BlockLines, Sections, EndBlank;
    var block, rest := BlockLines(bs[0].unit, bs[0].body), Sections(bs[1..]);
    FewerBlocks(bs, units);
    SectionsTail(bs);
    SectionsTail(Collapsed(bs));
    SectionsCollapse(bs[1..], units);
    BlockCollapses(bs[0], units, false);
    CollapseConcat(false, block, rest);
    assert Collapsed(bs)[1..] == Collapsed(bs[1..]);
    EndOfConcat(block, rest);
  }

  lemma SectionsTail(bs: seq<Block>)
    requires bs != []
    ensures |Sections(bs)| > 0 && Sections(bs)[1..] == BlockLines(bs[0].unit, bs[0].body) + Sections(bs[1..])
  {
    hide BlockLines;
  }

  lemma EndOfConcat(a: seq<string>, b: seq<string>)
    requires !EndBlank(false, a) && !EndBlank(false, b)
    ensures !EndBlank(false, a + b)
  {
  }

  lemma TidyIsCollapsed(base: seq<string>)
    requires IsTidy(base)
    ensures Collapse(false, base) == base && !EndBlank(false, base)
  {
    CollapseFix(false, base);
  }

  lemma CollapsedConcat(a: seq<Block>, b: seq<Block>)
    ensures Collapsed(a + b) == Collapsed(a) + Collapsed(b)
  {
    hide Collapse;
  }

  lemma {:induction false} SectionsFree(bs: seq<Block>, units: set<string>, u: string)
    requires BlocksOk(bs, units) && u in units && forall b :: b in bs ==> b.unit != u
    ensures Free(Text, Sections(bs), u)
    decreases bs
  {
    hide BeginMarker, EndMarker, BlockLines, IsBegin;
    if bs != [] {
      SectionsFree(bs[1..], units, u);
      BlockIsFence(bs[0].unit, bs[0].body, units);
      BlankIsNoMarker(u);
    }
  }

  lemma BlankIsNoMarker(u: string)
    ensures !IsBegin(Text, [], u)
  {
  }

  lemma RemoveFirst(base: seq<string>, lead: bool, b: Block, rest: seq<Block>, units: set<string>)
    requires BaseOk(base, units) && BlocksOk([b] + rest, units)
    ensures Strip(Text, Rendered(base, lead, [b] + rest), b.unit) == Cut(Rendered(base, true, Collapsed(rest)))
  {
    hide Strip, Collapse, Tidied, BlockLines, IsFence, Free, NoMarkers, SingleLines, IsTidy, BlocksOk;
    var block := BlockLines(b.unit, b.body);
    var p := if base == [] && !lead then [] else base + [[]];
    assert ([b] + rest)[1..] == rest;
    FewerBlocks([b] + rest, units);
    BlockIsFence(b.unit, b.body, units);
    NoBlocks(units);
    FreeBefore(base, lead, [], units, b.unit);
    assert Rendered(base, lead, [b] + rest) == p + block + Sections(rest);
    StripFence(Text, p, block, Sections(rest), b.unit);
    TidyIsCollapsed(base);
    CutTidied(base, rest, units);
    assert base == [] ==> base + Sections(rest) == [] + Sections(rest);
    assert base + Sections(Collapsed(rest)) == Rendered(base, true, Collapsed(rest));
  }

  lemma NoBlocks(units: set<string>)
    ensures BlocksOk([], units)
  {
  }

  lemma RemoveLater(base: seq<string>, lead: bool, before: seq<Block>, b: Block, rest: seq<Block>, units: set<string>)
    requires BaseOk(base, units) && BlocksOk(before + ([b] + rest), units) && before != []
    ensures Strip(Text, Rendered(base, lead, before + ([b] + rest)), b.unit)
         == Cut(Rendered(base, lead, Collapsed(before + rest)))
  {
    hide Strip, Collapse, Tidied, BlockLines, IsFence, Free, NoMarkers, SingleLines, IsTidy, BlocksOk, Rendered;
    var block, x := BlockLines(b.unit, b.body), Rendered(base, lead, before);
    assert ([b] + rest)[1..] == rest;
    BlocksApart(before, [b] + rest, units);
    FewerBlocks([b] + rest, units);
    BlockIsFence(b.unit, b.body, units);
    FreeBefore(base, lead, before, units, b.unit);
    RenderedMore(base, lead, before, [b] + rest);
    assert x + Sections([b] + rest) == x + [[]] + block + Sections(rest);
    StripFence(Text, x + [[]], block, Sections(rest), b.unit);
    RenderedCollapses(base, lead, before, units);
    CutTidied(x, rest, units);
    CollapsedConcat(before, rest);
    RenderedMore(base, lead, Collapsed(before), Collapsed(rest));
  }

  lemma BlocksApart(a: seq<Block>, b: seq<Block>, units: set<string>)
    requires BlocksOk(a + b, units) && b != []
    ensures BlocksOk(a, units) && BlocksOk(b, units)
    ensures forall x :: x in a ==> x.unit != b[0].unit
  {
    assert forall i :: 0 <= i < |a| ==> (a + b)[i] == a[i];
    assert forall i :: 0 <= i < |b| ==> (a + b)[|a| + i] == b[i];
    forall x | x in a ensures x.unit != b[0].unit {
      var i :| 0 <= i < |a| && a[i] == x;
      assert (a + b)[i] == x && (a + b)[|a|] == b[0];
    }
  }

  /** Cutting out block `k` of a rendered text. */
  lemma RemoveBlock(base: seq<string>, lead: bool, bs: seq<Block>, k: nat, units: set<string>)
    requires BaseOk(base, units) && BlocksOk(bs, units) && k < |bs|
    ensures Strip(Text, Rendered(base, lead, bs), bs[k].unit)
         == Cut(Rendered(base, lead || k == 0, Collapsed(bs[..k] + bs[k + 1..])))
  {
    hide Strip, BlocksOk, BaseOk, Rendered, Collapsed;
    assert bs == bs[..k] + ([bs[k]] + bs[k + 1..]);
    if k == 0 {
      assert bs == [bs[0]] + bs[1..] && bs[..0] + bs[1..] == bs[1..];
      RemoveFirst(base, lead, bs[0], bs[1..], units);
    } else {
      RemoveLater(base, lead, bs[..k], bs[k], bs[k + 1..], units);
    }
  }

  lemma FreeBefore(base: seq<string>, lead: bool, before: seq<Block>, units: set<string>, u: string)
    requires BaseOk(base, units) && BlocksOk(before, units) && u in units && forall b :: b in before ==> b.unit != u
    ensures Free(Text, Rendered(base, lead, before) + [[]], u) && Free(Text, Rendered(base, lead, before), u)
    ensures Free(Text, base + [[]], u) && Free(Text, [], u)
  {
    hide IsBegin;
    SectionsFree(before, units, u);
    BlankIsNoMarker(u);
    assert before != [] ==> forall l :: l in Sections(before)[1..] ==> l in Sections(before);
  }

  lemma HasMeansNotFree(ls: seq<string>, u: string)
    ensures Has(ls, u) <==> !Free(Text, ls, u)
  {
  }

  lemma {:induction false} SectionsLines(bs: seq<Block>, units: set<string>)
    requires BlocksOk(bs, units)
    ensures SingleLines(Sections(bs))
    ensures forall b :: b in bs ==> BeginMarker(Text, b.unit) in Sections(bs)
    ensures bs != [] ==> forall b :: b in bs ==> BeginMarker(Text, b.unit) in Sections(bs)[1..]
    decreases bs
  {
    hide BeginMarker, EndMarker;
    if bs != [] {
      SectionsLines(bs[1..], units);
      MarkerFacts(bs[0].unit, bs[0].unit);
      assert bs == [bs[0]] + bs[1..];
      assert Sections(bs)[1..] == BlockLines(bs[0].unit, bs[0].body) + Sections(bs[1..]);
    }
  }

  /** The blocks of a rendered text are the ones its begin lines show. */
  lemma RenderedShows(base: seq<string>, lead: bool, bs: seq<Block>, units: set<string>, u: string)
    requires BaseOk(base, units) && BlocksOk(bs, units) && u in units
    ensures Has(Rendered(base, lead, bs), u) <==> u in UnitsOf(bs)
    ensures SingleLines(Rendered(base, lead, bs)) && Lines(Unlines(Rendered(base, lead, bs))) == Rendered(base, lead, bs)
  {
    hide BeginMarker, EndMarker, Has, Sections, Lines, Unlines;
    var ls := Rendered(base, lead, bs);
    HasMeansNotFree(ls, u);
    SectionsLines(bs, units);
    LinesUnlines(ls);
    if u in UnitsOf(bs) {
      assert BeginMarker(Text, u) in ls;
    } else {
      FreeBefore(base, lead, bs, units, u);
    }
  }

  lemma AddBlock(base: seq<string>, lead: bool, bs: seq<Block>, b: Block, units: set<string>) returns (lead': bool)
    requires BaseOk(base, units) && BlocksOk(bs + [b], units)
    ensures !Has(Rendered(base, lead, bs), b.unit)
    ensures AddLines(Rendered(base, lead, bs), b.unit, b.body) == Rendered(base, lead', bs + [b])
  {
    hide Has, BlockLines, BaseOk, BlocksOk, Rendered;
    lead' := if bs == [] then false else lead;
    BlocksApart(bs, [b], units);
    NewUnit(bs, b, units);
    RenderedShows(base, lead, bs, units, b.unit);
    OneSection(b);
    if bs == [] {
      assert bs + [b] == [b];
      BareRendered(base);
      FirstRendered(base, b);
    } else {
      RenderedMore(base, lead, bs, [b]);
      RenderedNotEmpty(base, lead, bs);
      Associate(Rendered(base, lead, bs), [[]], BlockLines(b.unit, b.body));
    }
  }

  lemma FirstRendered(base: seq<string>, b: Block)
    ensures Rendered(base, false, [b]) == (if base == [] then [] else base + [[]]) + BlockLines(b.unit, b.body)
  {
    hide Sections, BlockLines;
    OneSection(b);
    Associate(base, [[]], BlockLines(b.unit, b.body));
    assert ([[]] + BlockLines(b.unit, b.body))[1..] == [] + BlockLines(b.unit, b.body);
  }

  lemma NoUnitsNoBlocks(bs: seq<Block>)
    ensures bs != [] ==> UnitsOf(bs) != {}
  {
    if bs != [] { assert bs[0].unit in UnitsOf(bs); }
  }

  lemma NewUnit(bs: seq<Block>, b: Block, units: set<string>)
    requires BlocksOk(bs + [b], units)
    ensures b.unit in units && b.unit !in UnitsOf(bs)
  {
    assert b in bs + [b];
    BlocksApart(bs, [b], units);
  }

  lemma OneSection(b: Block)
    ensures Sections([b]) == [[]] + BlockLines(b.unit, b.body)
  {
    NoSections();
    assert [[]] + BlockLines(b.unit, b.body) + [] == [[]] + BlockLines(b.unit, b.body);
  }

  lemma RenderedNotEmpty(base: seq<string>, lead: bool, bs: seq<Block>)
    requires bs != []
    ensures Rendered(base, lead, bs) != []
  {
  }

  lemma RemovedBlocksOk(bs: seq<Block>, k: nat, units: set<string>)
    requires BlocksOk(bs, units) && k < |bs|
    ensures BlocksOk(Collapsed(bs[..k] + bs[k + 1..]), units)
    ensures UnitsOf(Collapsed(bs[..k] + bs[k + 1..])) == UnitsOf(bs) - {bs[k].unit}
  {
    hide NoMarkers, SingleLines, BlocksOk, UnitsOf, Collapsed;
    var rest := bs[..k] + bs[k + 1..];
    WithoutBlock(bs, k, units);
    CollapsedOk(rest, units);
  }

  lemma WithoutBlock(bs: seq<Block>, k: nat, units: set<string>)
    requires BlocksOk(bs, units) && k < |bs|
    ensures BlocksOk(bs[..k] + bs[k + 1..], units)
    ensures UnitsOf(bs[..k] + bs[k + 1..]) == UnitsOf(bs) - {bs[k].unit}
  {
    hide NoMarkers, SingleLines, UnitOk;
    var rest := bs[..k] + bs[k + 1..];
    assert forall b :: b in rest ==> b in bs;
    OtherUnits(bs, k);
  }

  lemma OtherUnits(bs: seq<Block>, k: nat)
    requires k < |bs| && forall i, j :: 0 <= i < j < |bs| ==> bs[i].unit != bs[j].unit
    ensures UnitsOf(bs[..k] + bs[k + 1..]) == UnitsOf(bs) - {bs[k].unit}
  {
    var rest := bs[..k] + bs[k + 1..];
    assert bs == bs[..k] + [bs[k]] + bs[k + 1..];
    forall u ensures u in UnitsOf(rest) <==> u in UnitsOf(bs) - {bs[k].unit} {
      if u in UnitsOf(rest) {
        var i :| 0 <= i < |rest| && rest[i].unit == u;
        assert rest[i] == bs[if i < k then i else i + 1];
      }
      if u in UnitsOf(bs) && u != bs[k].unit {
        var b :| b in bs && b.unit == u;
        assert b in rest;
      }
    }
  }

  lemma CollapsedOk(bs: seq<Block>, units: set<string>)
    requires BlocksOk(bs, units)
    ensures BlocksOk(Collapsed(bs), units) && UnitsOf(Collapsed(bs)) == UnitsOf(bs)
  {
    hide Collapse, NoMarkers, SingleLines, UnitOk;
    var c := Collapsed(bs);
    forall b | b in c
      ensures b.unit in units && UnitOk(b.unit) && SingleLines(b.body) && NoMarkers(b.body, units)
    {
      var i :| 0 <= i < |c| && c[i] == b;
      assert bs[i] in bs;
      CollapsedBodyOk(bs[i].body, units);
    }
    SameUnits(bs, c);
  }

  lemma SameUnits(bs: seq<Block>, c: seq<Block>)
    requires |c| == |bs| && forall i :: 0 <= i < |bs| ==> c[i].unit == bs[i].unit
    ensures UnitsOf(c) == UnitsOf(bs)
  {
    forall u ensures u in UnitsOf(c) <==> u in UnitsOf(bs) {
      if u in UnitsOf(c) {
        var i :| 0 <= i < |c| && c[i].unit == u;
        assert bs[i] in bs;
      }
      if u in UnitsOf(bs) {
        var i :| 0 <= i < |bs| && bs[i].unit == u;
        assert c[i] in c;
      }
    }
  }

  lemma CollapsedBodyOk(body: seq<string>, units: set<string>)
    requires SingleLines(body) && NoMarkers(body, units)
    ensures SingleLines(Collapse(false, body)) && NoMarkers(Collapse(false, body), units)
  {
    CollapseKeepsMembers(false, body);
  }

  /** One edit on a rendered text: never an error, and a rendered text again. */
  lemma StepRendered(base: seq<string>, lead: bool, bs: seq<Block>, op: Op, units: set<string>)
    returns (lead': bool, bs': seq<Block>)
    requires BaseOk(base, units) && BlocksOk(bs, units) && OpsOk([op], units)
    ensures Apply(Unlines(Rendered(base, lead, bs)), op) == Ok(Unlines(Rendered(base, lead', bs')))
    ensures BlocksOk(bs', units)
    ensures UnitsOf(bs') == if op.AddOp? then UnitsOf(bs) + {op.unit} else UnitsOf(bs) - {op.unit}
  {
    hide Has, Rendered, Unlines, AddLines, BaseOk, Strip, Collapsed;
    assert op in [op];
    var ls := Rendered(base, lead, bs);
    RenderedShows(base, lead, bs, units, op.unit);
    lead', bs' := lead, bs;
    if op.unit in UnitsOf(bs) {
      if op.RemoveOp? {
        var k :| 0 <= k < |bs| && bs[k].unit == op.unit;
        RemoveBlock(base, lead, bs, k, units);
        RemovedBlocksOk(bs, k, units);
        StripIsTidy(Text, ls, op.unit);
        RenderedNotEmpty(base, lead, bs);
        UnlinesEnds(ls);
        lead', bs' := lead || k == 0, Collapsed(bs[..k] + bs[k + 1..]);
        RejoinTerminated(Rendered(base, lead', bs'));
      }
    } else if op.AddOp? {
      lead' := AddBlock(base, lead, bs, Block(op.unit, op.body), units);
      bs' := bs + [Block(op.unit, op.body)];
      AddIsAddLines(Unlines(ls), op.unit, op.body);
    } else {
      AbsentStrip(ls, op.unit);
    }
  }

  lemma AbsentStrip(ls: seq<string>, u: string)
    requires !Has(ls, u)
    ensures Strip(Text, ls, u) == Absent
  {
  }

  lemma {:induction false} RunRendered(base: seq<string>, lead: bool, bs: seq<Block>, ops: seq<Op>, units: set<string>)
    returns (lead': bool, bs': seq<Block>)
    requires BaseOk(base, units) && BlocksOk(bs, units) && OpsOk(ops, units)
    ensures Run(Unlines(Rendered(base, lead, bs)), ops) == Ok(Unlines(Rendered(base, lead', bs')))
    ensures BlocksOk(bs', units) && UnitsOf(bs') == Present(UnitsOf(bs), ops)
    decreases ops
  {
    hide Rendered, Unlines, BaseOk, BlocksOk, UnitsOf, Apply;
    lead', bs' := lead, bs;
    if ops != [] {
      lead', bs' := StepRendered(base, lead, bs, ops[0], units);
      lead', bs' := RunRendered(base, lead', bs', ops[1..], units);
    }
  }

  /**
   Any sequence of adds and removes by several units, on a text that is empty or
   newline-terminated without adjacent or trailing blank lines, never fails; afterwards exactly
   the blocks that were not removed again are there; and once none is left the text is the one
   it started as.
   */
  lemma EditsUndoThemselves(start: string, ops: seq<Op>, units: set<string>)
    requires start == [] || EndsInNewline(start)
    requires IsTidy(Lines(start)) && OpsOk(ops, units) && forall u :: u in units ==> !Has(Lines(start), u)
    ensures Run(start, ops).Ok?
    ensures forall u :: u in units ==> (Has(Lines(Run(start, ops).text), u) <==> u in Present({}, ops))
    ensures Present({}, ops) == {} ==> Run(start, ops) == Ok(start)
  {
    hide Has, Rendered, Unlines, Run, Present, IsTidy, Lines, BlocksOk;
    var base := Lines(start);
    TerminatedText(start);
    LinesAreSingle(start);
    forall u | u in units ensures Free(Text, base, u) {
      HasMeansNotFree(base, u);
    }
    NoBlocks(units);
    BareRendered(base);
    assert UnitsOf([]) == {};
    var lead, bs := RunRendered(base, false, [], ops, units);
    forall u | u in units ensures Has(Lines(Run(start, ops).text), u) <==> u in UnitsOf(bs) {
      RenderedShows(base, lead, bs, units, u);
    }
    if UnitsOf(bs) == {} {
      NoUnitsNoBlocks(bs);
      BareRendered(base);
    }
  }

  lemma BareRendered(base: seq<string>)
    ensures forall lead :: Rendered(base, lead, []) == base
  {
  }
}
