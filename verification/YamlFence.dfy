/** YAML line-comment fences: where a block goes, which keys are synthesised, and what removal undoes. */
module YamlFence {
  import opened TextLines
  import opened Chars
  import opened Fencing

  function FencedText(unit: string, entry: string): string {
    BeginMarker(Yaml, unit) + "\n" + TrimNewlines(entry) + "\n" + EndMarker(Yaml, unit) + "\n"
  }

  /** The lines of an entry without its trailing newlines; an empty entry is one blank line. */
  function BodyLines(entry: string): seq<string> {
    var e := TrimNewlines(entry);
    if e == [] then [[]] else Lines(e)
  }

  function FenceLines(unit: string, entry: string): seq<string> {
    [BeginMarker(Yaml, unit)] + BodyLines(entry) + [EndMarker(Yaml, unit)]
  }

  // ---- where the block goes ----

  function VerbKey(verb: string): string {
    "  " + verb + ":"
  }

  const HOOKS: string := "hooks:"

  /** The first line at or after `from` that is the key, up to trailing white space. */
  function FindKey(ls: seq<string>, key: string, from: nat): (i: nat)
    requires from <= |ls|
    ensures from <= i <= |ls| && (i < |ls| ==> TrimEnd(ls[i]) == key)
    ensures forall j :: from <= j < i ==> TrimEnd(ls[j]) != key
    decreases |ls| - from
  {
    if from == |ls| || TrimEnd(ls[from]) == key then from else FindKey(ls, key, from + 1)
  }

  predicate HookLine(l: string) {
    "  - " <= l || "    " <= l
  }

  /** The end of the run of hook lines and blank lines that starts at `from`. */
  function ListEnd(ls: seq<string>, from: nat): (i: nat)
    requires from <= |ls|
    ensures from <= i <= |ls| && (i < |ls| ==> !HookLine(ls[i]) && ls[i] != [])
    ensures forall j :: from <= j < i ==> HookLine(ls[j]) || ls[j] == []
    decreases |ls| - from
  {
    if from < |ls| && (HookLine(ls[from]) || ls[from] == []) then ListEnd(ls, from + 1) else from
  }

  function BackOverBlanks(ls: seq<string>, low: nat, at: nat): (i: nat)
    requires low <= at <= |ls|
    ensures low <= i <= at && (i > low ==> ls[i - 1] != [])
    ensures forall j :: i <= j < at ==> ls[j] == []
  {
    if at > low && ls[at - 1] == [] then BackOverBlanks(ls, low, at - 1) else at
  }

  function InsertAt(ls: seq<string>, key: nat): (at: nat)
    requires key < |ls|
    ensures key < at <= |ls|
  {
    BackOverBlanks(ls, key + 1, ListEnd(ls, key + 1))
  }

  /** The lines after a block is added: under its key, under a new key, or under new `hooks:`. */
  function AddedLines(ls: seq<string>, verb: string, block: seq<string>): seq<string> {
    var vi := FindKey(ls, VerbKey(verb), 0);
    if vi < |ls| then
      var at := InsertAt(ls, vi);
      ls[..at] + block + ls[at..]
    else
      var hi := FindKey(ls, HOOKS, 0);
      if hi < |ls| then ls[..hi + 1] + [VerbKey(verb)] + block + ls[hi + 1..]
      else (if ls == [] then [[]] else ls) + [HOOKS, VerbKey(verb)] + block
  }

  // ---- the place of a block, told by the lines around it ----

  /** Line `i` is the first one that is the key, up to trailing white space. */
  ghost predicate FirstKey(ls: seq<string>, key: string, i: nat) {
    i < |ls| && TrimEnd(ls[i]) == key && forall j :: 0 <= j < i ==> TrimEnd(ls[j]) != key
  }

  ghost predicate NoKey(ls: seq<string>, key: string) {
    forall l :: l in ls ==> TrimEnd(l) != key
  }

  /**
   Splitting the lines at `at` ends the list under line `key`: behind the key there are only hook lines and
   blank lines, the last line is not blank, and the first line of the rest that is not blank is no hook.
   */
  ghost predicate EndsList(ls: seq<string>, key: nat, at: nat)
    requires key < |ls|
  {
    && key < at <= |ls| && (at > key + 1 ==> ls[at - 1] != [])
    && (forall j :: key < j < at ==> ls[j] == [] || "  - " <= ls[j] || "    " <= ls[j])
    && forall j :: at <= j < |ls| && ls[j] != [] && (forall k :: at <= k < j ==> ls[k] == []) ==>
                     !("  - " <= ls[j]) && !("    " <= ls[j])
  }

  /**
   Where a block goes: at the end of the list under its key; without that key, under a new one right behind
   the first `hooks:` line; without that too, under both at the end of the file.
   */
  ghost predicate Placed(ls: seq<string>, verb: string, block: seq<string>, out: seq<string>) {
    var key := "  " + verb + ":";
    && (forall vi :: FirstKey(ls, key, vi) ==>
          exists at: nat :: EndsList(ls, vi, at) && out == ls[..at] + block + ls[at..])
    && (forall hi :: NoKey(ls, key) && FirstKey(ls, "hooks:", hi) ==>
          out == ls[..hi + 1] + [key] + block + ls[hi + 1..])
    && (NoKey(ls, key) && NoKey(ls, "hooks:") ==>
          out == (if ls == [] then [[]] else ls) + ["hooks:", key] + block)
  }

  lemma InsertEndsList(ls: seq<string>, key: nat)
    requires key < |ls|
    ensures EndsList(ls, key, InsertAt(ls, key))
  {
    var at, end := InsertAt(ls, key), ListEnd(ls, key + 1);
    forall j | at <= j < |ls| && ls[j] != [] && (forall k :: at <= k < j ==> ls[k] == [])
      ensures !("  - " <= ls[j]) && !("    " <= ls[j])
    {
      assert j == end;
    }
  }

  /** A list has only one end. */
  lemma ListEndsOnce(ls: seq<string>, key: nat, at: nat)
    requires key < |ls| && EndsList(ls, key, at)
    ensures at == InsertAt(ls, key)
  {
    InsertEndsList(ls, key);
    var other := InsertAt(ls, key);
    var lo, hi := if at < other then at else other, if at < other then other else at;
    if lo < hi {
      assert ls[hi - 1] != [];
      var j := FirstLine(ls, lo, hi);
    }
  }

  /** The first line that is not blank. */
  lemma FirstLine(ls: seq<string>, low: nat, high: nat) returns (j: nat)
    requires low < high <= |ls| && ls[high - 1] != []
    ensures low <= j < high && ls[j] != [] && forall k :: low <= k < j ==> ls[k] == []
    decreases high - low
  {
    j := low;
    if ls[low] == [] { j := FirstLine(ls, low + 1, high); }
  }

  function Terminated(ls: seq<string>, newline: bool): string {
    Join(ls) + if newline then "\n" else []
  }

  predicate Has(ls: seq<string>, unit: string) {
    FindBegin(Yaml, ls, unit, 0) < |ls|
  }

  function AddText(content: string, unit: string, verb: string, entry: string): string {
    if Has(Lines(content), unit) then content
    else Terminated(AddedLines(Lines(content), verb, FenceLines(unit, entry)), EndsInNewline(content))
  }

  // ---- the code ----

  lemma BodyText(entry: string)
    ensures Join(BodyLines(entry)) == TrimNewlines(entry) && BodyLines(entry) != []
    ensures SingleLines(BodyLines(entry))
  {
    var e := TrimNewlines(entry);
    if e != [] {
      JoinLines(e);
      LinesAreSingle(e);
      assert Join(Lines(e)) + [] == Join(Lines(e));
    }
  }

  lemma FencedIsUnlines(unit: string, entry: string)
    ensures FencedText(unit, entry) == Unlines(FenceLines(unit, entry))
  {
    hide BodyLines, BeginMarker, EndMarker, TrimNewlines;
    var b, body, e := BeginMarker(Yaml, unit), BodyLines(entry), EndMarker(Yaml, unit);
    BodyText(entry);
    UnlinesJoin(body);
    UnlinesConcat([b] + body, [e]);
    UnlinesConcat([b], body);
    OneLine(b);
    OneLine(e);
  }

  lemma OneLine(l: string)
    ensures Unlines([l]) == l + "\n"
  {
  }

  /** Copying the lines one by one. */
  method CopyLines(front: seq<string>, ls: seq<string>) returns (out: seq<string>)
    ensures out == front + ls
  {
    out := front;
    for i := 0 to |ls|
      invariant out == front + ls[..i]
    {
      out := out + [ls[i]];
      assert ls[..i + 1] == ls[..i] + [ls[i]];
    }
    assert ls[..|ls|] == ls;
  }

  method FindInsertAt(ls: seq<string>, vi: nat) returns (insertAt: nat)
    requires vi < |ls|
    ensures insertAt == InsertAt(ls, vi)
  {
    insertAt := |ls|;
    for i := vi + 1 to |ls|
      invariant insertAt == |ls| && ListEnd(ls, vi + 1) == ListEnd(ls, i)
    {
      if HookLine(ls[i]) || ls[i] == [] {
        continue;
      }
      insertAt := i;
      break;
    }
    while insertAt > vi + 1 && ls[insertAt - 1] == []
      invariant vi + 1 <= insertAt <= |ls|
      invariant InsertAt(ls, vi) == BackOverBlanks(ls, vi + 1, insertAt)
    {
      insertAt := insertAt - 1;
    }
  }

  /** The lines pushed once `i` lines are copied, `mid` following line number `hi`. */
  ghost function Copied(lines: seq<string>, hi: nat, mid: seq<string>, i: nat): seq<string>
    requires hi < |lines| && i <= |lines|
  {
    if i <= hi then lines[..i] else lines[..hi + 1] + mid + lines[hi + 1..i]
  }

  method PushAround(lines: seq<string>, hi: nat, key: string, fenced: string, ghost block: seq<string>) returns (s: string)
    requires hi < |lines| && fenced == Unlines(block)
    ensures s == Unlines(lines[..hi + 1] + [key] + block + lines[hi + 1..])
  {
    hide Unlines;
    s := [];
    NoLines();
    assert lines[..0] == [];
    for i := 0 to |lines|
      invariant s == Unlines(Copied(lines, hi, [key] + block, i))
    {
      PushOne(lines, hi, key, block, i);
      s := s + lines[i] + "\n";
      if i == hi {
        s := s + key + "\n" + fenced;
      }
    }
    assert lines[hi + 1..|lines|] == lines[hi + 1..];
    assert lines[..hi + 1] + ([key] + block) + lines[hi + 1..] == lines[..hi + 1] + [key] + block + lines[hi + 1..];
  }

  /** A text with the unit's begin line stays as it is; in any other the fence goes to its place. */
  method Add(content: string, unit: string, verb: string, entry: string) returns (s: string)
    requires '\n' !in unit
    ensures s == AddText(content, unit, verb, entry)
    ensures (exists l :: l in Lines(content) && TrimEnd(l) == TrimEnd("  # >>> specere:begin " + unit)) ==> s == content
    ensures (forall l :: l in Lines(content) ==> TrimEnd(l) != TrimEnd("  # >>> specere:begin " + unit)) && '\n' !in verb ==>
              && EndsInNewline(s) == EndsInNewline(content)
              && Placed(Lines(content), verb,
                        ["  # >>> specere:begin " + unit] + BodyLines(entry) + ["  # <<< specere:end " + unit], Lines(s))
  {
    BeginIsPresent(Lines(content), unit);
    if '\n' !in verb && !Has(Lines(content), unit) {
      AddedIsPlaced(content, unit, verb, entry);
    }
    s := AddLineByLine(content, unit, verb, entry);
  }

  method AddLineByLine(content: string, unit: string, verb: string, entry: string) returns (s: string)
    requires '\n' !in unit
    ensures s == AddText(content, unit, verb, entry)
  {
    hide Has, InsertAt, FindKey, FenceLines, FencedText, Lines, Join, Unlines, BeginMarker, EndMarker, VerbKey, TrimNewlines;
    var lines := Lines(content);
    if Has(lines, unit) {
      return content;
    }
    ghost var block := FenceLines(unit, entry);
    var fenced := FencedText(unit, entry);
    FencedIsUnlines(unit, entry);
    var vi := FindKey(lines, VerbKey(verb), 0);
    if vi < |lines| {
      FenceOfText(unit, entry);
      s := AddUnderKey(lines, vi, Lines(TrimNewlines(fenced)), EndsInNewline(content));
      return;
    }
    var hi := FindKey(lines, HOOKS, 0);
    if hi < |lines| {
      s := PushAround(lines, hi, VerbKey(verb), fenced, block);
    } else {
      s := content;
      if !EndsInNewline(s) {
        s := s + "\n";
      }
      ContentLines(content);
      UnderNewHooks(if lines == [] then [[]] else lines, VerbKey(verb), block);
      s := s + HOOKS + "\n" + VerbKey(verb) + "\n" + fenced;
    }
    PopNewline(AddedLines(lines, verb, block));
    if !EndsInNewline(content) && EndsInNewline(s) {
      s := s[..|s| - 1];
    }
  }

  method AddUnderKey(lines: seq<string>, vi: nat, block: seq<string>, hadNewline: bool) returns (s: string)
    requires vi < |lines|
    ensures s == Terminated(lines[..InsertAt(lines, vi)] + block + lines[InsertAt(lines, vi)..], hadNewline)
  {
    hide InsertAt, Join;
    var insertAt := FindInsertAt(lines, vi);
    var out := CopyLines([], lines[..insertAt]);
    out := CopyLines(out, block);
    out := CopyLines(out, lines[insertAt..]);
    assert out == lines[..insertAt] + block + lines[insertAt..];
    s := Join(out);
    if hadNewline {
      s := s + "\n";
    }
  }

  lemma PushOne(lines: seq<string>, hi: nat, key: string, block: seq<string>, i: nat)
    requires hi < |lines| && i < |lines|
    ensures Unlines(Copied(lines, hi, [key] + block, i + 1))
         == Unlines(Copied(lines, hi, [key] + block, i)) + lines[i] + "\n"
            + if i == hi then key + "\n" + Unlines(block) else []
  {
    hide Unlines;
    var mid := [key] + block;
    Snoc(Copied(lines, hi, mid, i), lines[i]);
    if i < hi {
      assert lines[..i + 1] == lines[..i] + [lines[i]];
    } else if i == hi {
      assert lines[..i + 1] == lines[..i] + [lines[i]];
      assert lines[hi + 1..i + 1] == [];
      assert Copied(lines, hi, mid, i + 1) == lines[..i + 1] + mid;
      UnlinesConcat(lines[..i + 1], mid);
      UnlinesConcat([key], block);
      OneLine(key);
    } else {
      assert Copied(lines, hi, mid, i + 1) == Copied(lines, hi, mid, i) + [lines[i]];
    }
  }

  lemma Snoc(ls: seq<string>, l: string)
    ensures Unlines(ls + [l]) == Unlines(ls) + l + "\n"
  {
    UnlinesConcat(ls, [l]);
    OneLine(l);
    Associate(Unlines(ls), l, "\n");
  }

  lemma ContentLines(content: string)
    ensures (if EndsInNewline(content) then content else content + "\n")
         == Unlines(if Lines(content) == [] then [[]] else Lines(content))
  {
    JoinLines(content);
    LinesAreSingle(content);
    UnlinesJoin(if Lines(content) == [] then [[]] else Lines(content));
  }

  lemma UnderNewHooks(front: seq<string>, key: string, block: seq<string>)
    ensures Unlines(front) + HOOKS + "\n" + key + "\n" + Unlines(block) == Unlines(front + [HOOKS, key] + block)
  {
    hide Unlines;
    Snoc(front, HOOKS);
    Snoc(front + [HOOKS], key);
    UnlinesConcat(front + [HOOKS] + [key], block);
    assert front + [HOOKS, key] + block == front + [HOOKS] + [key] + block;
  }

  lemma PopNewline(ls: seq<string>)
    requires ls != []
    ensures EndsInNewline(Unlines(ls)) && Unlines(ls)[..|Unlines(ls)| - 1] == Join(ls) && Unlines(ls) == Join(ls) + "\n"
  {
    UnlinesJoin(ls);
  }

  lemma MarkerLines(unit: string)
    requires '\n' !in unit
    ensures '\n' !in BeginMarker(Yaml, unit) && '\n' !in EndMarker(Yaml, unit)
    ensures BeginMarker(Yaml, unit) != [] && EndMarker(Yaml, unit) != []
  {
  }

  /** The fence's own text, split again, gives its lines. */
  lemma FenceOfText(unit: string, entry: string)
    requires '\n' !in unit
    ensures Lines(TrimNewlines(FencedText(unit, entry))) == FenceLines(unit, entry)
    ensures SingleLines(FenceLines(unit, entry))
  {
    hide BeginMarker, EndMarker, BodyLines, Unlines, Lines, Join;
    var ls := FenceLines(unit, entry);
    MarkerLines(unit);
    BodyText(entry);
    FencedIsUnlines(unit, entry);
    UnlinesJoin(ls);
    JoinEnd(ls);
    LinesJoin(ls);
    assert FencedText(unit, entry) == Join(ls) + "\n";
    TrimOneNewline(Join(ls));
  }

  lemma TrimOneNewline(s: string)
    requires !EndsInNewline(s)
    ensures TrimNewlines(s + "\n") == s
  {
    assert (s + "\n")[..|s + "\n"| - 1] == s;
  }

  // ---- what an add looks like from outside ----

  /** The two sides of an inserted block: everything before it, and everything after. */
  function Before(ls: seq<string>, verb: string): seq<string> {
    var vi := FindKey(ls, VerbKey(verb), 0);
    if vi < |ls| then ls[..InsertAt(ls, vi)]
    else
      var hi := FindKey(ls, HOOKS, 0);
      if hi < |ls| then ls[..hi + 1] + [VerbKey(verb)]
      else (if ls == [] then [[]] else ls) + [HOOKS, VerbKey(verb)]
  }

  function After(ls: seq<string>, verb: string): seq<string> {
    var vi := FindKey(ls, VerbKey(verb), 0);
    if vi < |ls| then ls[InsertAt(ls, vi)..]
    else
      var hi := FindKey(ls, HOOKS, 0);
      if hi < |ls| then ls[hi + 1..] else []
  }

  lemma AddedAround(ls: seq<string>, verb: string, block: seq<string>)
    ensures AddedLines(ls, verb, block) == Before(ls, verb) + block + After(ls, verb)
    ensures After(ls, verb) != [] ==> ls != [] && After(ls, verb)[|After(ls, verb)| - 1] == ls[|ls| - 1]
  {
    hide InsertAt, FindKey, VerbKey;
    var vi, hi := FindKey(ls, VerbKey(verb), 0), FindKey(ls, HOOKS, 0);
    if vi < |ls| {
      LastOfRest(ls, InsertAt(ls, vi));
    } else if hi < |ls| {
      LastOfRest(ls, hi + 1);
    } else {
      assert After(ls, verb) == [];
      assert Before(ls, verb) + block + [] == Before(ls, verb) + block;
    }
  }

  lemma LastOfRest(ls: seq<string>, at: nat)
    requires at <= |ls|
    ensures ls[at..] != [] ==> ls != [] && ls[at..][|ls[at..]| - 1] == ls[|ls| - 1]
  {
  }

  lemma LastLine(content: string)
    requires content != [] && !EndsInNewline(content)
    ensures Lines(content) != [] && Lines(content)[|Lines(content)| - 1] != []
  {
    var ls := Lines(content);
    LinesAreSingle(content);
    JoinLines(content);
    assert Join(ls) + [] == Join(ls);
    if ls[|ls| - 1] == [] { JoinBlankEnd(ls); }
  }

  lemma {:induction false} JoinBlankEnd(ls: seq<string>)
    requires ls != [] && ls[|ls| - 1] == []
    ensures Join(ls) == [] || EndsInNewline(Join(ls))
    decreases ls
  {
    if |ls| > 1 { JoinBlankEnd(ls[1..]); }
  }

  /** Reading the new text back gives the lines that were put together. */
  lemma LinesOfAdded(content: string, unit: string, verb: string, entry: string)
    requires '\n' !in unit && '\n' !in verb && !Has(Lines(content), unit)
    ensures Lines(AddText(content, unit, verb, entry)) == AddedLines(Lines(content), verb, FenceLines(unit, entry))
    ensures EndsInNewline(AddText(content, unit, verb, entry)) == EndsInNewline(content)
  {
    hide Has, InsertAt, FindKey, FenceLines, BeginMarker, EndMarker, Lines, Join, Unlines, Before, After, AddedLines;
    var ls, block := Lines(content), FenceLines(unit, entry);
    var all := AddedLines(ls, verb, block);
    AddedAround(ls, verb, block);
    FenceOfText(unit, entry);
    FenceEnds(unit, entry);
    LinesAreSingle(content);
    SidesSingle(ls, verb);
    assert SingleLines(all);
    if EndsInNewline(content) {
      UnlinesJoin(all);
      LinesUnlines(all);
    } else {
      if content != [] { LastLine(content); } else { EmptyContent(); }
      assert all[|all| - 1] == if After(ls, verb) == [] then block[|block| - 1] else ls[|ls| - 1];
      LinesJoin(all);
      JoinEnd(all);
      assert Join(all) + [] == Join(all);
    }
  }

  lemma BeginIsPresent(ls: seq<string>, unit: string)
    ensures Has(ls, unit) <==> exists l :: l in ls && TrimEnd(l) == TrimEnd("  # >>> specere:begin " + unit)
  {
    hide TrimEnd;
    assert BeginMarker(Yaml, unit) == "  # >>> specere:begin " + unit;
    if Has(ls, unit) { assert ls[FindBegin(Yaml, ls, unit, 0)] in ls; }
  }

  lemma AddedIsPlaced(content: string, unit: string, verb: string, entry: string)
    requires '\n' !in unit && '\n' !in verb && !Has(Lines(content), unit)
    ensures Placed(Lines(content), verb,
                   ["  # >>> specere:begin " + unit] + BodyLines(entry) + ["  # <<< specere:end " + unit],
                   Lines(AddText(content, unit, verb, entry)))
    ensures EndsInNewline(AddText(content, unit, verb, entry)) == EndsInNewline(content)
  {
    hide Has, Lines, BodyLines, AddText, AddedLines, Placed;
    LinesOfAdded(content, unit, verb, entry);
    LinesArePlaced(Lines(content), verb, FenceLines(unit, entry));
  }

  lemma LinesArePlaced(ls: seq<string>, verb: string, block: seq<string>)
    ensures Placed(ls, verb, block, AddedLines(ls, verb, block))
  {
    hide InsertAt, FindKey, TrimEnd;
    var key, out := VerbKey(verb), AddedLines(ls, verb, block);
    forall vi | FirstKey(ls, key, vi) ensures exists at: nat :: EndsList(ls, vi, at) && out == ls[..at] + block + ls[at..] {
      assert FindKey(ls, key, 0) == vi;
      InsertEndsList(ls, vi);
    }
    assert forall j :: 0 <= j < |ls| ==> ls[j] in ls;
  }

  lemma EmptyContent()
    ensures Lines([]) == []
  {
  }

  lemma FenceEnds(unit: string, entry: string)
    ensures FenceLines(unit, entry) != [] && FenceLines(unit, entry)[0] == BeginMarker(Yaml, unit)
    ensures FenceLines(unit, entry)[|FenceLines(unit, entry)| - 1] == EndMarker(Yaml, unit)
    ensures BeginMarker(Yaml, unit) != [] && EndMarker(Yaml, unit) != []
  {
  }

  lemma SidesSingle(ls: seq<string>, verb: string)
    requires SingleLines(ls) && '\n' !in verb
    ensures SingleLines(Before(ls, verb)) && SingleLines(After(ls, verb))
  {
    hide InsertAt, FindKey;
    assert '\n' !in VerbKey(verb) && '\n' !in HOOKS;
  }

  /** Adding twice is adding once. */
  lemma AddIsIdempotent(content: string, unit: string, verb: string, entry: string)
    requires '\n' !in unit && '\n' !in verb
    ensures Has(Lines(AddText(content, unit, verb, entry)), unit)
    ensures AddText(AddText(content, unit, verb, entry), unit, verb, entry) == AddText(content, unit, verb, entry)
  {
    hide FenceLines, BeginMarker, EndMarker, Lines, Before, After, FindBegin, Terminated, AddedLines;
    var ls, block := Lines(content), FenceLines(unit, entry);
    if !Has(ls, unit) {
      LinesOfAdded(content, unit, verb, entry);
      AddedAround(ls, verb, block);
      FenceEnds(unit, entry);
      BeginIsFound(Before(ls, verb), block, After(ls, verb), unit);
    }
  }

  lemma BeginIsFound(p: seq<string>, block: seq<string>, s: seq<string>, unit: string)
    requires block != [] && block[0] == BeginMarker(Yaml, unit)
    ensures Has(p + block + s, unit)
  {
    hide BeginMarker, Key;
    assert (p + block + s)[|p|] == block[0];
  }

  // ---- adding, then removing ----

  /** The entry does not close the fence, and the key line does not open it. */
  predicate EntryOk(unit: string, verb: string, entry: string) {
    && '\n' !in unit && '\n' !in verb && !IsBegin(Yaml, VerbKey(verb), unit)
    && forall l :: l in BodyLines(entry) ==> !IsEnd(Yaml, l, unit)
  }

  lemma FenceIsFence(unit: string, verb: string, entry: string)
    requires EntryOk(unit, verb, entry)
    ensures IsFence(Yaml, FenceLines(unit, entry), unit)
  {
    hide BodyLines, IsBegin, IsEnd, BeginMarker, EndMarker;
    var f := FenceLines(unit, entry);
    MarkersThemselves(unit);
    forall i | 0 < i < |f| - 1 ensures !IsEnd(Yaml, f[i], unit) {
      assert f[i] == BodyLines(entry)[i - 1] && f[i] in BodyLines(entry);
    }
  }

  lemma MarkersThemselves(unit: string)
    ensures IsBegin(Yaml, BeginMarker(Yaml, unit), unit) && IsEnd(Yaml, EndMarker(Yaml, unit), unit)
  {
  }

  lemma TrimmedMarkers(unit: string)
    ensures "  # >>>" <= TrimEnd(BeginMarker(Yaml, unit)) && "  # <<<" <= TrimEnd(EndMarker(Yaml, unit))
  {
    TrimEndKeepsPrefix("  # >>>", BeginMarker(Yaml, unit));
    TrimEndKeepsPrefix("  # <<<", EndMarker(Yaml, unit));
  }

  lemma HooksIsNoMarker(unit: string)
    ensures !IsBegin(Yaml, HOOKS, unit) && !IsBegin(Yaml, [], unit)
  {
    TrimmedMarkers(unit);
    assert TrimEnd(HOOKS) <= HOOKS;
  }

  lemma BeforeIsFree(ls: seq<string>, unit: string, verb: string)
    requires !Has(ls, unit) && !IsBegin(Yaml, VerbKey(verb), unit)
    ensures Free(Yaml, Before(ls, verb), unit)
  {
    hide InsertAt, FindKey, IsBegin, VerbKey;
    HooksIsNoMarker(unit);
    assert Free(Yaml, ls, unit) by { AbsentIsFree(ls, unit); }
    forall l | l in Before(ls, verb) ensures !IsBegin(Yaml, l, unit) {
      assert l in ls || l == VerbKey(verb) || l == HOOKS || l == [];
    }
  }

  lemma AbsentIsFree(ls: seq<string>, unit: string)
    requires !Has(ls, unit)
    ensures Free(Yaml, ls, unit)
  {
    hide IsBegin;
  }

  /** Removing an added block leaves the tidied rest, any synthesised key included. */
  lemma RemoveAdded(content: string, unit: string, verb: string, entry: string)
    requires EntryOk(unit, verb, entry) && !Has(Lines(content), unit)
    ensures var rest := Tidied(Before(Lines(content), verb) + After(Lines(content), verb));
      && RemoveText(Yaml, AddText(content, unit, verb, entry), unit) == Ok(Rejoin(rest, EndsInNewline(content)))
      && Lines(Rejoin(rest, EndsInNewline(content))) == rest
  {
    hide Has, IsBegin, IsFence, Free, FenceLines, Lines, Before, After, Strip, Tidied, AddText, AddedLines, Rejoin, IsTidy;
    var ls, block := Lines(content), FenceLines(unit, entry);
    var p, s := Before(ls, verb), After(ls, verb);
    LinesOfAdded(content, unit, verb, entry);
    AddedAround(ls, verb, block);
    FenceIsFence(unit, verb, entry);
    BeforeIsFree(ls, unit, verb);
    StripFence(Yaml, p, block, s, unit);
    LinesAreSingle(content);
    SidesSingle(ls, verb);
    TidiedIsTidy(p + s);
    TidiedSingle(p + s);
    LinesRejoin(Tidied(p + s), EndsInNewline(content));
  }

  /**
   Adding a block and removing it again gives back the text exactly when the hook key was there
   already and the text has no adjacent or trailing blank lines; a key that `add` had to
   synthesise is not taken away by `remove`.
   */
  lemma RoundTripExactly(content: string, unit: string, verb: string, entry: string)
    requires EntryOk(unit, verb, entry) && !Has(Lines(content), unit)
    ensures RemoveText(Yaml, AddText(content, unit, verb, entry), unit) == Ok(content)
       <==> FindKey(Lines(content), VerbKey(verb), 0) < |Lines(content)| && IsTidy(Lines(content))
  {
    hide EntryOk, Has, Lines, Before, After, Tidied, AddText, RemoveText, Rejoin, IsTidy, FindKey, NonBlank, VerbKey;
    var ls := Lines(content);
    var rest := Before(ls, verb) + After(ls, verb);
    RemoveAdded(content, unit, verb, entry);
    TidiedIsTidy(rest);
    TidiedNonBlank(rest);
    RestNonBlank(ls, verb);
    if FindKey(ls, VerbKey(verb), 0) < |ls| {
      RejoinTidy(content);
    }
  }

  /** A file with nothing but `hooks:` comes back with the key that was put in. */
  lemma SynthesisedKeyIsLeft()
    ensures var content := Unlines([HOOKS]);
      RemoveText(Yaml, AddText(content, "u", "after_plan", "  - x"), "u") == Ok(Unlines([HOOKS, VerbKey("after_plan")])) != Ok(content)
  {
    hide AddText, RemoveText, Unlines, Lines, EntryOk, Has, Before, After, Rejoin;
    var ls := [HOOKS];
    PlainWords();
    LinesUnlines(ls);
    NoBlockInHooks();
    RemoveAdded(Unlines(ls), "u", "after_plan", "  - x");
    SidesOfHooks();
    var rest := [HOOKS, VerbKey("after_plan")];
    TidiedIsTidy(rest);
    RejoinTerminated(rest);
    UnlinesEnds(ls);
    LinesUnlines(rest);
  }

  lemma PlainWords()
    ensures EntryOk("u", "after_plan", "  - x") && SingleLines([HOOKS, VerbKey("after_plan")])
  {
    assert '\n' !in "u" && '\n' !in "after_plan" && '\n' !in "  - x" && '\n' !in HOOKS;
    TrimmedMarkers("u");
    assert VerbKey("after_plan")[2] == 'a';
    TrimEndFixed(VerbKey("after_plan"));
    LinesOfLast("  - x");
    TrimEndFixed("  - x");
    assert TrimEnd(EndMarker(Yaml, "u"))[2] == '#' && "  - x"[2] == '-';
    assert TrimEnd(BeginMarker(Yaml, "u"))[2] == '#';
  }

  lemma NoBlockInHooks()
    ensures !Has([HOOKS], "u")
  {
    HooksIsNoMarker("u");
  }

  lemma SidesOfHooks()
    ensures Before([HOOKS], "after_plan") + After([HOOKS], "after_plan") == [HOOKS, VerbKey("after_plan")]
  {
    TrimEndFixed(HOOKS);
    assert HOOKS[0] == 'h' && VerbKey("after_plan")[0] == ' ';
    assert FindKey([HOOKS], VerbKey("after_plan"), 0) == 1 && FindKey([HOOKS], HOOKS, 0) == 0;
  }

  lemma RejoinTidy(content: string)
    ensures IsTidy(Lines(content)) ==> Rejoin(Lines(content), EndsInNewline(content)) == content
  {
    JoinLines(content);
    if IsTidy(Lines(content)) {
      JoinEmpty(Lines(content));
      LinesAreSingle(content);
      assert content == [] ==> Lines(content) == [];
    }
  }

  /** Without the key, one more non-blank line stays behind. */
  lemma RestNonBlank(ls: seq<string>, verb: string)
    ensures FindKey(ls, VerbKey(verb), 0) < |ls| ==> Before(ls, verb) + After(ls, verb) == ls
    ensures FindKey(ls, VerbKey(verb), 0) == |ls| ==> |NonBlank(Before(ls, verb) + After(ls, verb))| > |NonBlank(ls)|
  {
    hide InsertAt, FindKey, NonBlank;
    var vi, hi := FindKey(ls, VerbKey(verb), 0), FindKey(ls, HOOKS, 0);
    if vi < |ls| {
      assert ls == ls[..InsertAt(ls, vi)] + ls[InsertAt(ls, vi)..];
    } else if hi < |ls| {
      hide VerbKey;
      VerbKeyIsLine(verb);
      ExtraLine(ls[..hi + 1], VerbKey(verb), ls[hi + 1..]);
      assert ls == ls[..hi + 1] + ls[hi + 1..];
    } else {
      NewHooks(ls, verb);
    }
  }

  lemma VerbKeyIsLine(verb: string)
    ensures VerbKey(verb) != []
  {
  }

  lemma NewHooks(ls: seq<string>, verb: string)
    ensures var front := if ls == [] then [[]] else ls;
            |NonBlank(front + [HOOKS, VerbKey(verb)] + [])| > |NonBlank(ls)|
  {
    hide NonBlank, VerbKey;
    var front := if ls == [] then [[]] else ls;
    VerbKeyIsLine(verb);
    ExtraLine(front, HOOKS, []);
    ExtraLine(front + [HOOKS], VerbKey(verb), []);
    assert front + [HOOKS, VerbKey(verb)] + [] == front + [HOOKS] + [VerbKey(verb)] + [];
    assert front + [HOOKS] + [] == front + [HOOKS] && front + [] == front;
    NoNonBlank();
  }

  lemma NoNonBlank()
    ensures NonBlank([]) == []
  {
  }

  lemma ExtraLine(a: seq<string>, l: string, b: seq<string>)
    requires l != []
    ensures |NonBlank(a + [l] + b)| == |NonBlank(a + b)| + 1
  {
    NonBlankConcat(a + [l], b);
    NonBlankConcat(a, [l]);
    NonBlankConcat(a, b);
    assert [l][1..] == [] && NonBlank([l]) == [l];
  }
}
