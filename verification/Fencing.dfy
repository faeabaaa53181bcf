/**
 Marker fences in a list of lines, in the two styles of the code: exact marker lines in plain
 text, marker lines up to trailing white space in YAML. Removal is the same in both.
 */
module Fencing {
  import opened TextLines
  import opened Chars

  datatype Style = Text | Yaml
  datatype FenceResult = Ok(text: string) | Unpaired(unit: string)
  datatype Stripped = Absent | Broken | Cut(lines: seq<string>)

  function BeginMarker(style: Style, unit: string): string {
    if style.Text? then "# <!-- specere:begin " + unit + " -->" else "  # >>> specere:begin " + unit
  }

  function EndMarker(style: Style, unit: string): string {
    if style.Text? then "# <!-- specere:end " + unit + " -->" else "  # <<< specere:end " + unit
  }

  /** What a line is compared by. */
  function Key(style: Style, l: string): string {
    if style.Text? then l else TrimEnd(l)
  }

  predicate IsBegin(style: Style, l: string, unit: string) {
    Key(style, l) == Key(style, BeginMarker(style, unit))
  }

  predicate IsEnd(style: Style, l: string, unit: string) {
    Key(style, l) == Key(style, EndMarker(style, unit))
  }

  /** The first begin line at or after `from`, or the number of lines. */
  function FindBegin(style: Style, ls: seq<string>, unit: string, from: nat): (i: nat)
    requires from <= |ls|
    ensures from <= i <= |ls| && (i < |ls| ==> IsBegin(style, ls[i], unit))
    ensures forall j :: from <= j < i ==> !IsBegin(style, ls[j], unit)
    decreases |ls| - from
  {
    if from == |ls| || IsBegin(style, ls[from], unit) then from else FindBegin(style, ls, unit, from + 1)
  }

  function FindEnd(style: Style, ls: seq<string>, unit: string, from: nat): (i: nat)
    requires from <= |ls|
    ensures from <= i <= |ls| && (i < |ls| ==> IsEnd(style, ls[i], unit))
    ensures forall j :: from <= j < i ==> !IsEnd(style, ls[j], unit)
    decreases |ls| - from
  {
    if from == |ls| || IsEnd(style, ls[from], unit) then from else FindEnd(style, ls, unit, from + 1)
  }

  function Strip(style: Style, ls: seq<string>, unit: string): Stripped {
    var b := FindBegin(style, ls, unit, 0);
    if b == |ls| then Absent
    else
      var e := FindEnd(style, ls, unit, b + 1);
      if e == |ls| then Broken else Cut(Tidied(ls[..b] + ls[e + 1..]))
  }

  /** Text from tidied lines, its final newline kept if there was one. */
  function Rejoin(ls: seq<string>, newline: bool): string {
    Join(ls) + if Join(ls) != [] && newline then "\n" else []
  }

  function RemoveText(style: Style, content: string, unit: string): FenceResult {
    match Strip(style, Lines(content), unit)
    case Absent => Ok(content)
    case Broken => Unpaired(unit)
    case Cut(ls) => Ok(Rejoin(ls, EndsInNewline(content)))
  }

  /** What tells a marker line: the exact text in plain files, the text up to trailing white space in YAML. */
  lemma MarkersExactly(l: string, unit: string)
    ensures IsBegin(Text, l, unit) <==> l == "# <!-- specere:begin " + unit + " -->"
    ensures IsEnd(Text, l, unit) <==> l == "# <!-- specere:end " + unit + " -->"
    ensures IsBegin(Yaml, l, unit) <==> TrimEnd(l) == TrimEnd("  # >>> specere:begin " + unit)
    ensures IsEnd(Yaml, l, unit) <==> TrimEnd(l) == TrimEnd("  # <<< specere:end " + unit)
  {
    hide TrimEnd;
  }

  /** Line `b` is the first begin line. */
  ghost predicate Begins(style: Style, ls: seq<string>, unit: string, b: nat) {
    b < |ls| && IsBegin(style, ls[b], unit) && forall i :: 0 <= i < b ==> !IsBegin(style, ls[i], unit)
  }

  /** Line `e` is the first end line behind line `b`. */
  ghost predicate Ends(style: Style, ls: seq<string>, unit: string, b: nat, e: nat) {
    b < e < |ls| && IsEnd(style, ls[e], unit) && forall i :: b < i < e ==> !IsEnd(style, ls[i], unit)
  }

  /**
   The removal both fence styles share, with its tidying loops. Without a begin line nothing happens, a begin
   line without an end line behind it is an error, and otherwise everything from the first begin line to the
   first end line behind it goes, and the rest is tidied.
   */
  method Remove(style: Style, content: string, unit: string) returns (r: FenceResult)
    ensures r == RemoveText(style, content, unit)
    ensures (forall l :: l in Lines(content) ==> !IsBegin(style, l, unit)) ==> r == Ok(content)
    ensures forall b: nat :: Begins(style, Lines(content), unit, b) ==>
              && ((forall i :: b < i < |Lines(content)| ==> !IsEnd(style, Lines(content)[i], unit)) ==> r == Unpaired(unit))
              && forall e: nat :: Ends(style, Lines(content), unit, b, e) ==>
                   r == Ok(Rejoin(Tidied(Lines(content)[..b] + Lines(content)[e + 1..]), EndsInNewline(content)))
  {
    hide IsBegin, IsEnd, Tidied, Join, FindBegin, FindEnd, Rejoin, EndsInNewline;
    RemovalOutcomes(style, content, unit);
    r := RemoveLines(style, content, unit);
  }

  lemma RemovalOutcomes(style: Style, content: string, unit: string)
    ensures (forall l :: l in Lines(content) ==> !IsBegin(style, l, unit)) ==> RemoveText(style, content, unit) == Ok(content)
    ensures forall b: nat :: Begins(style, Lines(content), unit, b) ==>
              && ((forall i :: b < i < |Lines(content)| ==> !IsEnd(style, Lines(content)[i], unit)) ==>
                    RemoveText(style, content, unit) == Unpaired(unit))
              && forall e: nat :: Ends(style, Lines(content), unit, b, e) ==>
                   RemoveText(style, content, unit)
                   == Ok(Rejoin(Tidied(Lines(content)[..b] + Lines(content)[e + 1..]), EndsInNewline(content)))
  {
    hide IsBegin, IsEnd, Tidied, Join, FindBegin, FindEnd, Rejoin, EndsInNewline, Lines;
    var ls := Lines(content);
    var b := FindBegin(style, ls, unit, 0);
    if b < |ls| {
      assert ls[b] in ls;
      var e := FindEnd(style, ls, unit, b + 1);
      assert forall x: nat :: Begins(style, ls, unit, x) ==> x == b;
      assert forall x: nat :: Ends(style, ls, unit, b, x) ==> x == e;
      assert (forall i :: b < i < |ls| ==> !IsEnd(style, ls[i], unit)) <==> e == |ls|;
    }
  }

  method RemoveLines(style: Style, content: string, unit: string) returns (r: FenceResult)
    ensures r == RemoveText(style, content, unit)
  {
    hide IsBegin, IsEnd, Tidied, Join, FindBegin, FindEnd;
    var lines := Lines(content);
    var b := FindBegin(style, lines, unit, 0);
    if b == |lines| {
      return Ok(content);
    }
    var e := FindEnd(style, lines, unit, b + 1);
    if e == |lines| {
      return Unpaired(unit);
    }
    var collapsed := Tidy(lines[..b] + lines[e + 1..]);
    var s := Join(collapsed);
    if s != [] && EndsInNewline(content) {
      s := s + "\n";
    }
    r := Ok(s);
  }

  // ---- fences inside a text ----

  /** No line of `ls` opens a fence of `unit`. */
  ghost predicate Free(style: Style, ls: seq<string>, unit: string) {
    forall l :: l in ls ==> !IsBegin(style, l, unit)
  }

  /** A begin line, lines that do not end the fence, and an end line. */
  ghost predicate IsFence(style: Style, f: seq<string>, unit: string) {
    && |f| >= 2 && IsBegin(style, f[0], unit) && IsEnd(style, f[|f| - 1], unit)
    && (forall i :: 0 < i < |f| - 1 ==> !IsEnd(style, f[i], unit))
  }

  lemma {:induction false} TrimEndFixed(s: string)
    requires s != [] && !IsSpace(s[|s| - 1])
    ensures TrimEnd(s) == s
  {
  }

  lemma {:induction false} TrimEndKeepsPrefix(p: string, s: string)
    requires p <= s && p != [] && !IsSpace(p[|p| - 1])
    ensures p <= TrimEnd(s)
    decreases s
  {
    if IsSpace(s[|s| - 1]) {
      assert |p| < |s|;
      TrimEndKeepsPrefix(p, s[..|s| - 1]);
    }
  }

  lemma MarkersNotBlank(style: Style, l: string, unit: string)
    requires IsBegin(style, l, unit) || IsEnd(style, l, unit)
    ensures l != []
  {
    if style.Yaml? {
      TrimEndKeepsPrefix("  # >>>", BeginMarker(style, unit));
      TrimEndKeepsPrefix("  # <<<", EndMarker(style, unit));
    }
  }

  lemma FindAt(style: Style, p: seq<string>, f: seq<string>, s: seq<string>, unit: string)
    requires Free(style, p, unit) && IsFence(style, f, unit)
    ensures FindBegin(style, p + f + s, unit, 0) == |p|
    ensures FindEnd(style, p + f + s, unit, |p| + 1) == |p| + |f| - 1
  {
    var ls := p + f + s;
    assert ls[|p|] == f[0];
    assert ls[|p| + |f| - 1] == f[|f| - 1];
  }

  lemma FenceLength(style: Style, f: seq<string>, unit: string)
    requires IsFence(style, f, unit)
    ensures |f| >= 2
  {
  }

  /** Removing the first fence of a unit tidies what is around it. */
  lemma StripFence(style: Style, p: seq<string>, f: seq<string>, s: seq<string>, unit: string)
    requires Free(style, p, unit) && IsFence(style, f, unit)
    ensures Strip(style, p + f + s, unit) == Cut(Tidied(p + s))
  {
    hide IsBegin, IsEnd, IsFence, Free, FindBegin, FindEnd, Tidied;
    FindAt(style, p, f, s, unit);
    FenceLength(style, f, unit);
    var ls := p + f + s;
    assert ls[..|p|] == p && ls[|p| + |f|..] == s;
  }

  lemma {:induction false} CollapseKeepsMembers(prev: bool, ls: seq<string>)
    ensures forall l :: l in Collapse(prev, ls) ==> l in ls
    decreases ls
  {
    if ls != [] {
      CollapseKeepsMembers(ls[0] == [], ls[1..]);
      if ls[0] == [] && prev { CollapseKeepsMembers(true, ls[1..]); }
    }
  }

  /** Collapsing the blanks inside a fence leaves a fence. */
  lemma CollapsedFence(style: Style, f: seq<string>, unit: string)
    requires IsFence(style, f, unit)
    ensures IsFence(style, Collapse(false, f), unit)
    ensures forall prev :: Collapse(prev, f) == Collapse(false, f)
    ensures !EndBlank(false, f)
  {
    hide IsBegin, IsEnd;
    MarkersNotBlank(style, f[0], unit);
    MarkersNotBlank(style, f[|f| - 1], unit);
    var first, body, last := f[0], f[1..|f| - 1], f[|f| - 1];
    assert f == [first] + (body + [last]);
    FenceCollapse(first, body, last);
    CollapseKeepsMembers(false, body);
    var c := Collapse(false, body);
    forall i | 0 < i < |c| + 1 ensures !IsEnd(style, ([first] + (c + [last]))[i], unit) {
      assert ([first] + (c + [last]))[i] == c[i - 1];
      assert c[i - 1] in body;
    }
  }

  lemma FenceCollapse(first: string, body: seq<string>, last: string)
    requires first != [] && last != []
    ensures forall prev :: Collapse(prev, [first] + (body + [last])) == [first] + (Collapse(false, body) + [last])
  {
    CollapseConcat(false, body, [last]);
    forall prev ensures Collapse(prev, [first] + (body + [last])) == [first] + (Collapse(false, body) + [last]) {
      assert ([first] + (body + [last]))[1..] == body + [last];
    }
  }

  /** Tidying a text around a fence works on the two sides separately. */
  lemma TidiedAround(style: Style, p: seq<string>, f: seq<string>, s: seq<string>, unit: string)
    requires IsFence(style, f, unit)
    ensures Tidied(p + f + s) == Collapse(false, p) + Collapse(false, f) + Tidied(s)
  {
    hide IsBegin, IsEnd, Collapse, TrimBlanks;
    CollapsedFence(style, f, unit);
    CollapseConcat(false, p + f, s);
    CollapseConcat(false, p, f);
    assert EndBlank(false, p + f) == EndBlank(false, f);
    TrimAfterFence(style, Collapse(false, p), Collapse(false, f), Collapse(false, s), unit);
  }

  lemma TrimAfterFence(style: Style, p: seq<string>, f: seq<string>, s: seq<string>, unit: string)
    requires IsFence(style, f, unit)
    ensures TrimBlanks(p + f + s) == p + f + TrimBlanks(s)
  {
    hide IsBegin, IsEnd;
    MarkersNotBlank(style, f[|f| - 1], unit);
    TrimConcat(p + f, s);
    assert (p + f)[|p + f| - 1] == f[|f| - 1];
    assert TrimBlanks(p + f) == p + f;
    assert TrimBlanks(s) == [] ==> p + f + TrimBlanks(s) == p + f;
  }

  /** Tidying before a fence is cut out makes no difference. */
  lemma StripTidied(style: Style, p: seq<string>, f: seq<string>, s: seq<string>, unit: string)
    requires Free(style, p, unit) && IsFence(style, f, unit)
    ensures Strip(style, Tidied(p + f + s), unit) == Cut(Tidied(p + s))
  {
    hide IsBegin, IsEnd, IsFence, Strip, Collapse, Tidied;
    TidiedAround(style, p, f, s, unit);
    CollapseKeepsMembers(false, p);
    CollapsedFence(style, f, unit);
    StripFence(style, Collapse(false, p), Collapse(false, f), Tidied(s), unit);
    TidiedAbsorbs(p, s);
  }

  lemma TidiedMembers(ls: seq<string>)
    ensures forall l :: l in Tidied(ls) ==> l in ls
  {
    CollapseKeepsMembers(false, ls);
    TrimShape(Collapse(false, ls));
  }

  /** Removing the first of two fences, then the second. */
  lemma StripThenLater(style: Style, p: seq<string>, fu: seq<string>, m: seq<string>, fv: seq<string>, s: seq<string>,
                       u: string, v: string)
    requires IsFence(style, fu, u) && IsFence(style, fv, v)
    requires Free(style, p, u) && Free(style, p, v) && Free(style, m, v)
    ensures Strip(style, p + fu + (m + fv + s), u) == Cut(Collapse(false, p + m) + Collapse(false, fv) + Tidied(s))
    ensures Strip(style, Collapse(false, p + m) + Collapse(false, fv) + Tidied(s), v) == Cut(Tidied(p + m + s))
  {
    hide IsBegin, IsEnd, IsFence, Strip, Collapse, Tidied;
    StripFence(style, p, fu, m + fv + s, u);
    assert p + (m + fv + s) == (p + m) + fv + s;
    TidiedAround(style, p + m, fv, s, v);
    CollapseKeepsMembers(false, p + m);
    CollapsedFence(style, fv, v);
    StripFence(style, Collapse(false, p + m), Collapse(false, fv), Tidied(s), v);
    TidiedAbsorbs(p + m, s);
  }

  /** Removing the second of two fences, then the first. */
  lemma StripThenEarlier(style: Style, p: seq<string>, fu: seq<string>, m: seq<string>, fv: seq<string>, s: seq<string>,
                         u: string, v: string)
    requires IsFence(style, fu, u) && IsFence(style, fv, v)
    requires Free(style, p, u) && Free(style, p + fu + m, v)
    ensures Strip(style, p + fu + m + fv + s, v) == Cut(Collapse(false, p) + Collapse(false, fu) + Tidied(m + s))
    ensures Strip(style, Collapse(false, p) + Collapse(false, fu) + Tidied(m + s), u) == Cut(Tidied(p + m + s))
  {
    hide IsBegin, IsEnd, IsFence, Strip, Collapse, Tidied;
    StripFence(style, p + fu + m, fv, s, v);
    assert p + fu + m + s == p + fu + (m + s);
    TidiedAround(style, p, fu, m + s, u);
    CollapseKeepsMembers(false, p);
    CollapsedFence(style, fu, u);
    StripFence(style, Collapse(false, p), Collapse(false, fu), Tidied(m + s), u);
    TidiedAbsorbs(p, m + s);
    assert p + (m + s) == p + m + s;
  }

  /**
   Two fences, the first entirely before the second: removing them in either order gives the
   tidied rest of the text, whatever that rest is.
   */
  lemma StripsCommute(style: Style, p: seq<string>, fu: seq<string>, m: seq<string>, fv: seq<string>, s: seq<string>,
                      u: string, v: string)
    requires IsFence(style, fu, u) && IsFence(style, fv, v)
    requires Free(style, p, u) && Free(style, p + fu + m, v)
    ensures var ls := p + fu + m + fv + s;
      && Strip(style, ls, u).Cut? && Strip(style, ls, v).Cut?
      && Strip(style, Strip(style, ls, u).lines, v) == Cut(Tidied(p + m + s))
      && Strip(style, Strip(style, ls, v).lines, u) == Cut(Tidied(p + m + s))
  {
    hide IsBegin, IsEnd, IsFence, Strip, Collapse, Tidied;
    assert forall l :: l in p || l in m ==> l in p + fu + m;
    StripThenLater(style, p, fu, m, fv, s, u, v);
    StripThenEarlier(style, p, fu, m, fv, s, u, v);
    assert p + fu + m + fv + s == p + fu + (m + fv + s);
  }

  // ---- from lines back to text ----

  lemma {:induction false} JoinEmpty(ls: seq<string>)
    requires IsTidy(ls)
    ensures Join(ls) == [] <==> ls == []
  {
    if |ls| > 1 {
      assert |Join(ls)| >= |ls[0]| + 1;
    }
  }

  lemma RejoinTerminated(ls: seq<string>)
    requires IsTidy(ls)
    ensures Rejoin(ls, true) == Unlines(ls)
  {
    JoinEmpty(ls);
    if ls != [] { UnlinesJoin(ls); }
  }

  lemma StripIsTidy(style: Style, ls: seq<string>, unit: string)
    requires Strip(style, ls, unit).Cut?
    ensures IsTidy(Strip(style, ls, unit).lines)
  {
    hide IsBegin, IsEnd, FindBegin, FindEnd, Tidied, IsTidy;
    var b := FindBegin(style, ls, unit, 0);
    var e := FindEnd(style, ls, unit, b + 1);
    TidiedIsTidy(ls[..b] + ls[e + 1..]);
  }

  lemma TidiedSingle(ls: seq<string>)
    requires SingleLines(ls)
    ensures SingleLines(Tidied(ls))
  {
    CollapseKeepsMembers(false, ls);
    TrimShape(Collapse(false, ls));
  }

  /** Tidy lines come back from their text, with or without its final newline. */
  lemma LinesRejoin(ls: seq<string>, newline: bool)
    requires IsTidy(ls) && SingleLines(ls)
    ensures Lines(Rejoin(ls, newline)) == ls
    ensures ls != [] ==> EndsInNewline(Rejoin(ls, newline)) == newline
  {
    JoinEmpty(ls);
    if ls != [] {
      LinesJoin(ls);
      JoinEnd(ls);
      if newline {
        UnlinesJoin(ls);
        LinesUnlines(ls);
      } else {
        assert Join(ls) + [] == Join(ls);
      }
    }
  }

  /**
   On texts: two fences, the first entirely before the second, are removed in either order with
   the same result, which keeps every other line that is not blank.
   */
  lemma RemovalsCommute(style: Style, content: string, p: seq<string>, fu: seq<string>, m: seq<string>, fv: seq<string>,
                        s: seq<string>, u: string, v: string)
    requires Lines(content) == p + fu + m + fv + s
    requires IsFence(style, fu, u) && IsFence(style, fv, v)
    requires Free(style, p, u) && Free(style, p + fu + m, v)
    ensures RemoveText(style, content, u).Ok? && RemoveText(style, content, v).Ok?
    ensures var done := Ok(Rejoin(Tidied(p + m + s), EndsInNewline(content)));
      && RemoveText(style, RemoveText(style, content, u).text, v) == done
      && RemoveText(style, RemoveText(style, content, v).text, u) == done
    ensures NonBlank(Tidied(p + m + s)) == NonBlank(p) + NonBlank(m) + NonBlank(s)
  {
    hide IsBegin, IsEnd, IsFence, Free, Strip, Tidied, Lines, Rejoin, SingleLines, IsTidy;
    var ls := Lines(content);
    StripsCommute(style, p, fu, m, fv, s, u, v);
    LinesAreSingle(content);
    AfterStrip(style, content, u);
    AfterStrip(style, content, v);
    TidiedNonBlank(p + m + s);
    NonBlankConcat(p + m, s);
    NonBlankConcat(p, m);
    OtherFenceStays(style, p, fu, m, fv, s, u, v);
  }

  lemma OtherFenceStays(style: Style, p: seq<string>, fu: seq<string>, m: seq<string>, fv: seq<string>, s: seq<string>,
                        u: string, v: string)
    requires IsFence(style, fu, u) && IsFence(style, fv, v)
    requires Free(style, p, u) && Free(style, p + fu + m, v)
    ensures var ls := p + fu + m + fv + s;
      && Strip(style, ls, u).Cut? && Strip(style, ls, u).lines != []
      && Strip(style, ls, v).Cut? && Strip(style, ls, v).lines != []
  {
    hide IsBegin, IsEnd, Strip, Tidied, Collapse;
    assert forall l :: l in p || l in m ==> l in p + fu + m;
    StripThenLater(style, p, fu, m, fv, s, u, v);
    StripThenEarlier(style, p, fu, m, fv, s, u, v);
    assert p + fu + m + fv + s == p + fu + (m + fv + s);
    CollapsedFence(style, fu, u);
    CollapsedFence(style, fv, v);
  }

  /** The lines and the final newline of a text after a removal. */
  lemma AfterStrip(style: Style, content: string, unit: string)
    ensures var r := Strip(style, Lines(content), unit);
      r.Cut? ==> && Lines(Rejoin(r.lines, EndsInNewline(content))) == r.lines
                 && (r.lines != [] ==> EndsInNewline(Rejoin(r.lines, EndsInNewline(content))) == EndsInNewline(content))
  {
    hide IsBegin, IsEnd, FindBegin, FindEnd, Tidied, IsTidy, Lines, Rejoin, SingleLines;
    var ls := Lines(content);
    if Strip(style, ls, unit).Cut? {
      StripIsTidy(style, ls, unit);
      LinesAreSingle(content);
      var b := FindBegin(style, ls, unit, 0);
      var e := FindEnd(style, ls, unit, b + 1);
      FewerSingle(ls, ls[..b] + ls[e + 1..]);
      TidiedSingle(ls[..b] + ls[e + 1..]);
      LinesRejoin(Strip(style, ls, unit).lines, EndsInNewline(content));
    }
  }

  lemma FewerSingle(ls: seq<string>, some: seq<string>)
    requires SingleLines(ls) && forall l :: l in some ==> l in ls
    ensures SingleLines(some)
  {
  }
}
