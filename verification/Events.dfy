/** The recorded events a filter run reads, and what each of them asks the filter to do. */
module Events {
  import opened Chars
  import opened Hmm
  import opened Ordering

  datatype Event = Event(ts: string, attrs: map<string, string>)

  /** Where a run has got to: nowhere yet, or up to and including a timestamp. */
  datatype Cursor = Start | Upto(ts: string)

  datatype Reading = Skip | Do(step: Step)

  function Attr(e: Event, key: string, default: string): string {
    if key in e.attrs then e.attrs[key] else default
  }

  predicate Says(e: Event, key: string, value: string) {
    key in e.attrs && e.attrs[key] == value
  }

  predicate Newer(e: Event, c: Cursor) {
    c.Upto? ==> StringLess(c.ts, e.ts)
  }

  /** `a` is no further than `b`. */
  predicate AtMost(a: Cursor, b: Cursor) {
    a.Start? || (b.Upto? && (a == b || StringLess(a.ts, b.ts)))
  }

  lemma AtMostTransitive(a: Cursor, b: Cursor, c: Cursor)
    requires AtMost(a, b) && AtMost(b, c)
    ensures AtMost(a, c)
  {
    if a.Upto? {
      StringLessLaws(a.ts, b.ts, c.ts);
    }
  }

  lemma NewerThanLater(e: Event, a: Cursor, b: Cursor)
    requires AtMost(a, b) && Newer(e, b)
    ensures Newer(e, a)
  {
    if a.Upto? {
      StringLessLaws(a.ts, b.ts, e.ts);
    }
  }

  lemma NewerOrAtMost(e: Event, c: Cursor)
    ensures Newer(e, c) <==> !AtMost(Upto(e.ts), c)
  {
    if c.Upto? {
      StringLessLaws(c.ts, e.ts, c.ts);
    }
  }

  // ---- the comma-separated path list of an edit event ----

  /** The pieces between commas; `cur` is the piece being read. */
  function SplitCommas(s: string, cur: string): seq<string> {
    if s == [] then [cur]
    else if s[0] == ',' then [cur] + SplitCommas(s[1..], [])
    else SplitCommas(s[1..], cur + [s[0]])
  }

  function KeepPaths(pieces: seq<string>): seq<string> {
    if pieces == [] then []
    else
      var p := Trim(pieces[0]);
      (if p == [] then [] else [p]) + KeepPaths(pieces[1..])
  }

  function ParsePaths(raw: string): seq<string> {
    KeepPaths(SplitCommas(raw, []))
  }

  predicate PlainPath(p: string) {
    p != [] && !IsSpace(p[0]) && !IsSpace(p[|p| - 1]) && ',' !in p
  }

  function Joined(paths: seq<string>): string {
    if paths == [] then []
    else if |paths| == 1 then paths[0]
    else paths[0] + "," + Joined(paths[1..])
  }

  lemma {:induction false} SplitPiece(p: string, rest: string, cur: string)
    requires ',' !in p
    ensures SplitCommas(p, cur) == [cur + p]
    ensures SplitCommas(p + "," + rest, cur) == [cur + p] + SplitCommas(rest, [])
    decreases |p|
  {
    if p == [] {
      assert cur + p == cur && p + "," + rest == "," + rest;
    } else {
      SplitPiece(p[1..], rest, cur + [p[0]]);
      assert (p + "," + rest)[1..] == p[1..] + "," + rest;
      assert cur + [p[0]] + p[1..] == cur + p;
    }
  }

  /** A list of plain paths written with commas between them is read back as it was. */
  lemma {:induction false} ParseJoined(paths: seq<string>)
    requires forall p :: p in paths ==> PlainPath(p)
    ensures ParsePaths(Joined(paths)) == paths
  {
    if paths != [] {
      hide ParsePaths, PlainPath;
      var p := paths[0];
      assert p in paths && forall q :: q in paths[1..] ==> q in paths;
      assert paths == [p] + paths[1..];
      ParseJoined(paths[1..]);
      ParseOne(p, Joined(paths[1..]));
    }
  }

  lemma ParseOne(p: string, rest: string)
    requires PlainPath(p)
    ensures ParsePaths(p) == [p] && ParsePaths(p + "," + rest) == [p] + ParsePaths(rest)
  {
    SplitPiece(p, rest, []);
    assert [] + p == p;
    hide SplitCommas;
    KeepPlain(p, []);
    assert [p] + [] == [p] && KeepPaths([]) == [];
    KeepPlain(p, SplitCommas(rest, []));
  }

  lemma KeepPlain(p: string, rest: seq<string>)
    requires PlainPath(p)
    ensures KeepPaths([p] + rest) == [p] + KeepPaths(rest)
  {
    assert ([p] + rest)[1..] == rest;
  }

  lemma {:induction false} PiecesHaveNoComma(s: string, cur: string)
    requires ',' !in cur
    ensures forall p :: p in SplitCommas(s, cur) ==> ',' !in p
  {
    if s != [] {
      if s[0] == ',' { PiecesHaveNoComma(s[1..], []); } else { PiecesHaveNoComma(s[1..], cur + [s[0]]); }
    }
  }

  lemma TrimmedIsPlain(s: string)
    ensures Trim(s) != [] ==> !IsSpace(Trim(s)[0]) && !IsSpace(Trim(s)[|Trim(s)| - 1])
    ensures forall c :: c in Trim(s) ==> c in s
  {
    hide IsSpace;
    var k := TrimStartExactly(s);
    TrimEndExactly(s[k..]);
  }

  lemma {:induction false} KeptArePlain(pieces: seq<string>)
    requires forall p :: p in pieces ==> ',' !in p
    ensures forall p :: p in KeepPaths(pieces) ==> PlainPath(p)
  {
    hide Trim, IsSpace;
    if pieces != [] {
      assert pieces[0] in pieces && forall p :: p in pieces[1..] ==> p in pieces;
      KeptArePlain(pieces[1..]);
      TrimmedIsPlain(pieces[0]);
    }
  }

  /** Whatever the text, only trimmed paths come out of it, and no empty one. */
  lemma ParsedPathsArePlain(raw: string)
    ensures forall p :: p in ParsePaths(raw) ==> PlainPath(p)
  {
    PiecesHaveNoComma(raw, []);
    KeptArePlain(SplitCommas(raw, []));
  }

  // ---- what an event means ----

  function StepOf(e: Event): Reading {
    var kind := Attr(e, "event_kind", "");
    if kind == "test_outcome" && "spec_id" in e.attrs then
      Do(Test(e.attrs["spec_id"], Attr(e, "outcome", "")))
    else if kind == "files_touched" then
      Do(Files(ParsePaths(Attr(e, "paths", ""))))
    else Skip
  }
}
