/** Marker-fenced blocks found by substring search: insert or replace one, strip one. */
module Markers {
  import opened Options
  import opened TextLines

  datatype Edit = Ok(text: string) | EndMissing(unit: string) | Duplicate(unit: string)

  const BEGIN := "<!-- specere:begin "
  const END := "<!-- specere:end "
  const CLOSE := " -->"

  function Name(unit: string, block: Option<string>): string {
    match block
    case None => unit
    case Some(b) => unit + " " + b
  }

  function BeginLine(unit: string, block: Option<string>): string {
    BEGIN + Name(unit, block) + CLOSE
  }

  function EndLine(unit: string, block: Option<string>): string {
    END + Name(unit, block) + CLOSE
  }

  // ---- substring search ----

  predicate Occurs(s: string, pat: string, i: nat) {
    i + |pat| <= |s| && s[i..i + |pat|] == pat
  }

  /** The first occurrence. */
  function Find(s: string, pat: string): (r: Option<nat>)
    ensures r.Some? ==> Occurs(s, pat, r.value) && forall k: nat :: k < r.value ==> !Occurs(s, pat, k)
    ensures r.None? ==> forall k: nat :: !Occurs(s, pat, k)
  {
    FindFrom(s, pat, 0)
  }

  function FindFrom(s: string, pat: string, i: nat): (r: Option<nat>)
    requires i <= |s|
    ensures r.Some? ==> i <= r.value && Occurs(s, pat, r.value)
    ensures r.Some? ==> forall k: nat :: i <= k < r.value ==> !Occurs(s, pat, k)
    ensures r.None? ==> forall k: nat :: i <= k ==> !Occurs(s, pat, k)
    decreases |s| - i
  {
    if Occurs(s, pat, i) then Some(i)
    else if i == |s| then None
    else FindFrom(s, pat, i + 1)
  }

  lemma FindFirst(s: string, pat: string, i: nat)
    requires Occurs(s, pat, i) && forall k: nat :: k < i ==> !Occurs(s, pat, k)
    ensures Find(s, pat) == Some(i)
  {
    hide Occurs;
  }

  ghost predicate Lacks(s: string, pat: string) {
    forall k: nat :: !Occurs(s, pat, k)
  }

  /** What surrounds a piece does not change what occurs inside it. */
  lemma OccursInside(a: string, s: string, b: string, pat: string, k: nat)
    requires k + |pat| <= |s|
    ensures Occurs(a + s + b, pat, |a| + k) <==> Occurs(s, pat, k)
  {
    assert (a + s + b)[|a| + k..|a| + k + |pat|] == s[k..k + |pat|];
  }

  /** Nothing without a newline in it can begin before a newline and end after it. */
  lemma NoStraddle(a: string, b: string, pat: string, k: nat)
    requires '\n' !in pat && pat != [] && k <= |a| && Occurs(a + "\n" + b, pat, k)
    ensures k + |pat| <= |a| && Occurs(a, pat, k)
  {
    var s := a + "\n" + b;
    assert s[|a|] == '\n';
    assert forall i :: k <= i < k + |pat| ==> s[i] == pat[i - k];
    assert s[k..k + |pat|] == a[k..k + |pat|];
  }

  // ---- the two edits ----

  function DropNewline(s: string): string {
    if s != [] && s[0] == '\n' then s[1..] else s
  }

  /** Text with a block in it: the markers on lines of their own, the body between them. */
  function Fenced(head: string, begin: string, body: string, end: string, tail: string): string {
    head + begin + ("\n" + body + "\n" + end + tail)
  }

  /** What an appended block is put after. */
  function Opening(content: string): string {
    if content == [] then []
    else if content[|content| - 1] == '\n' then content + "\n"
    else content + "\n" + "\n"
  }

  function Upsert(content: string, unit: string, block: Option<string>, body: string): Edit {
    var begin, end := BeginLine(unit, block), EndLine(unit, block);
    match Find(content, begin)
    case None => Ok(Fenced(Opening(content), begin, TrimNewlines(body), end, "\n"))
    case Some(start) =>
      var rest := content[start + |begin|..];
      if Find(rest, begin).Some? then Duplicate(unit)
      else match Find(rest, end)
           case None => EndMissing(unit)
           case Some(at) => Ok(Fenced(content[..start], begin, TrimNewlines(body), end, rest[at + |end|..]))
  }

  function EndedOnce(s: string): string {
    var t := TrimNewlines(s);
    if t == [] then t else t + "\n"
  }

  function StripBlock(content: string, unit: string, block: Option<string>): Edit {
    var begin, end := BeginLine(unit, block), EndLine(unit, block);
    match Find(content, begin)
    case None => Ok(content)
    case Some(start) =>
      var rest := content[start + |begin|..];
      match Find(rest, end)
      case None => EndMissing(unit)
      case Some(at) => Ok(EndedOnce(content[..start] + DropNewline(rest[at + |end|..])))
  }

  // ---- the outcomes, told by where the markers occur ----

  /** The marker's first occurrence. */
  ghost predicate FirstAt(s: string, pat: string, i: nat) {
    Occurs(s, pat, i) && forall k: nat :: k < i ==> !Occurs(s, pat, k)
  }

  /** Without a begin marker the block goes to the end, a blank line before it unless the text is empty. */
  lemma UpsertAppends(content: string, unit: string, block: Option<string>, body: string)
    requires Lacks(content, "<!-- specere:begin " + Name(unit, block) + " -->")
    ensures var head := if content == [] then [] else if content[|content| - 1] == '\n' then content + "\n" else content + "\n\n";
            Upsert(content, unit, block, body)
            == Ok(head + "<!-- specere:begin " + Name(unit, block) + " -->" + "\n" + TrimNewlines(body) + "\n"
                  + "<!-- specere:end " + Name(unit, block) + " -->" + "\n")
  {
    hide TrimNewlines, Name, Find, Lacks, Fenced, Opening;
    var begin, end := BeginLine(unit, block), EndLine(unit, block);
    LacksNone(content, begin);
    OpeningText(content);
    MarkedPieces(Opening(content), Name(unit, block), TrimNewlines(body));
  }

  lemma OpeningText(content: string)
    ensures Opening(content)
            == if content == [] then [] else if content[|content| - 1] == '\n' then content + "\n" else content + "\n\n"
  {
    TwoNewlines(content);
  }

  lemma MarkedPieces(head: string, name: string, body: string)
    ensures Fenced(head, BEGIN + name + CLOSE, body, END + name + CLOSE, "\n")
            == head + "<!-- specere:begin " + name + " -->" + "\n" + body + "\n" + "<!-- specere:end " + name + " -->" + "\n"
  {
    FencedPieces(head, BEGIN + name + CLOSE, body, END + name + CLOSE, "\n");
    Associate(head, BEGIN + name, CLOSE);
    Associate(head, BEGIN, name);
    var x := head + BEGIN + name + CLOSE + "\n" + body + "\n";
    Associate(x, END + name, CLOSE);
    Associate(x, END, name);
  }

  lemma FencedPieces(head: string, begin: string, body: string, end: string, tail: string)
    ensures Fenced(head, begin, body, end, tail) == head + begin + "\n" + body + "\n" + end + tail
  {
  }

  lemma TwoNewlines(content: string)
    ensures content + "\n" + "\n" == content + "\n\n"
  {
  }

  /**
   A second begin marker is an error, and so is a missing end marker; otherwise the text between the begin
   marker and the first end marker behind it is replaced by the body.
   */
  lemma UpsertOutcomes(content: string, unit: string, block: Option<string>, body: string, i: nat)
    requires FirstAt(content, "<!-- specere:begin " + Name(unit, block) + " -->", i)
    ensures var begin, end := "<!-- specere:begin " + Name(unit, block) + " -->", "<!-- specere:end " + Name(unit, block) + " -->";
            var rest := content[i + |begin|..];
            var r := Upsert(content, unit, block, body);
            && (!Lacks(rest, begin) ==> r == Duplicate(unit))
            && (Lacks(rest, begin) && Lacks(rest, end) ==> r == EndMissing(unit))
            && (forall e: nat :: Lacks(rest, begin) && FirstAt(rest, end, e) ==>
                  r == Ok(content[..i] + begin + "\n" + TrimNewlines(body) + "\n" + end + rest[e + |end|..]))
  {
    hide TrimNewlines, Name, Find, Lacks, Fenced, Occurs;
    var begin, end := BeginLine(unit, block), EndLine(unit, block);
    OneFirst(content, begin);
    var rest := content[i + |begin|..];
    OneFirst(rest, begin);
    OneFirst(rest, end);
    forall tail {
      FencedPieces(content[..i], begin, TrimNewlines(body), end, tail);
    }
  }

  lemma OneFirst(s: string, pat: string)
    ensures Find(s, pat).None? <==> Lacks(s, pat)
    ensures Find(s, pat).Some? ==> FirstAt(s, pat, Find(s, pat).value) && Find(s, pat).value + |pat| <= |s|
    ensures forall i: nat :: FirstAt(s, pat, i) ==> Find(s, pat) == Some(i)
  {
    if Find(s, pat).Some? { assert Occurs(s, pat, Find(s, pat).value); }
    forall i: nat | FirstAt(s, pat, i) ensures Find(s, pat) == Some(i) { FindFirst(s, pat, i); }
  }

  /** Without a begin marker nothing is stripped. */
  lemma StripAbsent(content: string, unit: string, block: Option<string>)
    requires Lacks(content, "<!-- specere:begin " + Name(unit, block) + " -->")
    ensures StripBlock(content, unit, block) == Ok(content)
  {
    hide Name, Find, Lacks;
    LacksNone(content, BeginLine(unit, block));
  }

  /** A begin marker without an end marker behind it is an error. */
  lemma StripBroken(content: string, unit: string, block: Option<string>, i: nat)
    requires FirstAt(content, "<!-- specere:begin " + Name(unit, block) + " -->", i)
    requires Lacks(content[i + |"<!-- specere:begin " + Name(unit, block) + " -->"|..], "<!-- specere:end " + Name(unit, block) + " -->")
    ensures StripBlock(content, unit, block) == EndMissing(unit)
  {
    hide Occurs, EndedOnce, Name, Find, Lacks;
    OneFirst(content, BeginLine(unit, block));
    LacksNone(content[i + |BeginLine(unit, block)|..], EndLine(unit, block));
  }

  /**
   Otherwise everything from the first begin marker to the end of the first end marker behind it goes, one newline
   after it included, and the rest ends in one newline.
   */
  lemma StripCuts(content: string, unit: string, block: Option<string>, i: nat, e: nat)
    requires FirstAt(content, "<!-- specere:begin " + Name(unit, block) + " -->", i)
    requires FirstAt(content[i + |"<!-- specere:begin " + Name(unit, block) + " -->"|..], "<!-- specere:end " + Name(unit, block) + " -->", e)
    ensures var after := content[i + |"<!-- specere:begin " + Name(unit, block) + " -->"|..][e + |"<!-- specere:end " + Name(unit, block) + " -->"|..];
            StripBlock(content, unit, block)
            == Ok(EndedOnce(content[..i] + if after != [] && after[0] == '\n' then after[1..] else after))
  {
    hide Occurs, EndedOnce, Name, Find, Lacks;
    OneFirst(content, BeginLine(unit, block));
    OneFirst(content[i + |BeginLine(unit, block)|..], EndLine(unit, block));
  }

  // ---- a fenced text is read as it was written ----

  /** The marker lines of an id that is written on one line. */
  ghost predicate OneLine(begin: string, end: string) {
    '\n' !in begin && '\n' !in end && begin != [] && end != [] && |begin| > |end|
  }

  lemma MarkersAreOneLine(unit: string, block: Option<string>)
    requires '\n' !in Name(unit, block)
    ensures OneLine(BeginLine(unit, block), EndLine(unit, block))
    ensures |BeginLine(unit, block)| == |EndLine(unit, block)| + 2
  {
    assert '\n' !in BEGIN && '\n' !in END && '\n' !in CLOSE;
  }

  /** The head holds no marker, not even one running into the marker that follows. */
  ghost predicate Clear(head: string, begin: string) {
    forall k: nat :: k < |head| ==> !Occurs(head + begin, begin, k)
  }

  lemma FindBegin(head: string, begin: string, rest: string)
    requires Clear(head, begin)
    ensures Find(head + begin + rest, begin) == Some(|head|)
    ensures (head + begin + rest)[|head| + |begin|..] == rest && (head + begin + rest)[..|head|] == head
  {
    var s := head + begin + rest;
    assert s[|head|..|head| + |begin|] == begin;
    forall k: nat | k < |head| ensures !Occurs(s, begin, k) {
      assert !Occurs(head + begin, begin, k);
      assert s[k..k + |begin|] == (head + begin)[k..k + |begin|];
    }
    FindFirst(s, begin, |head|);
  }

  lemma FindEnd(body: string, end: string, tail: string)
    requires Lacks(body, end) && '\n' !in end && end != []
    ensures var rest := "\n" + body + "\n" + end + tail;
            && Find(rest, end) == Some(|body| + 2)
            && rest[|body| + 2 + |end|..] == tail
  {
    var rest := "\n" + body + "\n" + end + tail;
    assert rest[|body| + 2..|body| + 2 + |end|] == end;
    forall k: nat | k < |body| + 2 ensures !Occurs(rest, end, k) {
      NotBefore(body, end + tail, end, k);
      assert rest == "\n" + body + "\n" + (end + tail);
    }
    FindFirst(rest, end, |body| + 2);
  }

  /** No marker begins in the body or at the newlines around it. */
  lemma NotBefore(body: string, after: string, pat: string, k: nat)
    requires Lacks(body, pat) && '\n' !in pat && pat != [] && k < |body| + 2
    ensures !Occurs("\n" + body + "\n" + after, pat, k)
  {
    var s := "\n" + body + "\n" + after;
    if Occurs(s, pat, k) {
      assert s[k] == pat[0];
      assert k != 0;
      assert s == "\n" + (body + "\n" + after) + "";
      OccursInside("\n", body + "\n" + after, "", pat, k - 1);
      NoStraddle(body, after, pat, k - 1);
    }
  }

  lemma NoBeginAfter(body: string, begin: string, end: string, tail: string)
    requires Lacks(body, begin) && '\n' !in begin && begin != [] && Lacks(end + tail, begin)
    ensures Find("\n" + body + "\n" + end + tail, begin) == None
  {
    var rest := "\n" + body + "\n" + end + tail;
    assert rest == "\n" + body + "\n" + (end + tail);
    forall k: nat ensures !Occurs(rest, begin, k) {
      if k < |body| + 2 {
        NotBefore(body, end + tail, begin, k);
      } else if k + |begin| <= |rest| {
        var pre := "\n" + body + "\n";
        assert rest == pre + (end + tail) + "";
        OccursInside(pre, end + tail, "", begin, k - |pre|);
      }
    }
  }

  /** A block whose head, body and tail are clear of markers: reading it finds exactly its parts. */
  ghost predicate Readable(head: string, begin: string, body: string, end: string, tail: string) {
    && OneLine(begin, end) && Clear(head, begin)
    && Lacks(body, begin) && Lacks(body, end) && Lacks(end + tail, begin)
  }

  lemma UpsertReadable(head: string, unit: string, block: Option<string>, body: string, tail: string, next: string)
    requires Readable(head, BeginLine(unit, block), body, EndLine(unit, block), tail)
    ensures var begin, end := BeginLine(unit, block), EndLine(unit, block);
            Upsert(Fenced(head, begin, body, end, tail), unit, block, next)
            == Ok(Fenced(head, begin, TrimNewlines(next), end, tail))
  {
    hide BeginLine, EndLine, Find, TrimNewlines, Clear, Lacks;
    var begin, end := BeginLine(unit, block), EndLine(unit, block);
    FindBegin(head, begin, "\n" + body + "\n" + end + tail);
    NoBeginAfter(body, begin, end, tail);
    FindEnd(body, end, tail);
  }

  lemma StripReadable(head: string, unit: string, block: Option<string>, body: string, tail: string)
    requires Readable(head, BeginLine(unit, block), body, EndLine(unit, block), tail)
    ensures var begin, end := BeginLine(unit, block), EndLine(unit, block);
            StripBlock(Fenced(head, begin, body, end, tail), unit, block) == Ok(EndedOnce(head + DropNewline(tail)))
  {
    hide BeginLine, EndLine, Find, EndedOnce, DropNewline, Clear, Lacks;
    var begin, end := BeginLine(unit, block), EndLine(unit, block);
    FindBegin(head, begin, "\n" + body + "\n" + end + tail);
    FindEnd(body, end, tail);
  }

  // ---- what an upsert leaves behind is readable ----

  lemma TooShort(s: string, pat: string)
    requires |s| < |pat|
    ensures Lacks(s, pat)
  {
  }

  lemma OpeningIsClear(content: string, begin: string)
    requires Lacks(content, begin) && '\n' !in begin && begin != []
    ensures Clear(Opening(content), begin)
  {
    var head := Opening(content);
    forall k: nat | k < |head| ensures !Occurs(head + begin, begin, k) {
      var a := head[..|head| - 1];
      assert head == a + "\n";
      assert head + begin == a + "\n" + begin;
      if Occurs(head + begin, begin, k) {
        NoStraddle(a, begin, begin, k);
        InContent(content, begin, k);
      }
    }
  }

  lemma InContent(content: string, begin: string, k: nat)
    requires content != [] && '\n' !in begin && begin != []
    requires Occurs(Opening(content)[..|Opening(content)| - 1], begin, k)
    ensures Occurs(content, begin, k)
  {
    var a := Opening(content)[..|Opening(content)| - 1];
    if content[|content| - 1] == '\n' {
      assert a == content;
    } else {
      assert a == content + "\n" + "";
      assert k <= |content| by { assert k == |content| + 1 ==> begin == []; }
      NoStraddle(content, "", begin, k);
    }
  }

  lemma PrefixIsClear(content: string, begin: string, start: nat)
    requires Find(content, begin) == Some(start)
    ensures Clear(content[..start], begin)
  {
    var head := content[..start];
    forall k: nat | k < |head| ensures !Occurs(head + begin, begin, k) {
      assert !Occurs(content, begin, k);
      assert content[..start + |begin|] == head + begin;
      assert (head + begin)[k..k + |begin|] == content[k..k + |begin|];
    }
  }

  lemma SuffixLacks(s: string, pat: string, i: nat)
    requires Find(s, pat) == None && i <= |s|
    ensures Lacks(s[i..], pat)
  {
    forall k: nat ensures !Occurs(s[i..], pat, k) {
      assert !Occurs(s, pat, i + k);
      assert i + k + |pat| <= |s| ==> s[i..][k..k + |pat|] == s[i + k..i + k + |pat|];
    }
  }

  lemma {:induction false} TrimmedIsPrefix(s: string)
    ensures TrimNewlines(s) <= s
    ensures forall i :: |TrimNewlines(s)| <= i < |s| ==> s[i] == '\n'
    ensures TrimNewlines(s) == [] || TrimNewlines(s)[|TrimNewlines(s)| - 1] != '\n'
  {
    if s != [] && s[|s| - 1] == '\n' {
      TrimmedIsPrefix(s[..|s| - 1]);
    }
  }

  lemma PrefixLacks(s: string, pat: string, n: nat)
    requires Lacks(s, pat) && n <= |s|
    ensures Lacks(s[..n], pat)
  {
    forall k: nat ensures !Occurs(s[..n], pat, k) {
      assert !Occurs(s, pat, k);
      assert k + |pat| <= n ==> s[..n][k..k + |pat|] == s[k..k + |pat|];
    }
  }

  lemma TrimmedLacks(s: string, pat: string)
    requires Lacks(s, pat)
    ensures Lacks(TrimNewlines(s), pat)
  {
    TrimmedIsPrefix(s);
    PrefixLacks(s, pat, |TrimNewlines(s)|);
    assert TrimNewlines(s) == s[..|TrimNewlines(s)|];
  }

  /**
   Whatever text it is given, an upsert that succeeds leaves a readable block around the trimmed body, and
   the head and tail of that block do not depend on the body.
   */
  lemma UpsertFences(content: string, unit: string, block: Option<string>, body: string)
    returns (head: string, tail: string)
    requires '\n' !in Name(unit, block)
    requires Lacks(body, BeginLine(unit, block)) && Lacks(body, EndLine(unit, block))
    requires Upsert(content, unit, block, body).Ok?
    ensures Readable(head, BeginLine(unit, block), TrimNewlines(body), EndLine(unit, block), tail)
    ensures forall b :: Upsert(content, unit, block, b)
                        == Ok(Fenced(head, BeginLine(unit, block), TrimNewlines(b), EndLine(unit, block), tail))
  {
    hide *;
    var begin, end := BeginLine(unit, block), EndLine(unit, block);
    MarkersAreOneLine(unit, block);
    TrimmedLacks(body, begin);
    TrimmedLacks(body, end);
    head, tail := Surroundings(content, begin, end, unit, block, body);
    ReadableParts(head, begin, TrimNewlines(body), end, tail);
  }

  lemma ReadableParts(head: string, begin: string, body: string, end: string, tail: string)
    requires OneLine(begin, end) && Clear(head, begin)
    requires Lacks(body, begin) && Lacks(body, end) && Lacks(end + tail, begin)
    ensures Readable(head, begin, body, end, tail)
  {
  }

  lemma Surroundings(content: string, begin: string, end: string, unit: string, block: Option<string>, body: string)
    returns (head: string, tail: string)
    requires begin == BeginLine(unit, block) && end == EndLine(unit, block) && OneLine(begin, end)
    requires |begin| == |end| + 2 && Upsert(content, unit, block, body).Ok?
    ensures Clear(head, begin) && Lacks(end + tail, begin)
    ensures forall b :: Upsert(content, unit, block, b) == Ok(Fenced(head, begin, TrimNewlines(b), end, tail))
  {
    hide BeginLine, EndLine, TrimNewlines, Opening, Fenced, Lacks, Clear;
    match Find(content, begin)
    case None =>
      head, tail := Opening(content), "\n";
      NoneLacks(content, begin);
      OpeningIsClear(content, begin);
      TooShort(end + "\n", begin);
    case Some(start) =>
      var rest := content[start + |begin|..];
      var at := Find(rest, end).value;
      head, tail := content[..start], rest[at + |end|..];
      PrefixIsClear(content, begin, start);
      SuffixLacks(rest, begin, at);
      EndAndTail(rest, end, at);
  }

  lemma NoneLacks(s: string, pat: string)
    requires Find(s, pat) == None
    ensures Lacks(s, pat)
  {
  }

  lemma EndAndTail(rest: string, end: string, at: nat)
    requires Find(rest, end) == Some(at)
    ensures end + rest[at + |end|..] == rest[at..]
  {
    assert Occurs(rest, end, at);
    assert rest[at..] == rest[at..at + |end|] + rest[at + |end|..];
  }

  // ---- the laws ----

  /** The second of two upserts wins: the text is what it would have been without the first. */
  lemma UpsertReplaces(content: string, unit: string, block: Option<string>, first: string, second: string)
    requires '\n' !in Name(unit, block)
    requires Lacks(first, BeginLine(unit, block)) && Lacks(first, EndLine(unit, block))
    requires Upsert(content, unit, block, first).Ok?
    ensures Upsert(Upsert(content, unit, block, first).text, unit, block, second) == Upsert(content, unit, block, second)
  {
    hide BeginLine, EndLine, TrimNewlines, Upsert, Readable, Lacks;
    var head, tail := UpsertFences(content, unit, block, first);
    UpsertReadable(head, unit, block, TrimNewlines(first), tail, second);
  }

  /** Stripping what was appended gives the text back with its trailing newlines made into one. */
  lemma StripUndoesUpsert(content: string, unit: string, block: Option<string>, body: string)
    requires '\n' !in Name(unit, block)
    requires Lacks(content, BeginLine(unit, block))
    requires Lacks(body, BeginLine(unit, block)) && Lacks(body, EndLine(unit, block))
    ensures Upsert(content, unit, block, body).Ok?
    ensures StripBlock(Upsert(content, unit, block, body).text, unit, block) == Ok(EndedOnce(content))
  {
    hide BeginLine, EndLine, TrimNewlines, Lacks, Clear, Occurs;
    var begin, end := BeginLine(unit, block), EndLine(unit, block);
    MarkersAreOneLine(unit, block);
    TrimmedLacks(body, begin);
    TrimmedLacks(body, end);
    OpeningIsClear(content, begin);
    TooShort(end + "\n", begin);
    LacksNone(content, begin);
    StripReadable(Opening(content), unit, block, TrimNewlines(body), "\n");
    assert Opening(content) + DropNewline("\n") == Opening(content);
    OpeningTidies(content);
  }

  lemma LacksNone(s: string, pat: string)
    requires Lacks(s, pat)
    ensures Find(s, pat) == None
  {
  }

  lemma OpeningTidies(content: string)
    ensures EndedOnce(Opening(content)) == EndedOnce(content)
  {
    if content != [] {
      TrimOne(content);
      TrimOne(content + "\n");
    }
  }

  lemma TrimOne(s: string)
    ensures TrimNewlines(s + "\n") == TrimNewlines(s)
  {
    assert (s + "\n")[..|s|] == s;
  }

  /**
   The round trip is exact for the empty text and for texts that end in exactly one newline after
   something else, and for no others.
   */
  lemma RoundTripExactly(content: string, unit: string, block: Option<string>, body: string)
    requires '\n' !in Name(unit, block)
    requires Lacks(content, BeginLine(unit, block))
    requires Lacks(body, BeginLine(unit, block)) && Lacks(body, EndLine(unit, block))
    ensures Upsert(content, unit, block, body).Ok?
    ensures StripBlock(Upsert(content, unit, block, body).text, unit, block) == Ok(content)
            <==> content == [] || (|content| >= 2 && content[|content| - 1] == '\n' && content[|content| - 2] != '\n')
  {
    hide BeginLine, EndLine, Lacks, Upsert, StripBlock;
    StripUndoesUpsert(content, unit, block, body);
    TidiedExactly(content);
  }

  lemma TidiedExactly(s: string)
    ensures EndedOnce(s) == s <==> s == [] || (|s| >= 2 && s[|s| - 1] == '\n' && s[|s| - 2] != '\n')
  {
    TrimmedIsPrefix(s);
    var t := TrimNewlines(s);
    if t != [] && EndedOnce(s) == s {
      assert s[|s| - 2] == t[|t| - 1];
    }
    if |s| >= 2 && s[|s| - 1] == '\n' && s[|s| - 2] != '\n' {
      assert t == s[..|s| - 1];
    }
  }

  /** A file that is just a newline does not survive: it comes back empty. */
  lemma LoneNewlineIsLost()
    ensures Upsert("\n", "u", None, "x").Ok?
    ensures StripBlock(Upsert("\n", "u", None, "x").text, "u", None) == Ok("")
  {
    TooShort("\n", BeginLine("u", None));
    TooShort("x", BeginLine("u", None));
    TooShort("x", EndLine("u", None));
    StripUndoesUpsert("\n", "u", None, "x");
    assert "\n"[..0] == "";
  }

  // ---- whose block it is ----

  lemma SameName(x: string, y: string)
    requires BEGIN + x + CLOSE == BEGIN + y + CLOSE
    ensures x == y
  {
    hide *;
    var s := BEGIN + x + CLOSE;
    assert |x| == |y|;
    assert s[|BEGIN|..|BEGIN| + |x|] == x;
    assert s[|BEGIN|..|BEGIN| + |x|] == y;
  }

  /** Two ids share their marker lines exactly when they are written alike. */
  lemma MarkersByName(u: string, a: Option<string>, v: string, b: Option<string>)
    ensures BeginLine(u, a) == BeginLine(v, b) <==> Name(u, a) == Name(v, b)
    ensures BeginLine(u, a) == BeginLine(v, b) ==> EndLine(u, a) == EndLine(v, b)
  {
    hide Name;
    if BeginLine(u, a) == BeginLine(v, b) { SameName(Name(u, a), Name(v, b)); }
  }

  /** The first space of a name, if it has one. */
  function FirstSpace(s: string): (k: nat)
    ensures k <= |s| && ' ' !in s[..k] && (k < |s| ==> s[k] == ' ')
  {
    if s == [] || s[0] == ' ' then 0
    else
      var k := FirstSpace(s[1..]);
      assert s[..k + 1] == [s[0]] + s[1..][..k];
      k + 1
  }

  /**
   The marker line of an id is its own alone exactly when the id has no block and its unit no space: every
   other id shares it with the id got by moving the space between unit and block.
   */
  lemma MarkersIdentifyExactly(u: string, a: Option<string>)
    ensures (forall v, b :: BeginLine(u, a) == BeginLine(v, b) ==> u == v && a == b) <==> a.None? && ' ' !in u
  {
    hide BeginLine, EndLine;
    if a.None? && ' ' !in u {
      forall v, b | BeginLine(u, a) == BeginLine(v, b) ensures u == v && a == b {
        MarkersByName(u, a, v, b);
        BlockNeedsSpace(v, b);
      }
    } else {
      var v, b := OtherId(u, a);
      MarkersByName(u, a, v, b);
    }
  }

  lemma BlockNeedsSpace(v: string, b: Option<string>)
    ensures b.Some? ==> ' ' in Name(v, b)
  {
    if b.Some? { assert Name(v, b)[|v|] == ' '; }
  }

  lemma OtherId(u: string, a: Option<string>) returns (v: string, b: Option<string>)
    requires a.Some? || ' ' in u
    ensures Name(u, a) == Name(v, b) && (u != v || a != b)
  {
    if a.Some? {
      v, b := Name(u, a), None;
    } else {
      var k := FirstSpace(u);
      assert u[..k] + u[k..] == u;
      v, b := u[..k], Some(u[k + 1..]);
      assert u == u[..k] + " " + u[k + 1..];
    }
  }

  /** The one id the repository uses, `rules` without a block, keeps its markers to itself. */
  lemma RulesMarkersAreOwn(v: string, b: Option<string>)
    requires BeginLine("rules", None) == BeginLine(v, b)
    ensures v == "rules" && b == None
  {
    hide BeginLine;
    assert ' ' !in "rules";
    MarkersIdentifyExactly("rules", None);
  }

  /** A unit with a block and a unit of two words: one replaces and strips the other's text. */
  lemma SpacesConfuse(content: string, first: string, second: string)
    requires Lacks(first, BeginLine("a", Some("b"))) && Lacks(first, EndLine("a", Some("b")))
    requires Upsert(content, "a", Some("b"), first).Ok?
    ensures BeginLine("a", Some("b")) == BeginLine("a b", None)
    ensures Upsert(Upsert(content, "a", Some("b"), first).text, "a b", None, second) == Upsert(content, "a", Some("b"), second)
  {
    hide Upsert, Lacks;
    assert Name("a", Some("b")) == "a b" == Name("a b", None);
    assert '\n' !in "a b";
    var text := Upsert(content, "a", Some("b"), first).text;
    SameEdits(text, second);
    UpsertReplaces(content, "a", Some("b"), first, second);
    var head, tail := UpsertFences(content, "a", Some("b"), first);
  }

  lemma SameEdits(content: string, body: string)
    requires Name("a", Some("b")) == Name("a b", None)
    ensures Upsert(content, "a b", None, body).Ok? ==> Upsert(content, "a", Some("b"), body) == Upsert(content, "a b", None, body)
    ensures Upsert(content, "a", Some("b"), body).Ok? ==> Upsert(content, "a", Some("b"), body) == Upsert(content, "a b", None, body)
  {
    hide Find, TrimNewlines, Fenced, Opening;
  }
}
