/** Dependency rules in Make's notation: the escapes, the tokeniser, and one rule line. */
module DepInfo {
  import opened Chars
  import opened Options
  import opened TextLines

  // ---- what is to be read: escaped paths ----

  predicate Special(c: char) {
    IsSpace(c) || c == ':' || c == '\\'
  }

  /** A path with a backslash before white space, colons and backslashes. */
  function Escape(p: string): string {
    if p == [] then [] else Lead(p[0]) + Escape(p[1..])
  }

  function Lead(c: char): (r: string)
    ensures r != []
  {
    if Special(c) then ['\\', c] else [c]
  }

  lemma HeadTail(p: string)
    requires p != []
    ensures p == [p[0]] + p[1..]
  {
  }

  lemma EscapeCons(c: char, q: string)
    ensures Escape([c] + q) == Lead(c) + Escape(q)
  {
    assert ([c] + q)[1..] == q;
  }

  lemma {:induction false} EscapeAppend(p: string, q: string)
    ensures Escape(p + q) == Escape(p) + Escape(q)
  {
    if p == [] {
      assert p + q == q;
    } else {
      EscapeAppend(p[1..], q);
      HeadTail(p);
      Associate([p[0]], p[1..], q);
      EscapeCons(p[0], p[1..]);
      EscapeCons(p[0], p[1..] + q);
      hide *;
      Associate(Lead(p[0]), Escape(p[1..]), Escape(q));
    }
  }

  // ---- the readers, as functions ----

  function Unescaped(s: string): string {
    if s == [] then []
    else if s[0] == '\\' && |s| > 1 then [s[1]] + Unescaped(s[2..])
    else [s[0]] + Unescaped(s[1..])
  }

  function Flush(cur: string): seq<string> {
    if cur == [] then [] else [cur]
  }

  function Tokens(s: string, cur: string): seq<string> {
    if s == [] then Flush(cur)
    else if s[0] == '\\' && |s| > 1 then Tokens(s[2..], cur + [s[1]])
    else if IsSpace(s[0]) then Flush(cur) + Tokens(s[1..], [])
    else Tokens(s[1..], cur + [s[0]])
  }

  /** The place of the first colon without a backslash before it. */
  function Colon(s: string): (r: Option<nat>)
    ensures r.Some? ==> r.value < |s|
  {
    if s == [] then None
    else if s[0] == '\\' && |s| > 1 then Later(2, Colon(s[2..]))
    else if s[0] == ':' then Some(0)
    else Later(1, Colon(s[1..]))
  }

  function Later(n: nat, r: Option<nat>): Option<nat> {
    match r
    case None => None
    case Some(k) => Some(n + k)
  }

  function SplitOf(s: string): Option<(string, string)> {
    match Colon(s)
    case None => None
    case Some(k) => Some((s[..k], s[k + 1..]))
  }

  // ---- the loops ----

  method SplitOnUnescapedColon(s: string) returns (r: Option<(string, string)>)
    ensures r == SplitOf(s)
  {
    var i := 0;
    while i < |s|
      invariant i <= |s| && Colon(s) == Later(i, Colon(s[i..]))
    {
      if s[i] == '\\' && i + 1 < |s| {
        assert s[i..][2..] == s[i + 2..];
        i := i + 2;
        continue;
      }
      if s[i] == ':' {
        return Some((s[..i], s[i + 1..]));
      }
      assert s[i..][1..] == s[i + 1..];
      i := i + 1;
    }
    r := None;
  }

  method TokeniseMakePaths(s: string) returns (out: seq<string>)
    ensures out == Tokens(s, [])
  {
    out := [];
    var cur := [];
    var i := 0;
    while i < |s|
      invariant i <= |s| && out + Tokens(s[i..], cur) == Tokens(s, [])
    {
      var c := s[i];
      if c == '\\' && i + 1 < |s| {
        assert s[i..][2..] == s[i + 2..];
        cur := cur + [s[i + 1]];
        i := i + 2;
        continue;
      }
      assert s[i..][1..] == s[i + 1..];
      if IsSpace(c) {
        assert out + (Flush(cur) + Tokens(s[i + 1..], [])) == out + Flush(cur) + Tokens(s[i + 1..], []);
        if cur != [] {
          out := out + [cur];
          cur := [];
        }
        i := i + 1;
        continue;
      }
      cur := cur + [c];
      i := i + 1;
    }
    if cur != [] {
      out := out + [cur];
    }
  }

  method UnescapeMakePath(s: string) returns (out: string)
    ensures out == Unescaped(s)
  {
    out := [];
    var i := 0;
    while i < |s|
      invariant i <= |s| && out + Unescaped(s[i..]) == Unescaped(s)
    {
      if s[i] == '\\' && i + 1 < |s| {
        assert s[i..][2..] == s[i + 2..];
        out := out + [s[i + 1]];
        i := i + 2;
        continue;
      }
      assert s[i..][1..] == s[i + 1..];
      out := out + [s[i]];
      i := i + 1;
    }
  }

  /** One rule line: the target and its sources. Blank lines, comments and lines without a colon give nothing. */
  method ParseLine(raw: string) returns (r: Option<(string, seq<string>)>)
    ensures r == RuleOf(raw)
  {
    hide Trim, Tokens, Unescaped, SplitOf;
    var line := Trim(raw);
    if line == [] || line[0] == '#' {
      return None;
    }
    var parts := SplitOnUnescapedColon(line);
    if parts == None {
      return None;
    }
    var target := UnescapeMakePath(Trim(parts.value.0));
    var sources := TokeniseMakePaths(Trim(parts.value.1));
    r := if target == [] then None else Some((target, sources));
  }

  function RuleOf(raw: string): Option<(string, seq<string>)> {
    var line := Trim(raw);
    if line == [] || line[0] == '#' then None
    else
      match SplitOf(line)
      case None => None
      case Some((lhs, rhs)) =>
        var target := Unescaped(Trim(lhs));
        if target == [] then None else Some((target, Tokens(Trim(rhs), [])))
  }

  // ---- reading back what was escaped ----

  lemma LeadRead(c: char, rest: string, cur: string)
    ensures Unescaped(Lead(c) + rest) == [c] + Unescaped(rest)
    ensures Tokens(Lead(c) + rest, cur) == Tokens(rest, cur + [c])
    ensures Colon(Lead(c) + rest) == Later(|Lead(c)|, Colon(rest))
  {
    var s := Lead(c) + rest;
    assert s[|Lead(c)|..] == rest;
  }

  lemma EscapeFirst(p: string, rest: string)
    requires p != []
    ensures Escape(p) + rest == Lead(p[0]) + (Escape(p[1..]) + rest)
  {
    Associate(Lead(p[0]), Escape(p[1..]), rest);
  }

  /** Unescaping an escaped path, with something after it, gives the path and then the rest. */
  lemma {:induction false} UnescapedEscape(p: string, rest: string)
    ensures Unescaped(Escape(p) + rest) == p + Unescaped(rest)
  {
    if p == [] {
      assert Escape(p) + rest == rest;
    } else {
      hide *;
      UnescapedEscape(p[1..], rest);
      EscapeFirst(p, rest);
      LeadRead(p[0], Escape(p[1..]) + rest, []);
      HeadTail(p);
      Associate([p[0]], p[1..], Unescaped(rest));
    }
  }

  lemma UnescapeRoundTrip(p: string)
    ensures Unescaped(Escape(p)) == p
  {
    UnescapedEscape(p, []);
    assert Escape(p) + [] == Escape(p) && p + [] == p;
  }

  lemma {:induction false} TokensEscape(p: string, rest: string, cur: string)
    ensures Tokens(Escape(p) + rest, cur) == Tokens(rest, cur + p)
    decreases |p|
  {
    if p == [] {
      assert Escape(p) + rest == rest && cur + p == cur;
    } else {
      hide *;
      TokensEscape(p[1..], rest, cur + [p[0]]);
      EscapeFirst(p, rest);
      LeadRead(p[0], Escape(p[1..]) + rest, cur);
      HeadTail(p);
      Associate(cur, [p[0]], p[1..]);
    }
  }

  /** The colon after an escaped path is the first unescaped one. */
  lemma {:induction false} ColonAfterEscape(p: string, rest: string)
    ensures Colon(Escape(p) + (":" + rest)) == Some(|Escape(p)|)
  {
    if p == [] {
      assert Escape(p) + (":" + rest) == ":" + rest;
    } else {
      hide Colon, Lead;
      ColonAfterEscape(p[1..], rest);
      EscapeFirst(p, ":" + rest);
      LeadRead(p[0], Escape(p[1..]) + (":" + rest), []);
    }
  }

  lemma SplitRoundTrip(p: string, rest: string)
    ensures SplitOf(Escape(p) + ":" + rest) == Some((Escape(p), rest))
  {
    hide Colon, Escape;
    ColonAfterEscape(p, rest);
    var s := Escape(p) + ":" + rest;
    assert s == Escape(p) + (":" + rest);
    assert s[..|Escape(p)|] == Escape(p) && s[|Escape(p)| + 1..] == rest;
  }

  /** Escaped paths, each with a space before it. */
  function Spaced(paths: seq<string>): string {
    if paths == [] then [] else " " + Escape(paths[0]) + Spaced(paths[1..])
  }

  predicate NonEmpty(paths: seq<string>) {
    forall p :: p in paths ==> p != []
  }

  lemma SpaceFlushes(p: string, more: string, cur: string)
    ensures Tokens(" " + Escape(p) + more, cur) == Flush(cur) + Tokens(more, p)
  {
    hide Escape, Flush;
    var s := " " + Escape(p) + more;
    assert s[1..] == Escape(p) + more;
    TokensEscape(p, more, []);
    assert [] + p == p;
  }

  /** Complete paths are taken one by one; `last` is read on its own. */
  lemma {:induction false} TokensSpaced(front: seq<string>, last: string, cur: string)
    requires NonEmpty(front)
    ensures Tokens(Spaced(front) + (" " + last), cur) == Flush(cur) + (front + Tokens(last, []))
    decreases |front|
  {
    if front == [] {
      assert Spaced(front) + (" " + last) == " " + last && (" " + last)[1..] == last;
      assert front + Tokens(last, []) == Tokens(last, []);
    } else {
      hide Tokens, Escape;
      var p, more := front[0], Spaced(front[1..]) + (" " + last);
      Associate(" " + Escape(p), Spaced(front[1..]), " " + last);
      SpaceFlushes(p, more, cur);
      assert p in front && forall q :: q in front[1..] ==> q in front;
      TokensSpaced(front[1..], last, p);
      assert front == [p] + front[1..];
      hide *;
      FlushOne(p);
      Associate([p], front[1..], Tokens(last, []));
    }
  }

  lemma FlushOne(p: string)
    requires p != []
    ensures Flush(p) == [p]
  {
  }

  lemma {:induction false} SpacedEnd(paths: seq<string>)
    requires paths != []
    ensures Spaced(paths) == Spaced(paths[..|paths| - 1]) + (" " + Escape(paths[|paths| - 1]))
  {
    hide Escape;
    if |paths| == 1 {
      assert paths[1..] == [];
    } else {
      var front := paths[..|paths| - 1];
      SpacedEnd(paths[1..]);
      assert front[1..] == paths[1..][..|paths[1..]| - 1] && front[0] == paths[0];
      Associate(" " + Escape(paths[0]), Spaced(front[1..]), " " + Escape(paths[|paths| - 1]));
    }
  }

  lemma TokensOne(p: string)
    requires p != []
    ensures Tokens(Escape(p), []) == [p]
  {
    TokensEscape(p, [], []);
    assert Escape(p) + [] == Escape(p) && [] + p == p;
  }

  lemma FrontIsNonEmpty(paths: seq<string>)
    requires NonEmpty(paths) && paths != []
    ensures NonEmpty(paths[..|paths| - 1]) && paths[|paths| - 1] != []
    ensures paths == paths[..|paths| - 1] + [paths[|paths| - 1]]
  {
    assert paths[|paths| - 1] in paths;
    var front := paths[..|paths| - 1];
    forall p | p in front ensures p != [] {
      var i :| 0 <= i < |front| && front[i] == p;
      assert paths[i] in paths;
    }
  }

  /** Paths written with spaces between them are read back as the same list. */
  lemma TokeniseRoundTrip(paths: seq<string>)
    requires NonEmpty(paths)
    ensures Tokens(Spaced(paths), []) == paths
  {
    if paths != [] {
      hide Tokens, Escape, Spaced, NonEmpty;
      FrontIsNonEmpty(paths);
      SpacedEnd(paths);
      TokensSpaced(paths[..|paths| - 1], Escape(paths[|paths| - 1]), []);
      TokensOne(paths[|paths| - 1]);
    }
  }

  // ---- a whole rule line ----

  function WriteRule(target: string, sources: seq<string>): string {
    Escape(target) + ":" + Spaced(sources)
  }

  predicate EndsInSpace(p: string) {
    p != [] && IsSpace(p[|p| - 1])
  }

  lemma {:induction false} EscapeEnds(p: string)
    requires p != []
    ensures Escape(p) == Escape(p[..|p| - 1]) + Lead(p[|p| - 1])
    ensures !IsSpace(Escape(p)[0])
  {
    var n := |p| - 1;
    EscapeAppend(p[..n], [p[n]]);
    assert p == p[..n] + [p[n]];
    assert Escape([p[n]]) == Lead(p[n]) + [];
  }

  /** Trimming an escaped path changes it only if the path ends in white space: it loses that character, and keeps its backslash. */
  lemma TrimEscape(before: string, p: string)
    requires p != []
    ensures TrimEnd(before + Escape(p))
            == if EndsInSpace(p) then before + Escape(p[..|p| - 1]) + "\\" else before + Escape(p)
  {
    hide Escape;
    EscapeEnds(p);
    var s, c := before + Escape(p), p[|p| - 1];
    assert s == before + Escape(p[..|p| - 1]) + Lead(c);
    if IsSpace(c) {
      assert s[..|s| - 1] == before + Escape(p[..|p| - 1]) + "\\";
    }
  }

  /** What the parser makes of a path whose trailing white space was trimmed away. */
  function Clipped(p: string): string {
    if EndsInSpace(p) then p[..|p| - 1] + "\\" else p
  }

  lemma ClippedIsOther(p: string)
    ensures Clipped(p) == p <==> !EndsInSpace(p)
  {
    if EndsInSpace(p) {
      assert Clipped(p)[|p| - 1] == '\\';
    }
  }

  lemma UnescapedTrimmed(p: string)
    requires p != []
    ensures Unescaped(Trim(Escape(p))) == Clipped(p)
  {
    hide Escape, Unescaped;
    EscapeEnds(p);
    assert TrimStart(Escape(p)) == Escape(p);
    assert [] + Escape(p) == Escape(p);
    TrimEscape([], p);
    if EndsInSpace(p) {
      var q := p[..|p| - 1];
      assert [] + Escape(q) + "\\" == Escape(q) + "\\";
      UnescapedEscape(q, "\\");
      LoneBackslash([]);
    } else {
      UnescapeRoundTrip(p);
    }
  }

  lemma LoneBackslash(cur: string)
    ensures Unescaped("\\") == "\\" && Tokens("\\", cur) == [cur + "\\"]
  {
  }

  function ClipLast(paths: seq<string>): seq<string> {
    if paths == [] then [] else paths[..|paths| - 1] + [Clipped(paths[|paths| - 1])]
  }

  /** An escaped path after its end was trimmed. */
  function TrimmedEscape(p: string): string
    requires p != []
  {
    if EndsInSpace(p) then Escape(p[..|p| - 1]) + "\\" else Escape(p)
  }

  /** The text of the sources after the line was trimmed at its end. */
  function TrimmedSpaced(paths: seq<string>): string
    requires NonEmpty(paths)
  {
    if paths == [] then []
    else
      FrontIsNonEmpty(paths);
      Spaced(paths[..|paths| - 1]) + (" " + TrimmedEscape(paths[|paths| - 1]))
  }

  lemma TokensTrimmed(p: string)
    requires p != []
    ensures Tokens(TrimmedEscape(p), []) == [Clipped(p)]
  {
    hide Tokens, Escape;
    if EndsInSpace(p) {
      var q := p[..|p| - 1];
      TokensEscape(q, "\\", []);
      assert [] + q == q;
      LoneBackslash(q);
    } else {
      TokensOne(p);
    }
  }

  lemma TrimmedEnd(p: string)
    requires p != []
    ensures TrimmedEscape(p) != [] && !IsSpace(TrimmedEscape(p)[|TrimmedEscape(p)| - 1])
  {
    hide Escape;
    EscapeEnds(p);
  }

  /** Reading the sources back, trimmed once with the line and once on their own. */
  lemma SourcesRead(paths: seq<string>)
    requires NonEmpty(paths)
    ensures Tokens(Trim(TrimmedSpaced(paths)), []) == ClipLast(paths)
  {
    hide Escape, Spaced, TrimmedEscape, Clipped, NonEmpty;
    if paths == [] {
      assert Trim([]) == [];
    } else {
      FrontIsNonEmpty(paths);
      var front, last := paths[..|paths| - 1], TrimmedEscape(paths[|paths| - 1]);
      TrimmedEnd(paths[|paths| - 1]);
      TokensSpaced(front, last, []);
      TokensTrimmed(paths[|paths| - 1]);
      LeadingSpaces(Spaced(front) + (" " + last));
      NoTrailingSpace(Spaced(front) + " ", last);
      Associate(Spaced(front), " ", last);
    }
  }

  /** Spaces in front make no difference to the tokeniser. */
  lemma {:induction false} LeadingSpaces(s: string)
    ensures Tokens(TrimStart(s), []) == Tokens(s, [])
    decreases |s|
  {
    if s != [] && IsSpace(s[0]) {
      LeadingSpaces(s[1..]);
    }
  }

  lemma NoTrailingSpace(before: string, last: string)
    requires last != [] && !IsSpace(last[|last| - 1])
    ensures Trim(before + last) == TrimStart(before + last)
  {
    TrimStartKeepsEnd(before + last);
  }

  lemma {:induction false} TrimStartKeepsEnd(s: string)
    requires s != [] && !IsSpace(s[|s| - 1])
    ensures TrimStart(s) != [] && TrimStart(s)[|TrimStart(s)| - 1] == s[|s| - 1]
    decreases |s|
  {
    if IsSpace(s[0]) {
      TrimStartKeepsEnd(s[1..]);
    }
  }

  lemma LineTrimmed(target: string, sources: seq<string>)
    requires target != [] && NonEmpty(sources)
    ensures Trim(WriteRule(target, sources)) == Escape(target) + ":" + TrimmedSpaced(sources)
  {
    hide Escape, Spaced, NonEmpty, TrimmedEscape, Trim;
    var t := Escape(target) + ":";
    EscapeEnds(target);
    if sources == [] {
      SpacedNothing();
      assert t + [] == t;
      TrimNothing(t);
    } else {
      FrontIsNonEmpty(sources);
      SpacedEnd(sources);
      var front, last := sources[..|sources| - 1], sources[|sources| - 1];
      Associate(t, Spaced(front), " " + Escape(last));
      Associate(t + Spaced(front), " ", Escape(last));
      Associate(t, Spaced(front), " " + TrimmedEscape(last));
      Associate(t + Spaced(front), " ", TrimmedEscape(last));
      TrimAtEnd(t + Spaced(front) + " ", last);
    }
  }

  lemma TrimNothing(s: string)
    requires s != [] && !IsSpace(s[0]) && !IsSpace(s[|s| - 1])
    ensures Trim(s) == s
  {
  }

  lemma TrimAtEnd(before: string, last: string)
    requires before != [] && !IsSpace(before[0]) && last != []
    ensures Trim(before + Escape(last)) == before + TrimmedEscape(last)
  {
    hide Escape;
    var s := before + Escape(last);
    assert TrimStart(s) == s;
    TrimEscape(before, last);
    Associate(before, Escape(last[..|last| - 1]), "\\");
  }

  lemma SpacedNothing()
    ensures Spaced([]) == []
  {
  }

  /**
   What a rule line is read back as. A target that starts with a hash is taken for a comment; a target or a
   last source that ends in white space loses that character to the trimming and keeps the backslash.
   */
  lemma RuleIsRead(target: string, sources: seq<string>)
    requires target != [] && NonEmpty(sources)
    ensures RuleOf(WriteRule(target, sources))
            == if target[0] == '#' then None else Some((Clipped(target), ClipLast(sources)))
  {
    hide Escape, Spaced, NonEmpty, Tokens, Unescaped, Trim, SplitOf, ClipLast, TrimmedSpaced, Clipped;
    LineTrimmed(target, sources);
    SplitRoundTrip(target, TrimmedSpaced(sources));
    UnescapedTrimmed(target);
    SourcesRead(sources);
    FirstEscaped(target);
    ClippedIsNonEmpty(target);
  }

  lemma FirstEscaped(p: string)
    requires p != []
    ensures Escape(p) != [] && (Escape(p)[0] == '#' <==> p[0] == '#')
  {
  }

  lemma ClippedIsNonEmpty(p: string)
    requires p != []
    ensures Clipped(p) != []
  {
  }

  /** A rule is read back exactly as it was written if and only if none of the three traps is sprung. */
  lemma RuleRoundTripExactly(target: string, sources: seq<string>)
    requires target != [] && NonEmpty(sources)
    ensures RuleOf(WriteRule(target, sources)) == Some((target, sources))
            <==> target[0] != '#' && !EndsInSpace(target)
                 && (sources == [] || !EndsInSpace(sources[|sources| - 1]))
  {
    hide RuleOf, WriteRule, NonEmpty, Clipped;
    RuleIsRead(target, sources);
    ClippedIsOther(target);
    if sources != [] {
      var last := sources[|sources| - 1];
      ClippedIsOther(last);
      FrontIsNonEmpty(sources);
      assert ClipLast(sources)[|sources| - 1] == Clipped(last);
    }
  }

  /** A target that starts with a hash is lost; one that ends in a space comes back with a backslash for it, and so does a last source. */
  lemma RulesThatChange()
    ensures RuleOf(WriteRule("#a", ["b"])) == None
    ensures RuleOf(WriteRule("a ", [])) == Some(("a\\", []))
    ensures RuleOf(WriteRule("a", ["b "])) == Some(("a", ["b\\"]))
  {
    hide RuleOf, WriteRule;
    RuleIsRead("#a", ["b"]);
    RuleIsRead("a ", []);
    RuleIsRead("a", ["b "]);
    assert "a "[..1] == "a" && "b "[..1] == "b" && ["b "][..0] == [];
    assert Clipped("b ") == "b\\" && Clipped("a ") == "a\\";
    assert ClipLast(["b "]) == ["b\\"] && ClipLast([]) == [];
  }
}
