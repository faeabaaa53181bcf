/** Text as lines: splitting, joining, and the blank-line tidying both fence styles share. */
module TextLines {
  /** The text split at newlines; a final newline does not open another line. */
  function Lines(s: string): (ls: seq<string>)
  {
    if s == [] then []
    else
      var rest := Lines(s[1..]);
      if s[0] == '\n' then [[]] + rest
      else if rest == [] then [[s[0]]]
      else [[s[0]] + rest[0]] + rest[1..]
  }

  function Join(ls: seq<string>): string {
    if ls == [] then []
    else if |ls| == 1 then ls[0]
    else ls[0] + "\n" + Join(ls[1..])
  }

  /** Every line followed by a newline. */
  function Unlines(ls: seq<string>): string {
    if ls == [] then [] else ls[0] + "\n" + Unlines(ls[1..])
  }

  predicate EndsInNewline(s: string) {
    s != [] && s[|s| - 1] == '\n'
  }

  /** The text without its trailing newlines. */
  function TrimNewlines(s: string): (r: string)
    ensures r <= s && !EndsInNewline(r)
  {
    if EndsInNewline(s) then TrimNewlines(s[..|s| - 1]) else s
  }

  ghost predicate SingleLines(ls: seq<string>) {
    forall l :: l in ls ==> '\n' !in l
  }

  lemma {:induction false} LinesAreSingle(s: string)
    ensures SingleLines(Lines(s)) && (s != [] ==> Lines(s) != [])
  {
    if s != [] { LinesAreSingle(s[1..]); }
  }

  lemma {:induction false} LinesOfOne(l: string, rest: string)
    requires '\n' !in l
    ensures Lines(l + "\n" + rest) == [l] + Lines(rest)
    decreases l
  {
    if l == [] {
      assert l + "\n" + rest == "\n" + rest;
    } else {
      LinesOfOne(l[1..], rest);
      assert (l + "\n" + rest)[1..] == l[1..] + "\n" + rest;
      assert l == [l[0]] + l[1..];
    }
  }

  lemma {:induction false} LinesUnlines(ls: seq<string>)
    requires SingleLines(ls)
    ensures Lines(Unlines(ls)) == ls
    decreases ls
  {
    if ls != [] {
      LinesOfOne(ls[0], Unlines(ls[1..]));
      LinesUnlines(ls[1..]);
    }
  }

  lemma {:induction false} UnlinesJoin(ls: seq<string>)
    requires ls != []
    ensures Unlines(ls) == Join(ls) + "\n"
    decreases ls
  {
    if |ls| > 1 {
      UnlinesJoin(ls[1..]);
    } else {
      assert Unlines(ls[1..]) == [];
    }
  }

  /** The lines, joined again, are the text up to its final newline. */
  lemma {:induction false} JoinLines(s: string)
    ensures s == Join(Lines(s)) + if EndsInNewline(s) then "\n" else []
  {
    if s != [] {
      JoinLines(s[1..]);
      LinesAreSingle(s[1..]);
      var rest := Lines(s[1..]);
      assert s == [s[0]] + s[1..];
      if |s| == 1 {
        assert rest == [];
      } else {
        assert EndsInNewline(s) == EndsInNewline(s[1..]);
        if s[0] == '\n' {
          assert Lines(s)[1..] == rest;
        } else {
          assert Lines(s)[1..] == rest[1..];
          assert |rest| > 1 ==> Join(rest) == rest[0] + "\n" + Join(rest[1..]);
        }
      }
    }
  }

  lemma {:induction false} LinesOfLast(l: string)
    requires '\n' !in l && l != []
    ensures Lines(l) == [l]
  {
    if |l| > 1 {
      LinesOfLast(l[1..]);
      assert l == [l[0]] + l[1..];
    } else {
      assert Lines(l[1..]) == [] && l == [l[0]];
    }
  }

  lemma {:induction false} LinesJoin(ls: seq<string>)
    requires SingleLines(ls) && ls != [] && ls[|ls| - 1] != []
    ensures Lines(Join(ls)) == ls
    decreases ls
  {
    if |ls| == 1 {
      LinesOfLast(ls[0]);
    } else {
      LinesJoin(ls[1..]);
      LinesOfOne(ls[0], Join(ls[1..]));
    }
  }

  lemma {:induction false} JoinEnd(ls: seq<string>)
    requires SingleLines(ls) && ls != [] && ls[|ls| - 1] != []
    ensures Join(ls) != [] && !EndsInNewline(Join(ls))
    decreases ls
  {
    if |ls| > 1 {
      JoinEnd(ls[1..]);
    } else {
      assert ls[0][|ls[0]| - 1] in ls[0];
    }
  }

  /** Newline-terminated text is its lines, each ended by a newline. */
  lemma TerminatedText(s: string)
    requires s == [] || EndsInNewline(s)
    ensures s == Unlines(Lines(s))
  {
    JoinLines(s);
    LinesAreSingle(s);
    if s != [] { UnlinesJoin(Lines(s)); }
  }

  lemma {:induction false} UnlinesConcat(a: seq<string>, b: seq<string>)
    ensures Unlines(a + b) == Unlines(a) + Unlines(b)
    decreases a
  {
    if a == [] {
      assert a + b == b;
    } else {
      UnlinesConcat(a[1..], b);
      assert (a + b)[0] == a[0] && (a + b)[1..] == a[1..] + b;
      Associate(a[0] + "\n", Unlines(a[1..]), Unlines(b));
    }
  }

  lemma Associate<T>(a: seq<T>, b: seq<T>, c: seq<T>)
    ensures a + (b + c) == a + b + c
  {
  }

  lemma NoLines()
    ensures Unlines([]) == []
  {
  }

  lemma UnlinesEnds(ls: seq<string>)
    ensures Unlines(ls) == [] <==> ls == []
    ensures ls != [] ==> EndsInNewline(Unlines(ls))
  {
    if ls != [] { UnlinesJoin(ls); }
  }

  // ---- blank lines ----

  /** Runs of blank lines become one; `prev` tells whether a blank line came just before. */
  function Collapse(prev: bool, ls: seq<string>): seq<string>
    decreases ls
  {
    if ls == [] then []
    else if ls[0] == [] && prev then Collapse(true, ls[1..])
    else [ls[0]] + Collapse(ls[0] == [], ls[1..])
  }

  function TrimBlanks(ls: seq<string>): seq<string> {
    if ls != [] && ls[|ls| - 1] == [] then TrimBlanks(ls[..|ls| - 1]) else ls
  }

  function Tidied(ls: seq<string>): seq<string> {
    TrimBlanks(Collapse(false, ls))
  }

  /** No two blank lines in a row, and none at the end. */
  ghost predicate IsTidy(ls: seq<string>) {
    && (forall i :: 0 <= i < |ls| - 1 ==> ls[i] != [] || ls[i + 1] != [])
    && (ls != [] ==> ls[|ls| - 1] != [])
  }

  predicate EndBlank(prev: bool, ls: seq<string>) {
    if ls == [] then prev else ls[|ls| - 1] == []
  }

  /** The two loops: one pass that skips repeated blanks, then popping blanks off the end. */
  method Tidy(out: seq<string>) returns (collapsed: seq<string>)
    ensures collapsed == Tidied(out)
  {
    collapsed := [];
    var prevBlank := false;
    for i := 0 to |out|
      invariant collapsed + Collapse(prevBlank, out[i..]) == Collapse(false, out)
    {
      var isBlank := out[i] == [];
      assert out[i..][0] == out[i] && out[i..][1..] == out[i + 1..];
      if isBlank && prevBlank {
        continue;
      }
      collapsed := collapsed + [out[i]];
      prevBlank := isBlank;
    }
    assert collapsed + Collapse(prevBlank, out[|out|..]) == collapsed;
    while collapsed != [] && collapsed[|collapsed| - 1] == []
      invariant TrimBlanks(collapsed) == Tidied(out)
      decreases |collapsed|
    {
      collapsed := collapsed[..|collapsed| - 1];
    }
  }

  lemma {:induction false} CollapseConcat(prev: bool, a: seq<string>, b: seq<string>)
    ensures Collapse(prev, a + b) == Collapse(prev, a) + Collapse(EndBlank(prev, a), b)
    decreases a
  {
    if a == [] {
      assert a + b == b;
    } else {
      assert (a + b)[0] == a[0] && (a + b)[1..] == a[1..] + b;
      CollapseConcat(a[0] == [], a[1..], b);
      if a[0] == [] && prev { CollapseConcat(true, a[1..], b); }
    }
  }

  lemma {:induction false} CollapseShape(prev: bool, ls: seq<string>)
    ensures var r := Collapse(prev, ls);
      && (forall i :: 0 <= i < |r| - 1 ==> r[i] != [] || r[i + 1] != [])
      && (prev && r != [] ==> r[0] != [])
      && EndBlank(prev, r) == EndBlank(prev, ls)
    decreases ls
  {
    if ls != [] {
      CollapseShape(ls[0] == [], ls[1..]);
    }
  }

  lemma {:induction false} CollapseFix(prev: bool, ls: seq<string>)
    requires forall i :: 0 <= i < |ls| - 1 ==> ls[i] != [] || ls[i + 1] != []
    requires prev && ls != [] ==> ls[0] != []
    ensures Collapse(prev, ls) == ls
    decreases ls
  {
    if ls != [] {
      CollapseFix(ls[0] == [], ls[1..]);
    }
  }

  lemma CollapseTwice(prev: bool, ls: seq<string>)
    ensures Collapse(prev, Collapse(prev, ls)) == Collapse(prev, ls)
  {
    CollapseShape(prev, ls);
    CollapseFix(prev, Collapse(prev, ls));
  }

  lemma {:induction false} TrimShape(ls: seq<string>)
    ensures TrimBlanks(ls) <= ls && (TrimBlanks(ls) != [] ==> TrimBlanks(ls)[|TrimBlanks(ls)| - 1] != [])
    ensures forall i :: |TrimBlanks(ls)| <= i < |ls| ==> ls[i] == []
    decreases ls
  {
    if ls != [] && ls[|ls| - 1] == [] {
      TrimShape(ls[..|ls| - 1]);
    }
  }

  /** Tidying gives tidy text, and changes exactly the texts that are not tidy. */
  lemma TidiedIsTidy(ls: seq<string>)
    ensures IsTidy(Tidied(ls))
    ensures Tidied(ls) == ls <==> IsTidy(ls)
  {
    CollapseShape(false, ls);
    TrimShape(Collapse(false, ls));
    if IsTidy(ls) { CollapseFix(false, ls); }
  }

  function NonBlank(ls: seq<string>): seq<string> {
    if ls == [] then [] else (if ls[0] == [] then [] else [ls[0]]) + NonBlank(ls[1..])
  }

  lemma {:induction false} NonBlankConcat(a: seq<string>, b: seq<string>)
    ensures NonBlank(a + b) == NonBlank(a) + NonBlank(b)
    decreases a
  {
    if a == [] {
      assert a + b == b;
    } else {
      NonBlankConcat(a[1..], b);
      assert (a + b)[0] == a[0] && (a + b)[1..] == a[1..] + b;
      Associate(if a[0] == [] then [] else [a[0]], NonBlank(a[1..]), NonBlank(b));
    }
  }

  /** Only blank lines are ever lost. */
  lemma {:induction false} CollapseNonBlank(prev: bool, ls: seq<string>)
    ensures NonBlank(Collapse(prev, ls)) == NonBlank(ls)
    decreases ls
  {
    if ls != [] {
      CollapseNonBlank(ls[0] == [], ls[1..]);
      if ls[0] == [] && prev { CollapseNonBlank(true, ls[1..]); }
      else { NonBlankConcat([ls[0]], Collapse(ls[0] == [], ls[1..])); }
    }
  }

  lemma {:induction false} TrimNonBlank(ls: seq<string>)
    ensures NonBlank(TrimBlanks(ls)) == NonBlank(ls)
    decreases ls
  {
    if ls != [] && ls[|ls| - 1] == [] {
      TrimNonBlank(ls[..|ls| - 1]);
      NonBlankConcat(ls[..|ls| - 1], [[]]);
      assert ls == ls[..|ls| - 1] + [[]];
    }
  }

  lemma TidiedNonBlank(ls: seq<string>)
    ensures NonBlank(Tidied(ls)) == NonBlank(ls)
  {
    CollapseNonBlank(false, ls);
    TrimNonBlank(Collapse(false, ls));
  }

  /** Tidying the two halves first changes nothing. */
  lemma TidiedAbsorbs(p: seq<string>, x: seq<string>)
    ensures Tidied(Collapse(false, p) + Tidied(x)) == Tidied(p + x)
  {
    var cp, cx := Collapse(false, p), Collapse(false, x);
    CollapseConcat(false, p, x);
    CollapseTwice(false, p);
    CollapseShape(false, p);
    var t := TrimBlanks(cx);
    CollapseConcat(false, cp, t);
    TailAbsorbs(EndBlank(false, p), x);
    TrimPrefix(cp, Collapse(EndBlank(false, p), t), Collapse(EndBlank(false, p), x));
  }

  lemma {:induction false} TrimPrefix(p: seq<string>, a: seq<string>, b: seq<string>)
    requires TrimBlanks(a) == TrimBlanks(b)
    ensures TrimBlanks(p + a) == TrimBlanks(p + b)
  {
    TrimConcat(p, a);
    TrimConcat(p, b);
  }

  lemma {:induction false} TrimConcat(p: seq<string>, a: seq<string>)
    ensures TrimBlanks(p + a) == if TrimBlanks(a) == [] then TrimBlanks(p) else p + TrimBlanks(a)
    decreases a
  {
    if a == [] {
      assert p + a == p;
    } else if a[|a| - 1] == [] {
      assert (p + a)[..|p + a| - 1] == p + a[..|a| - 1];
      TrimConcat(p, a[..|a| - 1]);
    }
  }

  lemma TailAbsorbs(prev: bool, x: seq<string>)
    ensures TrimBlanks(Collapse(prev, Tidied(x))) == TrimBlanks(Collapse(prev, x))
  {
    var cx := Collapse(false, x);
    var t := TrimBlanks(cx);
    CollapseShape(false, x);
    TrimShape(cx);
    assert cx == t + cx[|t|..];
    CollapseConcat(prev, t, cx[|t|..]);
    AllBlankCollapse(EndBlank(prev, t), cx[|t|..]);
    CollapsePrev(prev, x);
    TrimConcat(Collapse(prev, t), Collapse(EndBlank(prev, t), cx[|t|..]));
  }

  lemma {:induction false} AllBlankCollapse(prev: bool, ls: seq<string>)
    requires forall i :: 0 <= i < |ls| ==> ls[i] == []
    ensures TrimBlanks(Collapse(prev, ls)) == []
    decreases ls
  {
    if ls != [] {
      AllBlankCollapse(true, ls[1..]);
      var r := Collapse(true, ls[1..]);
      TrimConcat([[]], r);
    }
  }

  lemma {:induction false} CollapsePrev(prev: bool, x: seq<string>)
    ensures Collapse(prev, Collapse(false, x)) == Collapse(prev, x)
  {
    if x != [] {
      if x[0] == [] && prev {
        CollapseTwice(true, x[1..]);
      } else {
        CollapseTwice(x[0] == [], x[1..]);
      }
    }
  }
}
