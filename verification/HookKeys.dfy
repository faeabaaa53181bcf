/** The keys that installing many hooks leaves behind, and what tidying and sweeping make of them. */
module HookKeys {
  import opened TextLines
  import opened Chars
  import opened YamlFence
  import opened ClaudeDeploy
  import opened ClaudeRoundTrip

  predicate HasKey(ls: seq<string>, verb: string) {
    FindKey(ls, VerbKey(verb), 0) < |ls|
  }

  lemma {:induction false} NoneMissing(ls: seq<string>, vs: seq<string>)
    requires forall v :: v in vs ==> HasKey(ls, v)
    ensures KeyedAll(ls, vs) == ls
    decreases vs
  {
    hide HasKey, Keyed;
    if vs != [] {
      assert vs[0] in vs;
      KeyThere(ls, vs[0]);
      NoneMissing(ls, vs[1..]);
    }
  }

  lemma KeyThere(ls: seq<string>, v: string)
    requires HasKey(ls, v)
    ensures Keyed(ls, v) == ls
  {
    hide Keyed, FindKey, VerbKey;
    KeyedThere(ls, v);
  }

  /** With a `hooks:` line, the missing keys all go right behind it. */
  lemma {:induction false} MissingKeys(a: seq<string>, h: string, k: seq<string>, b: seq<string>, vs: seq<string>)
    returns (k': seq<string>)
    requires TrimEnd(h) == HOOKS && forall l :: l in a ==> TrimEnd(l) != HOOKS
    requires forall l :: l in k ==> IsWorkflowKey(l)
    requires forall v :: v in vs ==> IsWorkflowKey(VerbKey(v))
    ensures KeyedAll(a + [h] + k + b, vs) == a + [h] + k' + b && forall l :: l in k' ==> IsWorkflowKey(l)
    ensures k' == [] <==> k == [] && forall v :: v in vs ==> HasKey(a + [h] + b, v)
    decreases vs
  {
    hide HasKey, Keyed, IsWorkflowKey, VerbKey;
    k' := k;
    if vs != [] {
      var v := vs[0];
      assert v in vs && vs == [v] + vs[1..];
      assert k == [] ==> a + [h] + k + b == a + [h] + b;
      if HasKey(a + [h] + k + b, v) {
        KeyThere(a + [h] + k + b, v);
        k' := MissingKeys(a, h, k, b, vs[1..]);
      } else {
        KeyBehindHooks(a, h, k, b, v);
        k' := MissingKeys(a, h, [VerbKey(v)] + k, b, vs[1..]);
      }
    }
  }

  lemma KeyBehindHooks(a: seq<string>, h: string, k: seq<string>, b: seq<string>, v: string)
    requires TrimEnd(h) == HOOKS && forall l :: l in a ==> TrimEnd(l) != HOOKS
    requires !HasKey(a + [h] + k + b, v)
    ensures Keyed(a + [h] + k + b, v) == a + [h] + ([VerbKey(v)] + k) + b
  {
    hide Keyed, VerbKey, FindKey, TrimEnd;
    var ls, c := a + [h] + k + b, k + b;
    assert ls == a + [h] + c;
    FirstHooks(a, h, c);
    KeyedUnderHooks(ls, v, |a|, VerbKey(v));
    BehindLine(a, h, c);
    assert a + [h] + [VerbKey(v)] + c == a + [h] + ([VerbKey(v)] + k) + b;
  }

  lemma BehindLine(a: seq<string>, h: string, c: seq<string>)
    ensures (a + [h] + c)[..|a| + 1] == a + [h] && (a + [h] + c)[|a| + 1..] == c
  {
  }

  lemma FirstHooks(a: seq<string>, h: string, b: seq<string>)
    requires TrimEnd(h) == HOOKS && forall l :: l in a ==> TrimEnd(l) != HOOKS
    ensures FindKey(a + [h] + b, HOOKS, 0) == |a|
  {
    var ls := a + [h] + b;
    assert forall i :: 0 <= i < |a| ==> ls[i] == a[i];
    assert ls[|a|] == h;
  }

  /** Without one, a missing key brings a `hooks:` line that stays. */
  lemma {:induction false} NewHooksStays(ls: seq<string>, vs: seq<string>, v: string)
    requires v in vs && !HasKey(ls, v) && FindKey(ls, HOOKS, 0) == |ls|
    ensures HOOKS in KeyedAll(ls, vs)
    decreases vs
  {
    hide Keyed, FindKey, VerbKey;
    if HasKey(ls, vs[0]) {
      KeyThere(ls, vs[0]);
      NewHooksStays(ls, vs[1..], v);
    } else {
      KeyedAtEnd(ls, vs[0]);
      KeyedAllKeeps(Keyed(ls, vs[0]), vs[1..], HOOKS);
    }
  }

  lemma {:induction false} KeyedAllKeeps(ls: seq<string>, vs: seq<string>, l: string)
    requires l in ls
    ensures l in KeyedAll(ls, vs)
    decreases vs
  {
    hide Keyed, FindKey, VerbKey;
    if vs != [] {
      KeyedKeeps(ls, vs[0], l);
      KeyedAllKeeps(Keyed(ls, vs[0]), vs[1..], l);
    }
  }

  lemma KeyedKeeps(ls: seq<string>, v: string, l: string)
    requires l in ls
    ensures l in Keyed(ls, v)
  {
    hide Keyed, FindKey, VerbKey;
    if FindKey(ls, VerbKey(v), 0) < |ls| { KeyedThere(ls, v); } else { KeyedHasKey(ls, v); }
  }

  lemma {:induction false} KeyedAllSingle(ls: seq<string>, vs: seq<string>)
    requires SingleLines(ls) && SingleLines(vs)
    ensures SingleLines(KeyedAll(ls, vs))
    decreases vs
  {
    hide Before, After;
    if vs != [] {
      assert vs[0] in vs;
      SidesSingle(ls, vs[0]);
      KeyedAllSingle(Keyed(ls, vs[0]), vs[1..]);
    }
  }

  lemma {:induction false} KeyedAllNotBlank(ls: seq<string>, vs: seq<string>)
    requires vs != [] || NonBlank(ls) != []
    ensures NonBlank(KeyedAll(ls, vs)) != []
    decreases vs
  {
    hide Keyed, NonBlank;
    if vs != [] {
      KeyedNotEmpty(ls, vs[0]);
      KeyedAllNotBlank(Keyed(ls, vs[0]), vs[1..]);
    }
  }

  /** The lines with every missing key put in, tidied, and swept of the keys without hooks. */
  function Leftover(ls: seq<string>, vs: seq<string>): seq<string> {
    Kept(Tidied(KeyedAll(ls, vs)), 0)
  }

  // ---- blank lines ----

  function Blanks(ls: seq<string>): int {
    |ls| - |NonBlank(ls)|
  }

  lemma {:induction false} CollapseShorter(prev: bool, ls: seq<string>)
    ensures |Collapse(prev, ls)| <= |ls| && (|Collapse(prev, ls)| == |ls| ==> Collapse(prev, ls) == ls)
    decreases ls
  {
    if ls != [] {
      CollapseShorter(true, ls[1..]);
      CollapseShorter(ls[0] == [], ls[1..]);
    }
  }

  /** Tidying a text that is not tidy loses a blank line. */
  lemma TidiedLoses(ls: seq<string>)
    requires !IsTidy(ls)
    ensures Blanks(Tidied(ls)) < Blanks(ls)
  {
    hide IsTidy, Collapse, TrimBlanks, NonBlank;
    TidiedIsTidy(ls);
    TidiedNonBlank(ls);
    CollapseShorter(false, ls);
    TrimShape(Collapse(false, ls));
  }

  /** The sweep drops no blank line. */
  lemma {:induction false} SweepKeepsBlanks(ls: seq<string>, i: nat)
    requires i <= |ls|
    ensures Blanks(Kept(ls, i)) == Blanks(ls[i..])
    decreases |ls| - i
  {
    hide IsWorkflowKey, HasChildren;
    if i < |ls| {
      SweepKeepsBlanks(ls, i + 1);
      assert ls[i..] == [ls[i]] + ls[i + 1..];
      NonBlankConcat([ls[i]], ls[i + 1..]);
      NonBlankConcat([ls[i]], Kept(ls, i + 1));
      OneNonBlank(ls[i]);
      if !Keeps(ls, i) {
        WorkflowKeyFacts(ls[i]);
        assert Kept(ls, i) == Kept(ls, i + 1);
      }
    }
  }

  lemma OneNonBlank(l: string)
    ensures NonBlank([l]) == if l == [] then [] else [l]
  {
    assert [l][1..] == [];
  }

  /** A file that is not tidy does not come back, whatever is swept. */
  lemma UntidyIsLost(original: seq<string>, ls: seq<string>)
    requires Blanks(ls) == Blanks(original) && !IsTidy(ls)
    ensures Kept(Tidied(ls), 0) != original
  {
    hide Blanks, Kept, Tidied, IsTidy;
    TidiedLoses(ls);
    SweepKeepsBlanks(Tidied(ls), 0);
    assert Tidied(ls)[0..] == Tidied(ls);
  }

  /** Keys behind `hooks:` neither add blank lines nor disturb tidy ones. */
  lemma KeysAndBlanks(a: seq<string>, h: string, keys: seq<string>, b: seq<string>)
    requires TrimEnd(h) == HOOKS && forall l :: l in keys ==> IsWorkflowKey(l)
    ensures Blanks(a + [h] + keys + b) == Blanks(a + [h] + b)
    ensures IsTidy(a + [h] + keys + b) <==> IsTidy(a + [h] + b)
  {
    hide IsWorkflowKey, IsTidy;
    forall l | l in keys ensures l != [] { WorkflowKeyFacts(l); }
    assert forall i :: 0 <= i < |keys| ==> keys[i] in keys;
    NoBlanksIn(keys);
    NonBlankConcat(a + [h] + keys, b);
    NonBlankConcat(a + [h], keys);
    NonBlankConcat(a + [h], b);
    TidyAround(a + [h], keys, b);
  }

  lemma {:induction false} NoBlanksIn(ls: seq<string>)
    requires forall l :: l in ls ==> l != []
    ensures NonBlank(ls) == ls
    decreases ls
  {
    if ls != [] {
      assert ls[0] in ls && forall l :: l in ls[1..] ==> l in ls;
      NoBlanksIn(ls[1..]);
    }
  }

  lemma PartAt(p: seq<string>, m: seq<string>, s: seq<string>, i: nat)
    requires i < |p| + |m| + |s|
    ensures (p + m + s)[i] == if i < |p| then p[i] else if i < |p| + |m| then m[i - |p|] else (p + s)[i - |m|]
    ensures i < |p| ==> (p + s)[i] == p[i]
  {
  }

  lemma TidyAround(p: seq<string>, m: seq<string>, s: seq<string>)
    requires p != [] && p[|p| - 1] != [] && forall i :: 0 <= i < |m| ==> m[i] != []
    ensures IsTidy(p + m + s) <==> IsTidy(p + s)
  {
    if IsTidy(p + s) { TidyWith(p, m, s); }
    if IsTidy(p + m + s) { TidyWithout(p, m, s); }
  }

  lemma TidyWith(p: seq<string>, m: seq<string>, s: seq<string>)
    requires p != [] && p[|p| - 1] != [] && forall i :: 0 <= i < |m| ==> m[i] != []
    requires IsTidy(p + s)
    ensures IsTidy(p + m + s)
  {
    var x, y := p + m + s, p + s;
    forall i | 0 <= i < |x| - 1 ensures x[i] != [] || x[i + 1] != [] {
      PartAt(p, m, s, i);
      PartAt(p, m, s, i + 1);
      if i < |p| - 1 { assert y[i] != [] || y[i + 1] != []; }
    }
    PartAt(p, m, s, |x| - 1);
  }

  lemma TidyWithout(p: seq<string>, m: seq<string>, s: seq<string>)
    requires p != [] && p[|p| - 1] != []
    requires IsTidy(p + m + s)
    ensures IsTidy(p + s)
  {
    var x, y := p + m + s, p + s;
    forall i | 0 <= i < |y| - 1 ensures y[i] != [] || y[i + 1] != [] {
      var j := if i < |p| then i else i + |m|;
      PartAt(p, m, s, j);
      PartAt(p, m, s, j + 1);
      assert i != |p| - 1 ==> x[j] != [] || x[j + 1] != [];
    }
    PartAt(p, m, s, |x| - 1);
  }

  // ---- from lines back to the file ----

  /** A line that is neither blank nor a workflow key survives tidying and sweeping. */
  lemma LineStays(ls: seq<string>, l: string)
    requires l in ls && l != [] && !IsWorkflowKey(l)
    ensures l in Kept(Tidied(ls), 0)
  {
    hide IsWorkflowKey, Tidied, NonBlank, Kept;
    NonBlankHas(ls, l);
    TidiedNonBlank(ls);
    NonBlankOf(Tidied(ls), l);
    var i :| 0 <= i < |Tidied(ls)| && Tidied(ls)[i] == l;
    SweepKeeps(Tidied(ls), 0, i);
  }

  lemma {:induction false} SweepKeeps(ls: seq<string>, from: nat, i: nat)
    requires from <= i < |ls| && !IsWorkflowKey(ls[i])
    ensures ls[i] in Kept(ls, from)
    decreases i - from
  {
    hide IsWorkflowKey, HasChildren;
    if from < i { SweepKeeps(ls, from + 1, i); }
  }

  lemma {:induction false} SweepSubset(ls: seq<string>, i: nat)
    requires i <= |ls|
    ensures forall l :: l in Kept(ls, i) ==> l in ls
    decreases |ls| - i
  {
    hide Keeps;
    if i < |ls| { SweepSubset(ls, i + 1); }
  }

  lemma {:induction false} JoinNonBlank(ls: seq<string>)
    requires NonBlank(ls) != []
    ensures Join(ls) != []
    decreases ls
  {
    if |ls| == 1 {
      assert ls[1..] == [];
    }
  }

  /** Lines written out are the file exactly when they are its lines. */
  lemma SameText(text: string, ls: seq<string>)
    requires SingleLines(ls) && (NonBlank(ls) != [] || NonBlank(Lines(text)) != [])
    ensures Terminated(ls, EndsInNewline(text)) == text <==> ls == Lines(text)
  {
    hide NonBlank, Unlines, Lines, Join;
    JoinLines(text);
    NoText(EndsInNewline(text));
    if Terminated(ls, EndsInNewline(text)) == text {
      if NonBlank(ls) != [] { JoinNonBlank(ls); }
      if ls != [] {
        UnlinesJoin(ls);
        LinesUnlines(ls);
        assert Join(ls) + [] == Join(ls);
        if ls[|ls| - 1] == [] { JoinBlankEnd(ls); } else { LinesJoin(ls); }
      }
    }
  }

  lemma NoText(newline: bool)
    ensures NonBlank([]) == [] && NonBlank(Lines(Terminated([], newline))) == []
    ensures Terminated([], newline) == if newline then "\n" else []
  {
    assert "\n"[1..] == [] && Lines("\n") == [[]] && Lines("\n")[1..] == [];
  }
}
