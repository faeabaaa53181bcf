/** Where the fences of installed hooks end up: each one in the list under its own key. */
module HookPlaces {
  import opened TextLines
  import opened Chars
  import opened Fencing
  import opened YamlFence
  import opened YamlPieces
  import opened ClaudeDeploy
  import opened ClaudeRoundTrip

  /** The fence stands at line `j`, with nothing but hook lines and blank lines between it and its key on line `i`. */
  ghost predicate StandsAt(ls: seq<string>, key: string, f: seq<string>, i: nat, j: nat) {
    && FirstKey(ls, key, i) && i < j && j + |f| <= |ls| && ls[j..j + |f|] == f
    && forall k :: i < k < j ==> ls[k] == [] || "  - " <= ls[k] || "    " <= ls[k]
  }

  ghost predicate Stands(ls: seq<string>, key: string, f: seq<string>) {
    exists i, j :: StandsAt(ls, key, f, i, j)
  }

  /** The hook's fence stands in the list under the first line that is its key. */
  ghost predicate HookStands(ls: seq<string>, h: Hook) {
    Stands(ls, VerbKey(h.verb), FenceLines(h.unit, h.entry))
  }

  // ---- lines that are no keys ----

  predicate IsInner(l: string) {
    l == [] || "  - " <= l || "    " <= l || "  #" <= l
  }

  ghost predicate IsKey(key: string) {
    key == HOOKS || exists v :: VerbOk(v) && key == VerbKey(v)
  }

  lemma InnerStart(l: string)
    requires IsInner(l) && l != []
    ensures |l| > 2 && l[0] == ' ' && (l[2] == ' ' || l[2] == '-' || l[2] == '#')
  {
    assert "  - "[2] == '-' && "    "[2] == ' ' && "  #"[2] == '#';
  }

  lemma KeyStart(key: string)
    requires IsKey(key)
    ensures |key| > 2 && (key[0] == 'h' || (key[2] != ' ' && key[2] != '-' && key[2] != '#'))
  {
    assert HOOKS[0] == 'h';
  }

  lemma InnerIsNoKey(l: string, key: string)
    requires IsInner(l) && IsKey(key)
    ensures TrimEnd(l) != key
  {
    hide TrimEnd, IsKey, IsInner;
    KeyStart(key);
    if l != [] { InnerStart(l); }
    assert TrimEnd(l) <= l;
  }

  lemma FenceIsInner(unit: string, entry: string)
    requires HookEntry(entry)
    ensures forall l :: l in FenceLines(unit, entry) ==> IsInner(l)
  {
    hide BodyLines;
    assert BeginMarker(Yaml, unit)[..3] == "  #" && EndMarker(Yaml, unit)[..3] == "  #";
  }

  // ---- one more insertion ----

  lemma InsertKeeps(ls: seq<string>, key: string, f: seq<string>, i: nat, j: nat, at: nat, mid: seq<string>)
    returns (i': nat, j': nat)
    requires StandsAt(ls, key, f, i, j) && at <= |ls| && (at <= i || j + |f| <= at)
    requires forall l :: l in mid ==> TrimEnd(l) != key
    ensures StandsAt(ls[..at] + mid + ls[at..], key, f, i', j')
  {
    hide TrimEnd;
    var out := ls[..at] + mid + ls[at..];
    i', j' := if at <= i then i + |mid| else i, if at <= i then j + |mid| else j;
    assert forall k :: 0 <= k < at ==> out[k] == ls[k];
    assert forall k :: at <= k < at + |mid| ==> out[k] == mid[k - at];
    assert forall k :: at + |mid| <= k < |out| ==> out[k] == ls[k - |mid|];
    forall k | 0 <= k < i' ensures TrimEnd(out[k]) != key {
      if at <= k < at + |mid| { assert mid[k - at] in mid; }
    }
    forall k | i' < k < j' ensures out[k] == [] || "  - " <= out[k] || "    " <= out[k] {
      assert out[k] == ls[k - (i' - i)];
    }
    assert out[j'..j' + |f|] == ls[j..j + |f|];
  }

  /** The end of another key's list is not inside a list up to its fence. */
  lemma NotInside(ls: seq<string>, key: string, f: seq<string>, i: nat, j: nat, other: string, vi: nat, at: nat)
    requires StandsAt(ls, key, f, i, j) && (forall l :: l in f ==> IsInner(l))
    requires IsKey(key) && IsKey(other) && key != other && FirstKey(ls, other, vi)
    ensures vi < i || j + |f| <= vi
    ensures EndsList(ls, vi, at) ==> at <= i || j + |f| <= at
  {
    hide TrimEnd, IsKey;
    if i < vi < j + |f| {
      if vi >= j { assert ls[vi] == ls[j..j + |f|][vi - j] && ls[vi] in f; }
      InnerIsNoKey(ls[vi], other);
    }
    if EndsList(ls, vi, at) && vi < i < at {
      InnerIsNoKey(ls[i], key);
    }
  }

  /** The lines an add puts in besides the fence are keys, and not this one. */
  lemma NewLinesAreOther(key: string, other: string, block: seq<string>)
    requires IsKey(key) && IsKey(other) && key != other && key != HOOKS && TrimEnd(other) == other && TrimEnd(HOOKS) == HOOKS
    requires forall l :: l in block ==> IsInner(l)
    ensures forall l :: l in [HOOKS, other] + block ==> TrimEnd(l) != key
  {
    hide TrimEnd, IsKey;
    forall l | l in [HOOKS, other] + block ensures TrimEnd(l) != key {
      if l in block { InnerIsNoKey(l, key); }
    }
  }

  lemma KeyOfVerb(v: string)
    requires VerbOk(v)
    ensures IsKey(VerbKey(v)) && IsKey(HOOKS) && VerbKey(v) != HOOKS
    ensures TrimEnd(VerbKey(v)) == VerbKey(v) && TrimEnd(HOOKS) == HOOKS
  {
    hide VerbKey;
    assert UnitOk("u") by { assert '\n' !in "u"; }
    KeyFacts(v, "u");
    TrimEndFixed(HOOKS);
  }

  lemma OtherKey(v: string, w: string)
    requires v != w
    ensures VerbKey(v) != VerbKey(w)
  {
    assert VerbKey(v)[2..|VerbKey(v)| - 1] == v && VerbKey(w)[2..|VerbKey(w)| - 1] == w;
  }

  /** Lines added for one verb leave the fence of another one standing. */
  lemma AddedKeeps(ls: seq<string>, verb: string, block: seq<string>, key: string, f: seq<string>, i: nat, j: nat)
    returns (i': nat, j': nat)
    requires StandsAt(ls, key, f, i, j) && (forall l :: l in f + block ==> IsInner(l))
    requires VerbOk(verb) && IsKey(key) && key != VerbKey(verb) && key != HOOKS
    ensures StandsAt(AddedLines(ls, verb, block), key, f, i', j')
  {
    hide TrimEnd, IsKey, IsInner, StandsAt, InsertAt, FindKey, VerbKey, EndsList;
    var other := VerbKey(verb);
    KeyOfVerb(verb);
    assert forall l :: l in f || l in block ==> l in f + block;
    NewLinesAreOther(key, other, block);
    var vi, hi := FindKey(ls, other, 0), FindKey(ls, HOOKS, 0);
    if vi < |ls| {
      InsertEndsList(ls, vi);
      NotInside(ls, key, f, i, j, other, vi, InsertAt(ls, vi));
      i', j' := InsertKeeps(ls, key, f, i, j, InsertAt(ls, vi), block);
    } else if hi < |ls| {
      NotInside(ls, key, f, i, j, HOOKS, hi, hi + 1);
      i', j' := InsertKeeps(ls, key, f, i, j, hi + 1, [other] + block);
      assert ls[..hi + 1] + ([other] + block) + ls[hi + 1..] == ls[..hi + 1] + [other] + block + ls[hi + 1..];
    } else {
      StandsInLines(ls, key, f, i, j);
      i', j' := InsertKeeps(ls, key, f, i, j, |ls|, [HOOKS, other] + block);
      assert ls[..|ls|] + ([HOOKS, other] + block) + ls[|ls|..] == ls + [HOOKS, other] + block;
    }
  }

  lemma StandsInLines(ls: seq<string>, key: string, f: seq<string>, i: nat, j: nat)
    requires StandsAt(ls, key, f, i, j)
    ensures ls != [] && j + |f| <= |ls|
  {
  }

  /** A block put in at line `j`, behind a list of hooks and blanks under the key. */
  lemma BlockStands(ls: seq<string>, key: string, block: seq<string>, rest: seq<string>, i: nat)
    requires FirstKey(ls, key, i) && forall k :: i < k < |ls| ==> ls[k] == [] || "  - " <= ls[k] || "    " <= ls[k]
    ensures StandsAt(ls + block + rest, key, block, i, |ls|)
  {
    hide TrimEnd;
    var out := ls + block + rest;
    assert forall k :: 0 <= k < |ls| ==> out[k] == ls[k];
    assert out[|ls|..|ls| + |block|] == block;
  }

  lemma NewKeyIsFirst(front: seq<string>, key: string)
    requires TrimEnd(key) == key && forall l :: l in front ==> TrimEnd(l) != key
    ensures FirstKey(front + [key], key, |front|)
  {
    hide TrimEnd;
    assert forall k :: 0 <= k < |front| ==> (front + [key])[k] in front;
  }

  lemma NewKeyStands(front: seq<string>, key: string, block: seq<string>, rest: seq<string>)
    requires TrimEnd(key) == key && forall l :: l in front ==> TrimEnd(l) != key
    ensures StandsAt(front + [key] + block + rest, key, block, |front|, |front| + 1)
  {
    hide TrimEnd, FirstKey, StandsAt;
    NewKeyIsFirst(front, key);
    BlockStands(front + [key], key, block, rest, |front|);
  }

  lemma EndLines(front: seq<string>, hooks: string, key: string, block: seq<string>)
    ensures front + [hooks, key] + block == front + [hooks] + [key] + block + []
  {
  }

  /** The fence of the verb itself stands under its key. */
  lemma AddedStands(ls: seq<string>, verb: string, block: seq<string>) returns (i: nat, j: nat)
    requires VerbOk(verb)
    ensures StandsAt(AddedLines(ls, verb, block), VerbKey(verb), block, i, j)
  {
    hide TrimEnd, InsertAt, FindKey, VerbKey, IsKey, StandsAt;
    var key := VerbKey(verb);
    KeyOfVerb(verb);
    EmptyIsNoKey(verb);
    var vi, hi := FindKey(ls, key, 0), FindKey(ls, HOOKS, 0);
    if vi < |ls| {
      InsertEndsList(ls, vi);
      i, j := vi, InsertAt(ls, vi);
      ListStands(ls, key, block, i, j);
    } else if hi < |ls| {
      i, j := hi + 1, hi + 2;
      NewKeyStands(ls[..hi + 1], key, block, ls[hi + 1..]);
    } else {
      var front := if ls == [] then [[]] else ls;
      i, j := |front| + 1, |front| + 2;
      EndLines(front, HOOKS, key, block);
      NewKeyStands(front + [HOOKS], key, block, []);
    }
  }

  lemma ListStands(ls: seq<string>, key: string, block: seq<string>, vi: nat, at: nat)
    requires FirstKey(ls, key, vi) && EndsList(ls, vi, at)
    ensures StandsAt(ls[..at] + block + ls[at..], key, block, vi, at)
  {
    hide TrimEnd;
    BlockStands(ls[..at], key, block, ls[at..], vi);
  }

  lemma EmptyIsNoKey(verb: string)
    ensures TrimEnd([]) != VerbKey(verb)
  {
  }

  // ---- many hooks ----

  lemma LinesKeep(ls: seq<string>, g: Hook, key: string, f: seq<string>)
    requires Stands(ls, key, f) && VerbOk(g.verb) && IsKey(key) && key != VerbKey(g.verb) && key != HOOKS
    requires HookEntry(g.entry) && forall l :: l in f ==> IsInner(l)
    ensures Stands(AddedLines(ls, g.verb, FenceLines(g.unit, g.entry)), key, f)
  {
    hide AddedLines, FenceLines, HookEntry, IsInner, VerbKey, IsKey, StandsAt;
    var i, j :| StandsAt(ls, key, f, i, j);
    FenceIsInner(g.unit, g.entry);
    var i', j' := AddedKeeps(ls, g.verb, FenceLines(g.unit, g.entry), key, f, i, j);
  }

  /** An add leaves the fence of another hook standing. */
  lemma AddKeeps(content: string, g: Hook, h: Hook, units: set<string>, verbs: set<string>)
    requires NamesOk(units, verbs) && HookOk(g, units, verbs) && HookOk(h, units, verbs) && g.verb != h.verb
    requires HookStands(Lines(content), h)
    ensures HookStands(Lines(AddText(content, g.unit, g.verb, g.entry)), h)
  {
    hide Lines, AddedLines, FenceLines, HookEntry, IsInner, VerbKey, IsKey, Stands, Terminated, Has;
    if !Has(Lines(content), g.unit) {
      LinesOfAdded(content, g.unit, g.verb, g.entry);
      FenceIsInner(h.unit, h.entry);
      KeyOfVerb(h.verb);
      OtherKey(g.verb, h.verb);
      LinesKeep(Lines(content), g, VerbKey(h.verb), FenceLines(h.unit, h.entry));
    }
  }

  lemma AddPlaces(content: string, h: Hook, units: set<string>, verbs: set<string>)
    requires NamesOk(units, verbs) && HookOk(h, units, verbs) && !Has(Lines(content), h.unit)
    ensures HookStands(Lines(AddText(content, h.unit, h.verb, h.entry)), h)
  {
    hide Lines, AddedLines, FenceLines, HookEntry, VerbKey, StandsAt, AddText, Has;
    LinesOfAdded(content, h.unit, h.verb, h.entry);
    var i, j := AddedStands(Lines(content), h.verb, FenceLines(h.unit, h.entry));
  }

  lemma {:induction false} InstallKeeps(yml: string, hooks: seq<Hook>, h: Hook, units: set<string>, verbs: set<string>)
    requires NamesOk(units, verbs) && HookOk(h, units, verbs) && HookStands(Lines(yml), h)
    requires forall g :: g in hooks ==> HookOk(g, units, verbs) && g.verb != h.verb
    ensures HookStands(Lines(InstallAll(yml, hooks)), h)
    decreases hooks
  {
    hide Lines, AddText, HookOk, HookStands, NamesOk;
    if hooks != [] {
      var g := hooks[0];
      assert g in hooks && forall x :: x in hooks[1..] ==> x in hooks;
      AddKeeps(yml, g, h, units, verbs);
      InstallKeeps(AddText(yml, g.unit, g.verb, g.entry), hooks[1..], h, units, verbs);
    }
  }

  /** An add brings in no begin line of another unit. */
  lemma AddBringsNoOther(content: string, g: Hook, u: string, units: set<string>, verbs: set<string>)
    requires NamesOk(units, verbs) && HookOk(g, units, verbs) && u in units && u != g.unit && !Has(Lines(content), u)
    ensures !Has(Lines(AddText(content, g.unit, g.verb, g.entry)), u)
  {
    hide Lines, FenceLines, HookEntry, IsBegin, VerbKey, Has, Terminated, Before, After, AddedLines, IsEnd, BeginMarker, EndMarker;
    if !Has(Lines(content), g.unit) {
      var ls, f := Lines(content), FenceLines(g.unit, g.entry);
      LinesOfAdded(content, g.unit, g.verb, g.entry);
      AddedAround(ls, g.verb, f);
      KeyFacts(g.verb, u);
      BeforeIsFree(ls, u, g.verb);
      AfterIsFree(ls, u, g.verb);
      FenceIsFree(g, u, units, verbs);
      FreeHasNot(Before(ls, g.verb) + f + After(ls, g.verb), u);
    }
  }

  lemma AfterIsFree(ls: seq<string>, unit: string, verb: string)
    requires !Has(ls, unit)
    ensures Free(Yaml, After(ls, verb), unit)
  {
    hide InsertAt, FindKey, IsBegin, VerbKey;
    AbsentIsFree(ls, unit);
    assert forall l :: l in After(ls, verb) ==> l in ls;
  }

  lemma FenceIsFree(g: Hook, u: string, units: set<string>, verbs: set<string>)
    requires NamesOk(units, verbs) && HookOk(g, units, verbs) && u in units && u != g.unit
    ensures Free(Yaml, FenceLines(g.unit, g.entry), u)
  {
    hide BodyLines, HookEntry, IsBegin, IsEnd, BeginMarker, EndMarker;
    MarkerFacts(g.unit, u);
    HookBodyOk(g.entry, units, verbs);
    forall l | l in BodyLines(g.entry) ensures !IsBegin(Yaml, l, u) {
      assert !IsMarker(l, units);
    }
  }

  lemma FreeHasNot(ls: seq<string>, u: string)
    requires Free(Yaml, ls, u)
    ensures !Has(ls, u)
  {
    hide IsBegin;
  }

  ghost predicate Apart(hooks: seq<Hook>) {
    forall i, j :: 0 <= i < j < |hooks| ==> hooks[i].unit != hooks[j].unit && hooks[i].verb != hooks[j].verb
  }

  /** Hooks with different keys, none of them there before: after all the adds each one stands under its own key. */
  lemma {:induction false} InstalledHooksStand(yml: string, hooks: seq<Hook>, units: set<string>, verbs: set<string>)
    requires NamesOk(units, verbs) && Apart(hooks)
    requires forall h :: h in hooks ==> HookOk(h, units, verbs) && !Has(Lines(yml), h.unit)
    ensures forall h :: h in hooks ==> HookStands(Lines(InstallAll(yml, hooks)), h)
    decreases hooks
  {
    hide Lines, AddText, HookOk, HookStands, NamesOk, Has;
    if hooks != [] {
      var g, rest := hooks[0], hooks[1..];
      var next := AddText(yml, g.unit, g.verb, g.entry);
      assert g in hooks;
      forall h | h in rest ensures h in hooks && h.unit != g.unit && h.verb != g.verb {
        var k :| 0 <= k < |rest| && rest[k] == h;
        assert hooks[k + 1] == h;
      }
      forall h | h in rest ensures !Has(Lines(next), h.unit) {
        UnitOfHook(h, units, verbs);
        AddBringsNoOther(yml, g, h.unit, units, verbs);
      }
      AddPlaces(yml, g, units, verbs);
      InstallKeeps(next, rest, g, units, verbs);
      InstalledHooksStand(next, rest, units, verbs);
    }
  }

  lemma UnitOfHook(h: Hook, units: set<string>, verbs: set<string>)
    requires HookOk(h, units, verbs)
    ensures h.unit in units
  {
  }
}
