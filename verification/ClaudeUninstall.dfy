/** What removing all the hooks leaves of a file they were installed in, and when that is the file itself. */
module ClaudeUninstall {
  import opened TextLines
  import opened Chars
  import opened Fencing
  import opened YamlFence
  import opened YamlPieces
  import opened ClaudeDeploy
  import opened ClaudeRoundTrip
  import opened ClaudeInstall
  import opened HookKeys

  // ---- the start ----

  ghost function AsPieces(ls: seq<string>): (ps: seq<Piece>)
    ensures |ps| == |ls| && forall i :: 0 <= i < |ls| ==> ps[i] == Plain(ls[i])
  {
    seq(|ls|, i requires 0 <= i < |ls| => Plain(ls[i]))
  }

  lemma {:induction false} PlainIsBare(ls: seq<string>)
    ensures Flat(AsPieces(ls)) == ls && Bare(AsPieces(ls)) == ls
    decreases ls
  {
    if ls != [] {
      PlainIsBare(ls[1..]);
      assert AsPieces(ls)[1..] == AsPieces(ls[1..]);
    }
  }

  lemma StartShows(yml: string, units: set<string>, verbs: set<string>)
    requires forall l :: l in Lines(yml) ==> !IsMarker(l, units)
    ensures Shows(yml, AsPieces(Lines(yml)), EndsInNewline(yml), units, verbs) && UnitsIn(AsPieces(Lines(yml))) == {}
  {
    hide Lines, IsMarker, Flat, Bare;
    PlainIsBare(Lines(yml));
    PlainsOk(Lines(yml), units, verbs);
  }

  lemma PlainsOk(ls: seq<string>, units: set<string>, verbs: set<string>)
    requires forall l :: l in ls ==> !IsMarker(l, units)
    ensures PiecesOk(AsPieces(ls), units, verbs)
  {
    hide IsMarker;
    forall p | p in AsPieces(ls) ensures PieceOk(p, units, verbs) {
      var i :| 0 <= i < |ls| && AsPieces(ls)[i] == p;
      assert ls[i] in ls;
    }
  }

  // ---- the whole run ----

  function HookVerbs(): seq<string> {
    Verbs(AllHooks())
  }

  /**
   Installing every hook and removing them all puts the missing keys in, tidies the blank lines and
   sweeps the keys without hooks; nothing else happens to a file without these markers.
   */
  lemma UninstallLeaves(yml: string)
    requires forall l :: l in Lines(yml) ==> !IsMarker(l, UnitSet())
    ensures UninstallText(InstallAll(yml, AllHooks())) == Ok(Terminated(Leftover(Lines(yml), HookVerbs()), EndsInNewline(yml)))
  {
    hide Lines, Shows, NamesOk, HooksOk, InstallAll, RemoveAll, Kept, Tidied, AllHooks, SpanUnits, UnitsIn, Flat, Bare,
         IsMarker, Join, KeyedAll, VerbSet;
    var units, verbs, newline := UnitSet(), VerbSet(), EndsInNewline(yml);
    NamesAreOk();
    AllHooksOk();
    StartShows(yml, units, verbs);
    PlainIsBare(Lines(yml));
    var ps := InstallShows(yml, AsPieces(Lines(yml)), AllHooks(), newline, units, verbs);
    HooksInUnits(AllHooks(), units, verbs);
    InstalledNotBlank(yml, ps, newline, units, verbs);
    RemoveShows(InstallAll(yml, AllHooks()), ps, AllUnits(), newline, units, verbs);
  }

  lemma HooksInUnits(hooks: seq<Hook>, units: set<string>, verbs: set<string>)
    requires HooksOk(hooks, units, verbs) && hooks != []
    ensures UnitsOfHooks(hooks) <= units && UnitsOfHooks(hooks) != {}
  {
    assert hooks[0].unit in UnitsOfHooks(hooks) by { assert hooks[0] in hooks; }
    forall h | h in hooks ensures h.unit in units { assert HookOk(h, units, verbs); }
  }

  lemma InstalledNotBlank(yml: string, ps: seq<Piece>, newline: bool, units: set<string>, verbs: set<string>)
    requires Shows(InstallAll(yml, AllHooks()), ps, newline, units, verbs) && Bare(ps) == KeyedAll(Lines(yml), HookVerbs())
    ensures ShowsTidied(InstallAll(yml, AllHooks()), ps, newline, units, verbs)
  {
    hide Lines, InstallAll, AllHooks, Flat, Bare, Keyed, NonBlank, PiecesOk;
    AllHooksOk();
    KeyedAllNotBlank(Lines(yml), HookVerbs());
  }

  // ---- when the file comes back ----

  /** Every hook's key is in the file already. */
  ghost predicate NothingMissing(ls: seq<string>) {
    forall h :: h in AllHooks() ==> HasKey(ls, h.verb)
  }

  /** New keys can go behind `hooks:` and be swept again: the first line there is no hook line. */
  predicate RoomForKeys(ls: seq<string>) {
    var hi := FindKey(ls, HOOKS, 0);
    hi < |ls| && !HookNext(ls[hi + 1..])
  }

  /**
   No adjacent or trailing blank lines, a hook line behind every workflow key, and either every
   hook key or room for the missing ones.
   */
  ghost predicate Restorable(ls: seq<string>) {
    && IsTidy(ls) && (forall i :: 0 <= i < |ls| ==> Keeps(ls, i))
    && (NothingMissing(ls) || RoomForKeys(ls))
  }

  lemma HookVerbsAre()
    ensures HookVerbs() != [] && forall v :: v in HookVerbs() ==> IsWorkflowKey(VerbKey(v)) && '\n' !in v
    ensures forall ls :: NothingMissing(ls) <==> forall v :: v in HookVerbs() ==> HasKey(ls, v)
  {
    hide IsWorkflowKey, VerbKey, AllHooks, HasKey, HookEntry, UnitSet;
    AllHooksOk();
    NamesAreOk();
    var hooks, vs := AllHooks(), HookVerbs();
    forall v | v in vs ensures (exists h :: h in hooks && h.verb == v) && IsWorkflowKey(VerbKey(v)) && '\n' !in v {
      var i :| 0 <= i < |vs| && vs[i] == v;
      assert hooks[i] in hooks && HookOk(hooks[i], UnitSet(), VerbSet());
      KeyLineIsWorkflowKey(v);
    }
    forall h | h in hooks ensures h.verb in vs {
      var i :| 0 <= i < |hooks| && hooks[i] == h;
      assert vs[i] in vs;
    }
  }

  lemma KeyLineIsWorkflowKey(verb: string)
    requires verb in VerbSet()
    ensures IsWorkflowKey(VerbKey(verb))
  {
    var p, v :| p in ["before", "after"] && v in WORKFLOW_VERBS && verb == HookKey(p, v);
    TrimEndFixed(VerbKey(verb));
  }

  /** No key missing: the sweep is all that can hurt. */
  lemma WithAllKeys(ls: seq<string>)
    ensures Kept(Tidied(ls), 0) == ls <==> IsTidy(ls) && forall i :: 0 <= i < |ls| ==> Keeps(ls, i)
  {
    hide Keeps, Tidied, IsTidy, Kept, KeptIn, Blanks;
    if IsTidy(ls) {
      TidiedIsTidy(ls);
      WholeKept(ls, 0);
      KeptInFull(ls, 0, |ls|);
      assert ls[0..|ls|] == ls;
    } else {
      UntidyIsLost(ls, ls);
    }
  }

  /** With the keys behind `hooks:`, no hook line may come first there either. */
  lemma WithKeys(a: seq<string>, h: string, keys: seq<string>, b: seq<string>)
    requires TrimEnd(h) == HOOKS && forall l :: l in a ==> TrimEnd(l) != HOOKS
    requires forall l :: l in keys ==> IsWorkflowKey(l)
    ensures var o := a + [h] + b;
      Kept(Tidied(a + [h] + keys + b), 0) == o
      <==> IsTidy(o) && (forall i :: 0 <= i < |o| ==> Keeps(o, i)) && (keys == [] || !HookNext(b))
  {
    hide Keeps, Tidied, IsTidy, Kept, Blanks, IsWorkflowKey, HookNext, TrimEnd;
    KeysAndBlanks(a, h, keys, b);
    if IsTidy(a + [h] + b) {
      TidiedIsTidy(a + [h] + keys + b);
      SweepExactly(a, h, keys, b);
    } else {
      UntidyIsLost(a + [h] + b, a + [h] + keys + b);
    }
  }

  /** Some key missing, and a `hooks:` line to put it behind. */
  lemma WithHooks(ls: seq<string>, vs: seq<string>)
    requires FindKey(ls, HOOKS, 0) < |ls| && forall v :: v in vs ==> IsWorkflowKey(VerbKey(v))
    requires exists v :: v in vs && !HasKey(ls, v)
    ensures Leftover(ls, vs) == ls <==> IsTidy(ls) && (forall i :: 0 <= i < |ls| ==> Keeps(ls, i)) && RoomForKeys(ls)
  {
    hide Keeps, Tidied, IsTidy, Kept, IsWorkflowKey, FindKey, KeyedAll, HasKey, VerbKey, HookNext, TrimEnd;
    var hi := FindKey(ls, HOOKS, 0);
    var a, h, b := ls[..hi], ls[hi], ls[hi + 1..];
    AroundLine(ls, hi);
    BeforeFound(ls, HOOKS);
    var keys := MissingKeys(a, h, [], b, vs);
    WithKeys(a, h, keys, b);
  }

  lemma AroundLine(ls: seq<string>, i: nat)
    requires i < |ls|
    ensures ls[..i] + [ls[i]] + ls[i + 1..] == ls && ls[..i] + [ls[i]] + [] + ls[i + 1..] == ls
  {
    assert ls[..i] + [ls[i]] + [] == ls[..i] + [ls[i]];
  }

  lemma BeforeFound(ls: seq<string>, key: string)
    ensures forall l :: l in ls[..FindKey(ls, key, 0)] ==> TrimEnd(l) != key
  {
    hide TrimEnd;
  }

  /** Some key missing and no `hooks:` line: a new one stays. */
  lemma WithoutHooks(ls: seq<string>, vs: seq<string>, v: string)
    requires FindKey(ls, HOOKS, 0) == |ls| && v in vs && !HasKey(ls, v)
    ensures Leftover(ls, vs) != ls && NonBlank(Leftover(ls, vs)) != []
  {
    hide Tidied, Kept, IsWorkflowKey, KeyedAll, HasKey;
    NewHooksStays(ls, vs, v);
    TrimEndFixed(HOOKS);
    NotHookLine(HOOKS);
    LineStays(KeyedAll(ls, vs), HOOKS);
    NonBlankHas(Leftover(ls, vs), HOOKS);
    NotFound(ls, HOOKS);
  }

  lemma NotFound(ls: seq<string>, key: string)
    requires FindKey(ls, key, 0) == |ls|
    ensures forall l :: l in ls ==> TrimEnd(l) != key
  {
  }

  /** The lines the run leaves are the original ones exactly when the file is restorable. */
  lemma LinesComeBack(ls: seq<string>)
    ensures Leftover(ls, HookVerbs()) == ls <==> Restorable(ls)
    ensures NonBlank(ls) != [] || NonBlank(Leftover(ls, HookVerbs())) != []
  {
    hide Keeps, Tidied, IsTidy, Kept, IsWorkflowKey, FindKey, KeyedAll, HasKey, VerbKey, NonBlank, HookVerbs, NothingMissing,
         HookNext;
    var vs := HookVerbs();
    HookVerbsAre();
    if NothingMissing(ls) {
      NoneMissing(ls, vs);
      WithAllKeys(ls);
      assert vs[0] in vs;
      VerbKeyIsLine(vs[0]);
      HasItsKey(ls, vs[0]);
      KeyIsThere(ls, VerbKey(vs[0]));
    } else {
      var v :| v in vs && !HasKey(ls, v);
      if FindKey(ls, HOOKS, 0) < |ls| {
        WithHooks(ls, vs);
        KeyIsThere(ls, HOOKS);
      } else {
        WithoutHooks(ls, vs, v);
      }
    }
  }

  lemma HasItsKey(ls: seq<string>, verb: string)
    ensures HasKey(ls, verb) <==> FindKey(ls, VerbKey(verb), 0) < |ls|
  {
  }

  lemma KeyIsThere(ls: seq<string>, key: string)
    requires FindKey(ls, key, 0) < |ls| && key != []
    ensures NonBlank(ls) != []
  {
    NonBlankHas(ls, ls[FindKey(ls, key, 0)]);
  }

  /**
   Installing all hooks and removing them again gives a file without these markers back, byte for
   byte, if and only if it is restorable.
   */
  lemma UninstallUndoesExactly(yml: string)
    requires forall l :: l in Lines(yml) ==> !IsMarker(l, UnitSet())
    ensures UninstallText(InstallAll(yml, AllHooks())) == Ok(yml) <==> Restorable(Lines(yml))
  {
    hide Lines, InstallAll, UninstallText, Kept, Tidied, AllHooks, HookVerbs, KeyedAll, Restorable, Terminated, IsMarker, UnitSet, NonBlank;
    var all := KeyedAll(Lines(yml), HookVerbs());
    UninstallLeaves(yml);
    LinesComeBack(Lines(yml));
    LinesAreSingle(yml);
    HookVerbsAre();
    KeyedAllSingle(Lines(yml), HookVerbs());
    TidiedSingle(all);
    SweepSubset(Tidied(all), 0);
    SameText(yml, Kept(Tidied(all), 0));
  }

  // ---- two files that do not come back ----

  /** Lines that are neither markers nor keys of a workflow verb, by their third character. */
  lemma OtherLines(ls: seq<string>)
    requires forall l :: l in ls ==> |l| > 2 && l[2] != '#' && l[2] != 'b' && l[2] != 'a'
    ensures (forall l :: l in ls ==> !IsMarker(l, UnitSet())) && !NothingMissing(ls)
  {
    hide UnitSet, AllHooks, BeginMarker, EndMarker, TrimEnd, VerbSet;
    forall l, u | l in ls ensures !IsBegin(Yaml, l, u) && !IsEnd(Yaml, l, u) {
      TrimmedMarkers(u);
      TrimmedStart(l, 2);
      assert TrimEnd(BeginMarker(Yaml, u))[2] == "  # >>>"[2] && TrimEnd(EndMarker(Yaml, u))[2] == "  # <<<"[2];
    }
    AllHooksOk();
    var h := AllHooks()[0];
    assert h in AllHooks() && HookOk(h, UnitSet(), VerbSet());
    KeyInitial(h.verb);
    forall l | l in ls ensures TrimEnd(l) != VerbKey(h.verb) { TrimmedStart(l, 2); }
  }

  lemma KeyInitial(verb: string)
    requires verb in VerbSet()
    ensures verb != [] && VerbKey(verb)[2] in {'b', 'a'}
  {
    var p, v :| p in ["before", "after"] && v in WORKFLOW_VERBS && verb == HookKey(p, v);
    assert VerbKey(verb)[2] == p[0];
  }

  const HOOK_UNDER_HOOKS: seq<string> := ["hooks:", "  - extension: git"]

  /** A hook right behind `hooks:` makes a synthesised key look taken, so that key stays. */
  lemma TakenKeyStays()
    ensures UninstallText(InstallAll(Unlines(HOOK_UNDER_HOOKS), AllHooks())) != Ok(Unlines(HOOK_UNDER_HOOKS))
  {
    hide UninstallText, InstallAll, AllHooks, Unlines, Lines, UnitSet, NothingMissing, IsTidy;
    var ls := HOOK_UNDER_HOOKS;
    assert ls[0][2] == 'o' && ls[1][2] == '-';
    assert '\n' !in "hooks:" && '\n' !in "  - extension: git";
    LinesUnlines(ls);
    OtherLines(ls);
    UninstallUndoesExactly(Unlines(ls));
    TrimEndFixed(HOOKS);
    assert FindKey(ls, HOOKS, 0) == 0;
    NoRoom(ls[1..]);
  }

  lemma NoRoom(ls: seq<string>)
    requires ls == ["  - extension: git"]
    ensures HookNext(ls)
  {
    TrimEndFixed(ls[0]);
    assert ls[0][..4] == "  - ";
    assert NextLine(ls, 0) == 0;
  }

  const NO_HOOKS: seq<string> := ["installed: []"]

  /** A file without a `hooks:` line keeps the one it was given. */
  lemma NewHooksLineStays()
    ensures UninstallText(InstallAll(Unlines(NO_HOOKS), AllHooks())) != Ok(Unlines(NO_HOOKS))
  {
    hide UninstallText, InstallAll, AllHooks, Unlines, Lines, UnitSet, NothingMissing, IsTidy;
    var ls := NO_HOOKS;
    assert ls[0][2] == 's' && ls[0][0] == 'i';
    assert '\n' !in "installed: []";
    LinesUnlines(ls);
    OtherLines(ls);
    UninstallUndoesExactly(Unlines(ls));
    TrimmedStart(ls[0], 0);
    assert TrimEnd(ls[0]) != HOOKS by { assert HOOKS[0] == 'h'; }
  }
}
