/** The deployer's hook loops over the workflow verbs, and the byte-exact round trip of a whole file. */
module ClaudeInstall {
  import opened TextLines
  import opened Chars
  import opened Fencing
  import opened YamlFence
  import opened YamlPieces
  import opened ClaudeDeploy
  import opened ClaudeRoundTrip
  import opened HookPlaces

  // ---- the order of the hooks ----

  function SpanHook(phase: string, verb: string): Hook {
    Hook(BlockId(phase, verb), HookKey(phase, verb), ObserveStepEntry(verb, phase))
  }

  /** `before_<verb>`, then `after_<verb>` except for `implement`, which the main block covers. */
  function SpanHooks(verbs: seq<string>): seq<Hook> {
    if verbs == [] then []
    else
      [SpanHook("before", verbs[0])]
      + (if verbs[0] == "implement" then [] else [SpanHook("after", verbs[0])])
      + SpanHooks(verbs[1..])
  }

  function AllHooks(): seq<Hook> {
    [Hook(UNIT_ID, HookKey("after", "implement"), AfterImplementEntry())] + SpanHooks(WORKFLOW_VERBS)
  }

  function SpanUnits(verbs: seq<string>): seq<string> {
    if verbs == [] then [] else [BlockId("before", verbs[0]), BlockId("after", verbs[0])] + SpanUnits(verbs[1..])
  }

  function AllUnits(): seq<string> {
    SpanUnits(WORKFLOW_VERBS) + [UNIT_ID]
  }

  // ---- the loops of install and remove ----

  lemma {:induction false} InstallConcat(yml: string, a: seq<Hook>, b: seq<Hook>)
    ensures InstallAll(yml, a + b) == InstallAll(InstallAll(yml, a), b)
    decreases a
  {
    hide AddText;
    if a == [] {
      assert a + b == b;
    } else {
      assert (a + b)[0] == a[0] && (a + b)[1..] == a[1..] + b;
      InstallConcat(AddText(yml, a[0].unit, a[0].verb, a[0].entry), a[1..], b);
    }
  }

  lemma WordsAreSingle()
    ensures forall i :: 0 <= i < |WORKFLOW_VERBS| ==> '\n' !in WORKFLOW_VERBS[i]
    ensures '\n' !in "before" && '\n' !in "after" && '\n' !in UNIT_ID && '\n' !in SPANS_ID
  {
    assert '\n' !in "specify" && '\n' !in "clarify" && '\n' !in "plan" && '\n' !in "tasks";
    assert '\n' !in "analyze" && '\n' !in "checklist" && '\n' !in "implement";
  }

  method RegisterObserveStepHook(yml: string, verb: string, phase: string) returns (r: string)
    requires '\n' !in verb && '\n' !in phase
    ensures r == InstallAll(yml, [SpanHook(phase, verb)])
  {
    hide AddText, Placed, Lines, TrimEnd, BodyLines, EndsInNewline, ObserveStepEntry;
    BlockIdIsSingle(phase, verb);
    r := YamlFence.Add(yml, BlockId(phase, verb), HookKey(phase, verb), ObserveStepEntry(verb, phase));
    assert [SpanHook(phase, verb)][1..] == [];
  }

  lemma BlockIdIsSingle(phase: string, verb: string)
    requires '\n' !in verb && '\n' !in phase
    ensures '\n' !in BlockId(phase, verb)
  {
    assert '\n' !in SPANS_ID && '\n' !in "-";
  }

  lemma NoSpanHooks()
    ensures SpanHooks([]) == [] && SpanUnits([]) == []
  {
  }

  lemma OneInstall(yml: string, hook: Hook)
    ensures InstallAll(yml, [hook]) == AddText(yml, hook.unit, hook.verb, hook.entry)
  {
    hide AddText;
    assert [hook][1..] == [];
  }

  lemma NextSpanHooks(verbs: seq<string>, i: nat)
    requires i < |verbs|
    ensures SpanHooks(verbs[i..]) == [SpanHook("before", verbs[i])]
      + (if verbs[i] == "implement" then [] else [SpanHook("after", verbs[i])]) + SpanHooks(verbs[i + 1..])
    ensures SpanUnits(verbs[i..]) == [BlockId("before", verbs[i]), BlockId("after", verbs[i])] + SpanUnits(verbs[i + 1..])
  {
    hide SpanHook, BlockId;
    assert verbs[i..][0] == verbs[i] && verbs[i..][1..] == verbs[i + 1..];
  }

  lemma RemoveNext(text: string, unit: string, rest: seq<string>)
    ensures var r := RemoveText(Yaml, text, unit);
      RemoveAll(text, [unit] + rest) == if r.Ok? then RemoveAll(r.text, rest) else r
  {
    hide RemoveText;
    assert ([unit] + rest)[1..] == rest;
  }

  function UninstallText(yml: string): FenceResult {
    var r := RemoveAll(yml, AllUnits());
    if r.Ok? then Ok(StripText(r.text)) else r
  }

  /** Both phases of one verb. */
  method RemovePair(text: string, verb: string, ghost rest: seq<string>) returns (r: FenceResult)
    ensures r.Ok? ==> RemoveAll(text, [BlockId("before", verb), BlockId("after", verb)] + rest) == RemoveAll(r.text, rest)
    ensures r.Unpaired? ==> RemoveAll(text, [BlockId("before", verb), BlockId("after", verb)] + rest) == r
  {
    hide RemoveText, RemoveAll, BlockId;
    var b, a := BlockId("before", verb), BlockId("after", verb);
    assert [b, a] + rest == [b] + ([a] + rest);
    RemoveNext(text, b, [a] + rest);
    r := Remove(Yaml, text, b);
    if r.Ok? {
      RemoveNext(r.text, a, rest);
      r := Remove(Yaml, r.text, a);
    }
  }

  /** Both phases of every verb, in order; the first broken fence ends it. */
  method RemoveSpans(text: string, verbs: seq<string>, ghost rest: seq<string>) returns (r: FenceResult)
    ensures r.Ok? ==> RemoveAll(text, SpanUnits(verbs) + rest) == RemoveAll(r.text, rest)
    ensures r.Unpaired? ==> RemoveAll(text, SpanUnits(verbs) + rest) == r
  {
    hide RemoveText, RemoveAll, SpanUnits, BlockId;
    r := Ok(text);
    assert verbs[0..] == verbs;
    for i := 0 to |verbs|
      invariant r.Ok? && RemoveAll(text, SpanUnits(verbs) + rest) == RemoveAll(r.text, SpanUnits(verbs[i..]) + rest)
    {
      NextPair(verbs, i, rest);
      r := RemovePair(r.text, verbs[i], SpanUnits(verbs[i + 1..]) + rest);
      if r.Unpaired? {
        return;
      }
    }
    NoPair(verbs, rest);
  }

  lemma NextPair(verbs: seq<string>, i: nat, rest: seq<string>)
    requires i < |verbs|
    ensures SpanUnits(verbs[i..]) + rest
            == [BlockId("before", verbs[i]), BlockId("after", verbs[i])] + (SpanUnits(verbs[i + 1..]) + rest)
  {
    hide SpanUnits, BlockId;
    NextSpanHooks(verbs, i);
    Associate([BlockId("before", verbs[i]), BlockId("after", verbs[i])], SpanUnits(verbs[i + 1..]), rest);
  }

  lemma NoPair(verbs: seq<string>, rest: seq<string>)
    ensures SpanUnits(verbs[|verbs|..]) + rest == rest
  {
    NoSpanHooks();
    assert verbs[|verbs|..] == [] && [] + rest == rest;
  }

  method RemoveHooks(yml: string) returns (r: FenceResult)
    ensures r == UninstallText(yml)
  {
    hide RemoveText, RemoveAll, StripText, SpanUnits;
    r := RemoveSpans(yml, WORKFLOW_VERBS, [UNIT_ID]);
    if r.Unpaired? {
      return;
    }
    var stripped := r.text;
    assert [UNIT_ID] == [UNIT_ID] + [];
    RemoveNext(stripped, UNIT_ID, []);
    r := Remove(Yaml, stripped, UNIT_ID);
    if r.Unpaired? {
      return;
    }
    NoRemoval(r.text);
    var swept := StripEmptyVerbKeys(r.text);
    r := Ok(swept);
  }

  lemma NoRemoval(yml: string)
    ensures RemoveAll(yml, []) == Ok(yml)
  {
  }

  // ---- the names ----

  ghost function UnitSet(): set<string> {
    set u | u in AllUnits()
  }

  ghost function VerbSet(): set<string> {
    set p, v | p in ["before", "after"] && v in WORKFLOW_VERBS :: HookKey(p, v)
  }

  predicate WordOk(v: string) {
    v != [] && !IsSpace(v[|v| - 1]) && '\n' !in v
  }

  lemma WordsAreOk()
    ensures forall i :: 0 <= i < |WORKFLOW_VERBS| ==> WordOk(WORKFLOW_VERBS[i])
  {
    WordsAreSingle();
  }

  lemma BlockIdOk(phase: string, verb: string)
    requires WordOk(verb) && '\n' !in phase
    ensures UnitOk(BlockId(phase, verb))
  {
    BlockIdIsSingle(phase, verb);
  }

  lemma {:induction false} SpanUnitsAre(verbs: seq<string>)
    ensures forall u :: u in SpanUnits(verbs) <==>
      exists i :: 0 <= i < |verbs| && (u == BlockId("before", verbs[i]) || u == BlockId("after", verbs[i]))
    decreases verbs
  {
    hide BlockId;
    if verbs != [] {
      SpanUnitsAre(verbs[1..]);
      forall u
        ensures u in SpanUnits(verbs) <==>
          exists i :: 0 <= i < |verbs| && (u == BlockId("before", verbs[i]) || u == BlockId("after", verbs[i]))
      {
        if u in SpanUnits(verbs[1..]) {
          var i :| 0 <= i < |verbs[1..]| && (u == BlockId("before", verbs[1..][i]) || u == BlockId("after", verbs[1..][i]));
          assert verbs[1..][i] == verbs[i + 1];
        }
        if i :| 0 <= i < |verbs| && (u == BlockId("before", verbs[i]) || u == BlockId("after", verbs[i])) {
          if i > 0 { assert verbs[i] == verbs[1..][i - 1]; }
        }
      }
    }
  }

  lemma UnitSetOk()
    ensures forall u :: u in UnitSet() ==> UnitOk(u)
  {
    hide BlockId, SpanUnits;
    WordsAreSingle();
    WordsAreOk();
    SpanUnitsAre(WORKFLOW_VERBS);
    forall u | u in SpanUnits(WORKFLOW_VERBS) ensures UnitOk(u) {
      var i :| 0 <= i < |WORKFLOW_VERBS| && (u == BlockId("before", WORKFLOW_VERBS[i]) || u == BlockId("after", WORKFLOW_VERBS[i]));
      BlockIdOk("before", WORKFLOW_VERBS[i]);
      BlockIdOk("after", WORKFLOW_VERBS[i]);
    }
  }

  lemma KeyOk(phase: string, verb: string)
    requires '\n' !in phase && '\n' !in verb && phase != [] && (phase[0] == 'b' || phase[0] == 'a')
    ensures VerbOk(HookKey(phase, verb))
  {
  }

  lemma VerbSetOk()
    ensures forall v :: v in VerbSet() ==> VerbOk(v)
  {
    hide HookKey, VerbOk;
    WordsAreSingle();
    forall p, v | p in ["before", "after"] && v in WORKFLOW_VERBS ensures VerbOk(HookKey(p, v)) {
      KeyOk(p, v);
    }
  }

  lemma BlockIdInjective(p: string, v: string, q: string, w: string)
    requires (p == "before" || p == "after") && (q == "before" || q == "after")
    ensures BlockId(p, v) == BlockId(q, w) ==> p == q && v == w
    ensures BlockId(p, v) != UNIT_ID
  {
    var x := |SPANS_ID| + 1;
    assert BlockId(p, v)[0] == 'w' && UNIT_ID[0] == 'c';
    assert BlockId(p, v)[x] == p[0] && BlockId(q, w)[x] == q[0];
    assert BlockId(p, v)[x + |p| + 1..] == v && BlockId(q, w)[x + |q| + 1..] == w;
  }

  lemma VerbsDiffer(i: nat, j: nat)
    requires i < j < |WORKFLOW_VERBS|
    ensures WORKFLOW_VERBS[i] != WORKFLOW_VERBS[j]
  {
    var v := WORKFLOW_VERBS;
    assert |v[0]| == 7 && |v[1]| == 7 && |v[2]| == 4 && |v[3]| == 5 && |v[4]| == 7 && |v[5]| == 9 && |v[6]| == 9;
    assert v[0][0] == 's' && v[1][0] == 'c' && v[4][0] == 'a' && v[5][0] == 'c' && v[6][0] == 'i';
  }

  // ---- the hooks are in order ----

  /** One of the span hooks of the verbs. */
  ghost predicate IsSpan(h: Hook, verbs: seq<string>) {
    exists i, p :: 0 <= i < |verbs| && p in ["before", "after"] && h == SpanHook(p, verbs[i])
  }

  lemma ThisIsSpan(verbs: seq<string>, i: nat, p: string)
    requires i < |verbs| && p in ["before", "after"]
    ensures IsSpan(SpanHook(p, verbs[i]), verbs)
  {
  }

  lemma LaterSpan(h: Hook, verbs: seq<string>)
    requires verbs != [] && IsSpan(h, verbs[1..]) && forall i, j :: 0 <= i < j < |verbs| ==> verbs[i] != verbs[j]
    ensures IsSpan(h, verbs) && h.unit != BlockId("before", verbs[0]) && h.unit != BlockId("after", verbs[0])
  {
    hide ObserveStepEntry, BlockId, HookKey;
    var i, p :| 0 <= i < |verbs| - 1 && p in ["before", "after"] && h == SpanHook(p, verbs[1..][i]);
    assert verbs[1..][i] == verbs[i + 1];
    BlockIdInjective(p, verbs[i + 1], "before", verbs[0]);
    BlockIdInjective(p, verbs[i + 1], "after", verbs[0]);
  }

  function SpansOfOne(verb: string): seq<Hook> {
    [SpanHook("before", verb)] + if verb == "implement" then [] else [SpanHook("after", verb)]
  }

  lemma SpansOfOneAre(verb: string, verbs: seq<string>)
    requires verbs != [] && verbs[0] == verb
    ensures forall h :: h in SpansOfOne(verb) ==>
      IsSpan(h, verbs) && (h.unit == BlockId("before", verb) || h.unit == BlockId("after", verb))
    ensures forall i, j :: 0 <= i < j < |SpansOfOne(verb)| ==> SpansOfOne(verb)[i].unit != SpansOfOne(verb)[j].unit
  {
    hide ObserveStepEntry, BlockId, HookKey, IsSpan;
    ThisIsSpan(verbs, 0, "before");
    ThisIsSpan(verbs, 0, "after");
    BlockIdInjective("before", verb, "after", verb);
  }

  lemma {:induction false} SpanHooksAre(verbs: seq<string>)
    requires forall i, j :: 0 <= i < j < |verbs| ==> verbs[i] != verbs[j]
    ensures forall h :: h in SpanHooks(verbs) ==> IsSpan(h, verbs)
    ensures forall i, j :: 0 <= i < j < |SpanHooks(verbs)| ==> SpanHooks(verbs)[i].unit != SpanHooks(verbs)[j].unit
    decreases verbs
  {
    hide SpanHook, BlockId, IsSpan;
    if verbs != [] {
      var rest := verbs[1..];
      SpanHooksAre(rest);
      forall h | h in SpanHooks(rest)
        ensures IsSpan(h, verbs) && h.unit != BlockId("before", verbs[0]) && h.unit != BlockId("after", verbs[0])
      {
        LaterSpan(h, verbs);
      }
      SpansOfOneAre(verbs[0], verbs);
      DistinctConcat(SpansOfOne(verbs[0]), SpanHooks(rest));
    }
  }

  lemma DistinctConcat(a: seq<Hook>, b: seq<Hook>)
    requires forall i, j :: 0 <= i < j < |a| ==> a[i].unit != a[j].unit
    requires forall i, j :: 0 <= i < j < |b| ==> b[i].unit != b[j].unit
    requires forall x, y :: x in a && y in b ==> x.unit != y.unit
    ensures forall i, j :: 0 <= i < j < |a + b| ==> (a + b)[i].unit != (a + b)[j].unit
  {
    forall i, j | 0 <= i < j < |a + b| ensures (a + b)[i].unit != (a + b)[j].unit {
      if i < |a| <= j {
        assert (a + b)[i] in a && (a + b)[j] in b;
      }
    }
  }

  lemma SpanIsOk(h: Hook)
    requires IsSpan(h, WORKFLOW_VERBS)
    ensures HookOk(h, UnitSet(), VerbSet()) && h.unit != UNIT_ID
  {
    hide BlockId, HookKey, ObserveStepEntry, HookEntry, SpanUnits;
    var verbs := WORKFLOW_VERBS;
    SpanUnitsAre(verbs);
    WordsAreSingle();
    var i, p :| 0 <= i < |verbs| && p in ["before", "after"] && h == SpanHook(p, verbs[i]);
    ObserveStepIsHookEntry(verbs[i], p);
    BlockIdInjective(p, verbs[i], p, verbs[i]);
    assert h.unit in SpanUnits(verbs);
    assert verbs[i] in verbs;
  }

  lemma AllHooksOk()
    ensures HooksOk(AllHooks(), UnitSet(), VerbSet()) && AllHooks() != []
  {
    hide BlockId, HookKey, ObserveStepEntry, AfterImplementEntry, HookEntry, SpanHooks, SpanUnits;
    var verbs := WORKFLOW_VERBS;
    forall i, j | 0 <= i < j < |verbs| ensures verbs[i] != verbs[j] { VerbsDiffer(i, j); }
    SpanHooksAre(verbs);
    SpanUnitsAre(verbs);
    WordsAreSingle();
    AfterImplementIsHookEntry();
    var main := Hook(UNIT_ID, HookKey("after", "implement"), AfterImplementEntry());
    assert verbs[6] == "implement" && main.verb in VerbSet();
    forall h | h in SpanHooks(verbs) ensures HookOk(h, UnitSet(), VerbSet()) && h.unit != UNIT_ID {
      SpanIsOk(h);
    }
    DistinctConcat([main], SpanHooks(verbs));
  }

  lemma NamesAreOk()
    ensures NamesOk(UnitSet(), VerbSet())
  {
    hide UnitOk, VerbOk, UnitSet, VerbSet;
    UnitSetOk();
    VerbSetOk();
  }

  // ---- where the hooks stand after the install ----

  lemma HookKeyInjective(p: string, v: string, q: string, w: string)
    requires (p == "before" || p == "after") && (q == "before" || q == "after")
    ensures HookKey(p, v) == HookKey(q, w) ==> p == q && v == w
  {
    assert HookKey(p, v)[0] == p[0] && HookKey(q, w)[0] == q[0];
    assert HookKey(p, v)[|p| + 1..] == v && HookKey(q, w)[|q| + 1..] == w;
  }

  lemma SpansApart(g: Hook, h: Hook, verbs: seq<string>)
    requires IsSpan(g, verbs) && IsSpan(h, verbs) && g.unit != h.unit
    ensures g.verb != h.verb
  {
    hide ObserveStepEntry, BlockId, HookKey;
    var i, p :| 0 <= i < |verbs| && p in ["before", "after"] && g == SpanHook(p, verbs[i]);
    var j, q :| 0 <= j < |verbs| && q in ["before", "after"] && h == SpanHook(q, verbs[j]);
    HookKeyInjective(p, verbs[i], q, verbs[j]);
  }

  /** The main block's key is not taken a second time, and every other key gets its hook. */
  lemma {:induction false} SpanHooksCover(verbs: seq<string>)
    ensures forall h :: h in SpanHooks(verbs) ==> h.verb != HookKey("after", "implement")
    ensures forall i :: 0 <= i < |verbs| ==> SpanHook("before", verbs[i]) in SpanHooks(verbs)
    ensures forall i :: 0 <= i < |verbs| && verbs[i] != "implement" ==> SpanHook("after", verbs[i]) in SpanHooks(verbs)
    decreases verbs
  {
    hide BlockId, HookKey, ObserveStepEntry;
    if verbs != [] {
      var rest, one := verbs[1..], SpansOfOne(verbs[0]);
      SpanHooksCover(rest);
      assert SpanHooks(verbs) == one + SpanHooks(rest);
      assert forall i :: 0 < i < |verbs| ==> verbs[i] == rest[i - 1];
      HookKeyInjective("before", verbs[0], "after", "implement");
      HookKeyInjective("after", verbs[0], "after", "implement");
    }
  }

  lemma AllHooksApart()
    ensures Apart(AllHooks())
  {
    hide BlockId, HookKey, SpanHook, ObserveStepEntry, AfterImplementEntry, SpanHooks, IsSpan, HookOk, UnitSet, VerbSet;
    var verbs, spans := WORKFLOW_VERBS, SpanHooks(WORKFLOW_VERBS);
    AllHooksOk();
    forall i, j | 0 <= i < j < |verbs| ensures verbs[i] != verbs[j] { VerbsDiffer(i, j); }
    SpanHooksAre(verbs);
    SpanHooksCover(verbs);
    var all := AllHooks();
    assert all == [all[0]] + spans;
    forall i, j | 0 <= i < j < |all| ensures all[i].unit != all[j].unit && all[i].verb != all[j].verb {
      assert all[j] == spans[j - 1] && spans[j - 1] in spans;
      if i > 0 {
        assert all[i] == spans[i - 1] && spans[i - 1] in spans;
        SpansApart(all[i], all[j], verbs);
      }
    }
  }

  /** The spans of a verb, each under the key of its phase. */
  ghost predicate SpansStand(ls: seq<string>, v: string) {
    && HookStands(ls, Hook("workflow-spans-before-" + v, "before_" + v, ObserveStepEntry(v, "before")))
    && (v != "implement" ==>
          HookStands(ls, Hook("workflow-spans-after-" + v, "after_" + v, ObserveStepEntry(v, "after"))))
  }

  /** Every hook in its place: the main one, and the spans of each verb. */
  ghost predicate AllStand(ls: seq<string>) {
    && HookStands(ls, Hook("claude-code-deploy", "after_implement", AfterImplementEntry()))
    && forall v :: v in WORKFLOW_VERBS ==> SpansStand(ls, v)
  }

  lemma SpelledOut(v: string)
    ensures SpanHook("before", v) == Hook("workflow-spans-before-" + v, "before_" + v, ObserveStepEntry(v, "before"))
    ensures SpanHook("after", v) == Hook("workflow-spans-after-" + v, "after_" + v, ObserveStepEntry(v, "after"))
  {
    hide ObserveStepEntry;
    assert SPANS_ID + "-" + "before" + "-" == "workflow-spans-before-" && SPANS_ID + "-" + "after" + "-" == "workflow-spans-after-";
    assert "before" + "_" == "before_" && "after" + "_" == "after_";
  }

  lemma VerbStands(ls: seq<string>, v: string)
    requires HookStands(ls, SpanHook("before", v)) && (v != "implement" ==> HookStands(ls, SpanHook("after", v)))
    ensures SpansStand(ls, v)
  {
    hide HookStands, ObserveStepEntry, SpanHook;
    SpelledOut(v);
  }

  lemma VerbsStand(ls: seq<string>, verbs: seq<string>)
    requires forall h :: h in SpanHooks(verbs) ==> HookStands(ls, h)
    ensures forall v :: v in verbs ==> SpansStand(ls, v)
  {
    hide *;
    SpanHooksCover(verbs);
    forall v | v in verbs ensures SpansStand(ls, v) {
      var i :| 0 <= i < |verbs| && verbs[i] == v;
      VerbStands(ls, v);
    }
  }

  lemma MainStands(ls: seq<string>, main: Hook)
    requires main == Hook(UNIT_ID, HookKey("after", "implement"), AfterImplementEntry()) && HookStands(ls, main)
    ensures HookStands(ls, Hook("claude-code-deploy", "after_implement", AfterImplementEntry()))
  {
    hide HookStands, AfterImplementEntry;
    assert HookKey("after", "implement") == "after_implement";
  }

  lemma InstalledStand(yml: string)
    requires forall u :: u in UnitSet() ==> !Has(Lines(yml), u)
    ensures AllStand(Lines(InstallAll(yml, AllHooks())))
  {
    hide Lines, Has, InstallAll, SpanHook, HookKey, ObserveStepEntry, AfterImplementEntry, SpanHooks, HookStands, UnitSet, VerbSet,
         SpansStand, HookOk, Apart, NamesOk;
    var all, ls := AllHooks(), Lines(InstallAll(yml, AllHooks()));
    AllHooksOk();
    AllHooksApart();
    NamesAreOk();
    forall h | h in all ensures h.unit in UnitSet() { UnitOfHook(h, UnitSet(), VerbSet()); }
    InstalledHooksStand(yml, all, UnitSet(), VerbSet());
    assert all[0] in all && forall h :: h in SpanHooks(WORKFLOW_VERBS) ==> h in all;
    MainStands(ls, all[0]);
    VerbsStand(ls, WORKFLOW_VERBS);
  }

  method InstallInOrder(yml: string) returns (r: string)
    ensures r == InstallAll(yml, AllHooks())
  {
    hide AddText, Placed, Lines, TrimEnd, BodyLines, EndsInNewline, ObserveStepEntry, InstallAll, SpanHook, AfterImplementEntry, SpanHooks;
    WordsAreSingle();
    r := YamlFence.Add(yml, UNIT_ID, HookKey("after", "implement"), AfterImplementEntry());
    ghost var done := [Hook(UNIT_ID, HookKey("after", "implement"), AfterImplementEntry())];
    assert r == InstallAll(yml, done) by { OneInstall(yml, done[0]); }
    assert WORKFLOW_VERBS[0..] == WORKFLOW_VERBS;
    for i := 0 to |WORKFLOW_VERBS|
      invariant r == InstallAll(yml, done) && done + SpanHooks(WORKFLOW_VERBS[i..]) == AllHooks()
    {
      var verb := WORKFLOW_VERBS[i];
      NextSpanHooks(WORKFLOW_VERBS, i);
      r := RegisterObserveStepHook(r, verb, "before");
      InstallConcat(yml, done, [SpanHook("before", verb)]);
      done := done + [SpanHook("before", verb)];
      if verb == "implement" {
        continue;
      }
      r := RegisterObserveStepHook(r, verb, "after");
      InstallConcat(yml, done, [SpanHook("after", verb)]);
      done := done + [SpanHook("after", verb)];
    }
    assert WORKFLOW_VERBS[|WORKFLOW_VERBS|..] == [];
    assert done + SpanHooks([]) == done by { NoSpanHooks(); }
  }

  /** In a file without these fences, every hook ends up in the list under its own key. */
  method InstallHooks(yml: string) returns (r: string)
    ensures r == InstallAll(yml, AllHooks())
    ensures (forall u :: u in UnitSet() ==> !Has(Lines(yml), u)) ==> AllStand(Lines(r))
  {
    hide *;
    r := InstallInOrder(yml);
    if forall u :: u in UnitSet() ==> !Has(Lines(yml), u) {
      InstalledStand(yml);
    }
  }
}
