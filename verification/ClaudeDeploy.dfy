/**
 The hook entries of the Claude Code deployer in `.specify/extensions.yml`: installing them all,
 removing them all, and sweeping the keys that were synthesised on the way.
 */
module ClaudeDeploy {
  import opened TextLines
  import opened Chars
  import opened Fencing
  import opened YamlFence

  const WORKFLOW_VERBS: seq<string> := ["specify", "clarify", "plan", "tasks", "analyze", "checklist", "implement"]
  const UNIT_ID: string := "claude-code-deploy"
  const SPANS_ID: string := "workflow-spans"

  function BlockId(phase: string, verb: string): string {
    SPANS_ID + "-" + phase + "-" + verb
  }

  function HookKey(phase: string, verb: string): string {
    phase + "_" + verb
  }

  // ---- the entries ----

  /** A field of a hook entry, indented under its list marker. */
  function Field(s: string): string {
    "    " + s
  }

  /** The pieces of a formatted text, put together. */
  function Cat(parts: seq<string>): string {
    if parts == [] then [] else parts[0] + Cat(parts[1..])
  }

  lemma {:induction false} CatSingle(parts: seq<string>)
    requires SingleLines(parts)
    ensures '\n' !in Cat(parts)
    decreases parts
  {
    if parts != [] { CatSingle(parts[1..]); }
  }

  function ObserveStepPrompt(verb: string, phase: string): seq<string> {
    [ "prompt: \"Record ", phase, " ", verb, " span: specere observe record --source=", verb, " --attr phase=", phase,
      " --attr gen_ai.system=claude-code", " --attr specere.workflow_step=", verb, " --feature-dir=$FEATURE_DIR\"" ]
  }

  function ObserveStepDescription(verb: string, phase: string): seq<string> {
    [ "description: \"SpecERE workflow span (", phase, " ", verb, ") — FR-P3-002\"" ]
  }

  function ObserveStepFields(verb: string, phase: string): seq<string> {
    [ "command: specere.observe.step", "enabled: true", "optional: true",
      Cat(ObserveStepPrompt(verb, phase)), Cat(ObserveStepDescription(verb, phase)), "condition: null" ]
  }

  const AFTER_IMPLEMENT_FIELDS: seq<string> := [
    "command: specere.observe.implement", "enabled: true", "optional: false",
    Cat(AFTER_IMPLEMENT_PROMPT), Cat(AFTER_IMPLEMENT_DESCRIPTION), "condition: null" ]

  const AFTER_IMPLEMENT_PROMPT: seq<string> :=
    ["prompt: Record Repo-SLAM observation ", "from the just-completed ", "implement run?"]

  const AFTER_IMPLEMENT_DESCRIPTION: seq<string> :=
    ["description: SpecERE telemetry + ", "post-implement filter step ", "(FR-P1-005)"]

  /** The list marker line and the fields under it. */
  function EntryLines(fields: seq<string>): (ls: seq<string>)
    ensures |ls| == |fields| + 1 && forall i :: 0 <= i < |fields| ==> ls[i + 1] == Field(fields[i])
  {
    ["  - extension: specere"] + seq(|fields|, i requires 0 <= i < |fields| => Field(fields[i]))
  }

  function ObserveStepEntry(verb: string, phase: string): string {
    Join(EntryLines(ObserveStepFields(verb, phase)))
  }

  function AfterImplementEntry(): string {
    Join(EntryLines(AFTER_IMPLEMENT_FIELDS))
  }

  /** An entry made of hook lines only. */
  ghost predicate HookEntry(entry: string) {
    forall l :: l in BodyLines(entry) ==> HookLine(l)
  }

  lemma FieldsMakeHookEntry(fields: seq<string>)
    requires SingleLines(fields) && fields != []
    ensures HookEntry(Join(EntryLines(fields)))
  {
    var ls := EntryLines(fields);
    forall l | l in ls ensures HookLine(l) && '\n' !in l && l != [] {
      var i :| 0 <= i < |ls| && ls[i] == l;
      if i > 0 {
        assert fields[i - 1] in fields;
        FieldIsHookLine(fields[i - 1]);
      } else {
        MarkerIsHookLine();
      }
    }
    JoinEnd(ls);
    LinesJoin(ls);
    assert TrimNewlines(Join(ls)) == Join(ls);
  }

  lemma FieldIsHookLine(s: string)
    requires '\n' !in s
    ensures HookLine(Field(s)) && '\n' !in Field(s)
  {
  }

  lemma MarkerIsHookLine()
    ensures HookLine("  - extension: specere") && '\n' !in "  - extension: specere"
  {
    var l := "  - extension: specere";
    assert l[..4] == "  - ";
  }

  lemma PromptWordsAreSingle()
    ensures '\n' !in "prompt: \"Record " && '\n' !in " span: specere observe record --source="
    ensures '\n' !in " --attr phase="
  {
  }

  lemma PromptTailIsSingle()
    ensures '\n' !in " --attr gen_ai.system=claude-code"
    ensures '\n' !in " --attr specere.workflow_step=" && '\n' !in " --feature-dir=$FEATURE_DIR\""
  {
  }

  lemma PromptIsSingle(verb: string, phase: string)
    requires '\n' !in verb && '\n' !in phase
    ensures '\n' !in Cat(ObserveStepPrompt(verb, phase))
  {
    PromptWordsAreSingle();
    PromptTailIsSingle();
    CatSingle(ObserveStepPrompt(verb, phase));
  }

  lemma DescriptionIsSingle(verb: string, phase: string)
    requires '\n' !in verb && '\n' !in phase
    ensures '\n' !in Cat(ObserveStepDescription(verb, phase))
  {
    assert '\n' !in "description: \"SpecERE workflow span (";
    assert '\n' !in ") — FR-P3-002\"";
    CatSingle(ObserveStepDescription(verb, phase));
  }

  lemma PlainFieldsAreSingle()
    ensures '\n' !in "command: specere.observe.step" && '\n' !in "command: specere.observe.implement"
    ensures '\n' !in "enabled: true" && '\n' !in "optional: true" && '\n' !in "optional: false" && '\n' !in "condition: null"
  {
  }

  lemma AfterImplementPromptIsSingle()
    ensures '\n' !in Cat(AFTER_IMPLEMENT_PROMPT)
  {
    CatSingle(AFTER_IMPLEMENT_PROMPT);
  }

  lemma AfterImplementDescriptionIsSingle()
    ensures '\n' !in Cat(AFTER_IMPLEMENT_DESCRIPTION)
  {
    CatSingle(AFTER_IMPLEMENT_DESCRIPTION);
  }

  lemma ObserveStepIsHookEntry(verb: string, phase: string)
    requires '\n' !in verb && '\n' !in phase
    ensures HookEntry(ObserveStepEntry(verb, phase))
  {
    hide ObserveStepPrompt, ObserveStepDescription, HookEntry, EntryLines, Join, Cat;
    PlainFieldsAreSingle();
    PromptIsSingle(verb, phase);
    DescriptionIsSingle(verb, phase);
    FieldsMakeHookEntry(ObserveStepFields(verb, phase));
  }

  lemma AfterImplementIsHookEntry()
    ensures HookEntry(AfterImplementEntry())
  {
    hide HookEntry, EntryLines, Join, Cat;
    PlainFieldsAreSingle();
    AfterImplementPromptIsSingle();
    AfterImplementDescriptionIsSingle();
    FieldsMakeHookEntry(AFTER_IMPLEMENT_FIELDS);
  }

  // ---- strip_empty_verb_keys ----

  /** `^  (before|after)_(specify|...|implement):\s*$` */
  predicate IsWorkflowKey(l: string) {
    exists p, v :: p in ["before", "after"] && v in WORKFLOW_VERBS && TrimEnd(l) == VerbKey(HookKey(p, v))
  }

  predicate AllSpace(l: string) {
    TrimEnd(l) == []
  }

  /** The next line at or after `from` that is not blank or all spaces. */
  function NextLine(ls: seq<string>, from: nat): (j: nat)
    requires from <= |ls|
    ensures from <= j <= |ls| && (j < |ls| ==> !AllSpace(ls[j])) && forall i :: from <= i < j ==> AllSpace(ls[i])
    decreases |ls| - from
  {
    if from < |ls| && AllSpace(ls[from]) then NextLine(ls, from + 1) else from
  }

  predicate HasChildren(ls: seq<string>, i: nat)
    requires i < |ls|
  {
    var j := NextLine(ls, i + 1);
    j < |ls| && HookLine(ls[j])
  }

  predicate Keeps(ls: seq<string>, i: nat)
    requires i < |ls|
  {
    IsWorkflowKey(ls[i]) ==> HasChildren(ls, i)
  }

  /** The lines from `i` on that stay. */
  function Kept(ls: seq<string>, i: nat): seq<string>
    requires i <= |ls|
    decreases |ls| - i
  {
    if i == |ls| then [] else (if Keeps(ls, i) then [ls[i]] else []) + Kept(ls, i + 1)
  }

  function StripText(yml: string): string {
    Terminated(Kept(Lines(yml), 0), EndsInNewline(yml))
  }

  /**
   A line is dropped if and only if it is the key of a workflow verb's phase and no hook line follows it before any
   other line that is not all spaces.
   */
  lemma DroppedExactly(ls: seq<string>, i: nat)
    requires i < |ls|
    ensures !Keeps(ls, i) <==>
            && (exists p, v :: p in ["before", "after"] && v in WORKFLOW_VERBS && TrimEnd(ls[i]) == "  " + p + "_" + v + ":")
            && forall j :: i < j < |ls| && TrimEnd(ls[j]) != [] && (forall k :: i < k < j ==> TrimEnd(ls[k]) == []) ==>
                             !("  - " <= ls[j]) && !("    " <= ls[j])
  {
    hide TrimEnd;
    forall p, v ensures VerbKey(HookKey(p, v)) == "  " + p + "_" + v + ":" {
      KeyText(p, v);
    }
    var next := NextLine(ls, i + 1);
    assert forall j :: i < j < |ls| && TrimEnd(ls[j]) != [] && (forall k :: i < k < j ==> TrimEnd(ls[k]) == []) ==> j == next;
  }

  lemma KeyText(p: string, v: string)
    ensures VerbKey(HookKey(p, v)) == "  " + p + "_" + v + ":"
  {
  }

  /** The numbers of the lines from `i` on that are not dropped. */
  function KeptAt(ls: seq<string>, i: nat): (at: seq<nat>)
    requires i <= |ls|
    ensures forall k :: 0 <= k < |at| ==> i <= at[k] < |ls|
    decreases |ls| - i
  {
    if i == |ls| then [] else (if Keeps(ls, i) then [i] else []) + KeptAt(ls, i + 1)
  }

  lemma {:induction false} KeptAtAre(ls: seq<string>, i: nat)
    requires i <= |ls|
    ensures forall x: nat :: x in KeptAt(ls, i) <==> i <= x < |ls| && Keeps(ls, x)
    ensures forall j, k :: 0 <= j < k < |KeptAt(ls, i)| ==> KeptAt(ls, i)[j] < KeptAt(ls, i)[k]
    decreases |ls| - i
  {
    hide Keeps;
    if i < |ls| { KeptAtAre(ls, i + 1); }
  }

  /** The lines that stay are those that are not dropped, in their order. */
  lemma {:induction false} KeptInOrder(ls: seq<string>, i: nat)
    requires i <= |ls|
    ensures |Kept(ls, i)| == |KeptAt(ls, i)|
    ensures forall k :: 0 <= k < |KeptAt(ls, i)| ==> Kept(ls, i)[k] == ls[KeptAt(ls, i)[k]]
    decreases |ls| - i
  {
    hide Keeps;
    if i < |ls| { KeptInOrder(ls, i + 1); }
  }

  /** Looking past blank lines for a hook line. */
  method LookForChildren(lines: seq<string>, i: nat) returns (hasChildren: bool)
    requires i < |lines|
    ensures hasChildren == HasChildren(lines, i)
  {
    hide HookLine, AllSpace;
    var j := i + 1;
    while j < |lines| && AllSpace(lines[j])
      invariant i + 1 <= j <= |lines| && NextLine(lines, i + 1) == NextLine(lines, j)
    {
      j := j + 1;
    }
    hasChildren := j < |lines| && HookLine(lines[j]);
  }

  method StripEmptyVerbKeys(yml: string) returns (s: string)
    ensures s == StripText(yml)
  {
    hide IsWorkflowKey, HasChildren, Lines, Join;
    var lines := Lines(yml);
    var keep := new bool[|lines|];
    for i := 0 to |lines|
      invariant forall k :: 0 <= k < i ==> keep[k] == Keeps(lines, k)
    {
      keep[i] := true;
      if IsWorkflowKey(lines[i]) {
        var hasChildren := LookForChildren(lines, i);
        if !hasChildren {
          keep[i] := false;
        }
      }
    }
    var out: seq<string> := [];
    for i := 0 to |lines|
      invariant forall k :: 0 <= k < |lines| ==> keep[k] == Keeps(lines, k)
      invariant out + Kept(lines, i) == Kept(lines, 0)
    {
      if keep[i] {
        out := out + [lines[i]];
      }
    }
    assert out + Kept(lines, |lines|) == out;
    s := Join(out);
    if EndsInNewline(yml) {
      s := s + "\n";
    }
  }

  /** A key with another unit's fence directly under it looks empty, whatever hooks the fence holds. */
  lemma ForeignFenceHidesHooks(ls: seq<string>, i: nat, unit: string)
    requires i + 1 < |ls| && IsWorkflowKey(ls[i]) && ls[i + 1] == BeginMarker(Yaml, unit)
    ensures !Keeps(ls, i) && Kept(ls, i) == Kept(ls, i + 1)
  {
    var m := BeginMarker(Yaml, unit);
    assert m[..8] == "  # >>> " && m[2] == '#';
    MarkerIsNotSpace(m);
  }

  lemma MarkerIsNotSpace(m: string)
    requires |m| > 2 && m[2] == '#'
    ensures !AllSpace(m) && !HookLine(m)
  {
    hide IsSpace;
    HashIsNoSpace();
    NotAllSpace(m, 2);
  }

  lemma HashIsNoSpace()
    ensures !IsSpace('#')
  {
  }

  lemma {:induction false} NotAllSpace(l: string, k: nat)
    requires k < |l| && !IsSpace(l[k])
    ensures !AllSpace(l)
    decreases |l|
  {
    if IsSpace(l[|l| - 1]) {
      NotAllSpace(l[..|l| - 1], k);
    }
  }

  // ---- what the sweep does to a file with synthesised keys in one place ----

  /** Whether a line stays depends only on it and what follows. */
  lemma {:induction false} NextLineShift(a: seq<string>, i: nat, b: seq<string>, j: nat)
    requires i <= |a| && j <= |b| && a[i..] == b[j..]
    ensures NextLine(a, i) - i == NextLine(b, j) - j
    decreases |a| - i
  {
    if i < |a| {
      assert a[i] == a[i..][0] == b[j..][0] == b[j];
      assert a[i + 1..] == a[i..][1..] == b[j..][1..] == b[j + 1..];
      NextLineShift(a, i + 1, b, j + 1);
    }
  }

  lemma {:induction false} KeptShift(a: seq<string>, i: nat, b: seq<string>, j: nat)
    requires i <= |a| && j <= |b| && a[i..] == b[j..]
    ensures Kept(a, i) == Kept(b, j)
    decreases |a| - i
  {
    hide IsWorkflowKey, HookLine, NextLine;
    if i < |a| {
      assert a[i] == a[i..][0] == b[j..][0] == b[j];
      assert a[i + 1..] == a[i..][1..] == b[j..][1..] == b[j + 1..];
      NextLineShift(a, i + 1, b, j + 1);
      var x, y := NextLine(a, i + 1), NextLine(b, j + 1);
      if x < |a| { assert a[x] == a[i + 1..][x - i - 1] == b[j + 1..][y - j - 1] == b[y]; }
      KeptShift(a, i + 1, b, j + 1);
    }
  }

  /** The lines from `i` up to `j` that stay. */
  function KeptIn(ls: seq<string>, i: nat, j: nat): seq<string>
    requires i <= j <= |ls|
    decreases j - i
  {
    if i == j then [] else (if Keeps(ls, i) then [ls[i]] else []) + KeptIn(ls, i + 1, j)
  }

  lemma {:induction false} KeptSplit(ls: seq<string>, i: nat, j: nat)
    requires i <= j <= |ls|
    ensures Kept(ls, i) == KeptIn(ls, i, j) + Kept(ls, j)
    decreases j - i
  {
    hide Keeps;
    if i < j {
      KeptSplit(ls, i + 1, j);
      Associate(if Keeps(ls, i) then [ls[i]] else [], KeptIn(ls, i + 1, j), Kept(ls, j));
    }
  }

  /** Nothing is dropped exactly when every line stays. */
  lemma {:induction false} KeptInFull(ls: seq<string>, i: nat, j: nat)
    requires i <= j <= |ls|
    ensures |KeptIn(ls, i, j)| <= j - i
    ensures |KeptIn(ls, i, j)| == j - i <==> KeptIn(ls, i, j) == ls[i..j]
    ensures |KeptIn(ls, i, j)| == j - i <==> forall k :: i <= k < j ==> Keeps(ls, k)
    decreases j - i
  {
    hide Keeps;
    if i < j {
      KeptInFull(ls, i + 1, j);
      FirstOf(ls, i, j);
      var rest := KeptIn(ls, i + 1, j);
      if Keeps(ls, i) {
        assert KeptIn(ls, i, j) == [ls[i]] + rest;
      } else {
        assert KeptIn(ls, i, j) == [] + rest == rest;
      }
    }
  }

  lemma FirstOf(ls: seq<string>, i: nat, j: nat)
    requires i < j <= |ls|
    ensures ls[i..j] == [ls[i]] + ls[i + 1..j]
  {
  }

  lemma {:induction false} KeptInSame(a: seq<string>, b: seq<string>, i: nat, j: nat)
    requires i <= j <= |a| && j <= |b|
    requires forall k :: i <= k < j ==> a[k] == b[k] && (Keeps(a, k) <==> Keeps(b, k))
    ensures KeptIn(a, i, j) == KeptIn(b, i, j)
    decreases j - i
  {
    hide Keeps;
    if i < j {
      KeptInSame(a, b, i + 1, j);
    }
  }

  // ---- synthesised keys that sit together right behind the `hooks:` line ----

  /** The first line after some blank ones is a hook. */
  predicate HookNext(after: seq<string>) {
    var j := NextLine(after, 0);
    j < |after| && HookLine(after[j])
  }

  /** All the keys are swept, except the last one when a hook comes next. */
  lemma KeysSwept(front: seq<string>, keys: seq<string>, after: seq<string>)
    requires forall k :: k in keys ==> IsWorkflowKey(k)
    ensures KeptIn(front + keys + after, |front|, |front| + |keys|)
            == if keys != [] && HookNext(after) then [keys[|keys| - 1]] else []
  {
    hide IsWorkflowKey, Keeps, HookNext, KeptIn;
    var f, x, y := front + keys + after, |front|, |front| + |keys|;
    if keys == [] {
      NoneKept(f, x);
    } else {
      forall k | x <= k < y ensures Keeps(f, k) <==> k == y - 1 && HookNext(after) {
        KeySwept(front, keys, after, k - x);
      }
      OnlyLast(f, x, y);
      LastKey(front, keys, after);
    }
  }

  lemma LastKey(front: seq<string>, keys: seq<string>, after: seq<string>)
    requires keys != []
    ensures (front + keys + after)[|front| + |keys| - 1] == keys[|keys| - 1]
  {
  }

  lemma NoneKept(ls: seq<string>, i: nat)
    requires i <= |ls|
    ensures KeptIn(ls, i, i) == []
  {
  }

  lemma {:induction false} OnlyLast(ls: seq<string>, i: nat, j: nat)
    requires i < j <= |ls| && forall k :: i <= k < j - 1 ==> !Keeps(ls, k)
    ensures KeptIn(ls, i, j) == if Keeps(ls, j - 1) then [ls[j - 1]] else []
    decreases j - i
  {
    hide Keeps;
    if i + 1 < j {
      OnlyLast(ls, i + 1, j);
    } else {
      assert KeptIn(ls, j, j) == [];
    }
  }

  /** What the sweep makes of a file with synthesised keys behind `hooks:`, part by part. */
  lemma SweptParts(before: seq<string>, h: string, keys: seq<string>, after: seq<string>)
    requires TrimEnd(h) == HOOKS && forall k :: k in keys ==> IsWorkflowKey(k)
    ensures var o := before + [h] + after; var x := |before|;
            Kept(before + [h] + keys + after, 0)
            == KeptIn(o, 0, x) + [h] + (if keys != [] && HookNext(after) then [keys[|keys| - 1]] else [])
               + KeptIn(o, x + 1, |o|)
  {
    hide IsWorkflowKey, Keeps, HookNext, KeptIn;
    var o, f := before + [h] + after, before + [h] + keys + after;
    var x, y := |before| + 1, |before| + 1 + |keys|;
    forall i | 0 <= i < x ensures f[i] == o[i] && (Keeps(f, i) <==> Keeps(o, i)) {
      KeptBefore(before, h, keys, after, i);
    }
    KeptSplit(f, 0, x);
    KeptSplit(f, x, y);
    KeptInSame(f, o, 0, x);
    HooksStays(before, h, after);
    KeysSwept(before + [h], keys, after);
    assert f[y..] == after == o[x..];
    KeptShift(f, y, o, x);
    WholeKept(o, x);
    var kk := KeptIn(f, x, y);
    Associate(KeptIn(o, 0, x), kk, KeptIn(o, x, |o|));
  }

  lemma WholeKept(ls: seq<string>, i: nat)
    requires i <= |ls|
    ensures Kept(ls, i) == KeptIn(ls, i, |ls|)
  {
    KeptSplit(ls, i, |ls|);
    assert Kept(ls, |ls|) == [];
  }

  lemma HooksStays(before: seq<string>, h: string, after: seq<string>)
    requires TrimEnd(h) == HOOKS
    ensures var o := before + [h] + after; KeptIn(o, 0, |before| + 1) == KeptIn(o, 0, |before|) + [h]
  {
    hide IsWorkflowKey;
    var o, x := before + [h] + after, |before|;
    NotHookLine(h);
    assert o[x] == h && Keeps(o, x);
    KeptInSplit(o, 0, x, x + 1);
    assert KeptIn(o, x + 1, x + 1) == [];
  }

  lemma {:induction false} KeptInSplit(ls: seq<string>, i: nat, m: nat, j: nat)
    requires i <= m <= j <= |ls|
    ensures KeptIn(ls, i, j) == KeptIn(ls, i, m) + KeptIn(ls, m, j)
    decreases m - i
  {
    hide Keeps;
    if i < m {
      KeptInSplit(ls, i + 1, m, j);
      Associate(if Keeps(ls, i) then [ls[i]] else [], KeptIn(ls, i + 1, m), KeptIn(ls, m, j));
    }
  }

  /**
   The sweep takes away exactly the synthesised keys if and only if every original workflow key has a hook
   behind it, and no hook comes first behind the `hooks:` line when there is a key to sweep.
   */
  lemma SweepExactly(before: seq<string>, h: string, keys: seq<string>, after: seq<string>)
    requires TrimEnd(h) == HOOKS && (forall l :: l in before ==> TrimEnd(l) != HOOKS)
    requires forall k :: k in keys ==> IsWorkflowKey(k)
    ensures var o := before + [h] + after;
            Kept(before + [h] + keys + after, 0) == o
            <==> (forall i :: 0 <= i < |o| ==> Keeps(o, i)) && (keys == [] || !HookNext(after))
  {
    hide IsWorkflowKey, Keeps, HookNext, KeptIn, Kept;
    var o, x := before + [h] + after, |before|;
    SweptParts(before, h, keys, after);
    KeptInFull(o, 0, x);
    KeptInFull(o, x + 1, |o|);
    HooksKeeps(before, h, after);
    assert o[0..x] == before && o[x + 1..|o|] == after;
    if keys != [] && HookNext(after) {
      assert keys[|keys| - 1] in keys;
      NotOneForAnother(before, h, keys[|keys| - 1], after, KeptIn(o, 0, x), KeptIn(o, x + 1, |o|));
    }
  }

  lemma HooksKeeps(before: seq<string>, h: string, after: seq<string>)
    requires TrimEnd(h) == HOOKS
    ensures Keeps(before + [h] + after, |before|)
  {
    hide IsWorkflowKey;
    NotHookLine(h);
  }

  /** A key left over cannot make up for a line swept elsewhere. */
  lemma NotOneForAnother(before: seq<string>, h: string, key: string, after: seq<string>, ka: seq<string>, kb: seq<string>)
    requires TrimEnd(h) == HOOKS && (forall l :: l in before ==> TrimEnd(l) != HOOKS)
    requires IsWorkflowKey(key) && HookNext(after)
    requires |ka| <= |before| && (|ka| == |before| ==> ka == before) && |kb| <= |after|
    ensures ka + [h] + [key] + kb != before + [h] + after
  {
    hide IsWorkflowKey, HookLine, AllSpace;
    var l, r := ka + [h] + [key] + kb, before + [h] + after;
    WorkflowKeyFacts(key);
    assert l[|ka|] == h && l[|ka| + 1] == key && r[|before|] == h;
    if |ka| < |before| {
      assert r[|ka|] == before[|ka|] && before[|ka|] in before;
    } else if after != [] {
      assert r[|before| + 1] == after[0];
      assert !AllSpace(after[0]) ==> NextLine(after, 0) == 0;
    }
  }

  lemma NotHookLine(h: string)
    requires TrimEnd(h) == HOOKS
    ensures !HookLine(h) && !AllSpace(h) && !IsWorkflowKey(h)
  {
    assert TrimEnd(h)[0] == 'h' && h[0] == 'h';
    forall p, v ensures VerbKey(HookKey(p, v)) != HOOKS {
      assert VerbKey(HookKey(p, v))[0] == ' ';
    }
  }

  /** Whether a line before the keys stays does not depend on them. */
  lemma KeptBefore(before: seq<string>, h: string, keys: seq<string>, after: seq<string>, i: nat)
    requires TrimEnd(h) == HOOKS && i <= |before|
    ensures var o, f := before + [h] + after, before + [h] + keys + after;
            f[i] == o[i] && (Keeps(f, i) <==> Keeps(o, i))
  {
    hide IsWorkflowKey, HookLine, AllSpace;
    NotHookLine(h);
    var o, f := before + [h] + after, before + [h] + keys + after;
    assert f[i] == o[i];
    assert f[|before|] == h && o[|before|] == h;
    if i < |before| {
      var x, y := NextLine(o, i + 1), NextLine(f, i + 1);
      assert x <= |before| && y <= |before|;
      assert forall k :: 0 <= k <= |before| ==> o[k] == f[k];
      assert x == y;
    }
  }

  /** A key stays only if it is the last one and a hook comes next. */
  lemma KeySwept(front: seq<string>, keys: seq<string>, after: seq<string>, i: nat)
    requires i < |keys| && forall k :: k in keys ==> IsWorkflowKey(k)
    ensures Keeps(front + keys + after, |front| + i) <==> i == |keys| - 1 && HookNext(after)
  {
    hide IsWorkflowKey, HookLine, AllSpace, NextLine, HasChildren;
    var f, at := front + keys + after, |front| + i;
    assert f[at] == keys[i] && keys[i] in keys;
    if i + 1 < |keys| {
      assert f[at + 1] == keys[i + 1] && keys[i + 1] in keys;
      KeyFollowed(f, at);
    } else {
      TailOf(front + keys, after);
      SameTail(f, at, after);
    }
  }

  lemma KeyFollowed(f: seq<string>, at: nat)
    requires at + 1 < |f| && IsWorkflowKey(f[at + 1])
    ensures !HasChildren(f, at)
  {
    hide IsWorkflowKey, HookLine, AllSpace;
    WorkflowKeyFacts(f[at + 1]);
  }

  lemma SameTail(f: seq<string>, at: nat, after: seq<string>)
    requires at < |f| && f[at + 1..] == after[0..]
    ensures HasChildren(f, at) <==> HookNext(after)
  {
    hide HookLine, NextLine;
    NextLineShift(f, at + 1, after, 0);
    var j := NextLine(f, at + 1);
    assert j < |f| ==> f[j] == f[at + 1..][j - at - 1];
  }

  lemma TailOf(a: seq<string>, b: seq<string>)
    ensures (a + b)[|a|..] == b[0..]
  {
  }

  lemma WorkflowKeyFacts(l: string)
    requires IsWorkflowKey(l)
    ensures !HookLine(l) && !AllSpace(l)
  {
    var p, v :| p in ["before", "after"] && v in WORKFLOW_VERBS && TrimEnd(l) == VerbKey(HookKey(p, v));
    assert TrimEnd(l)[2] == p[0] && l[2] == p[0];
  }
}
