/** Many runs over a growing event log: which events count, how often, and what the saved beliefs mean. */
module FilterHistory {
  import opened Beliefs
  import opened Hmm
  import opened Events
  import opened FilterRun
  import Calibration
  import Evidence
  import Harness

  // ---- the cursor ----

  lemma LatestIsUnique(es: seq<Event>, r: Cursor)
    requires es != []
    requires forall e :: e in es ==> AtMost(Upto(e.ts), r)
    requires exists e :: e in es && r == Upto(e.ts)
    ensures Latest(es) == r
  {
    var l := Latest(es);
    var e :| e in es && l == Upto(e.ts);
    var f :| f in es && r == Upto(f.ts);
    BothAtMost(l, r);
  }

  lemma BothAtMost(a: Cursor, b: Cursor)
    requires AtMost(a, b) && AtMost(b, a)
    ensures a == b
  {
    if a.Upto? && a != b {
      AtMostTransitive(a, b, a);
      Ordering.StringLessLaws(a.ts, b.ts, a.ts);
    }
  }

  lemma NewerMeansBeyond(e: Event, c: Cursor)
    requires Newer(e, c)
    ensures AtMost(c, Upto(e.ts))
  {
  }

  /** Later events decide the latest timestamp. */
  lemma LatestOfBoth(first: seq<Event>, second: seq<Event>)
    requires second != [] && forall e :: e in second ==> Newer(e, Latest(first))
    ensures Latest(first + second) == Latest(second)
  {
    var r := Latest(second);
    forall e | e in first + second ensures AtMost(Upto(e.ts), r) {
      if e in first {
        NewerMeansBeyond(second[0], Latest(first));
        AtMostTransitive(Upto(e.ts), Latest(first), Upto(second[0].ts));
        AtMostTransitive(Upto(e.ts), Upto(second[0].ts), r);
      }
    }
    var e :| e in second && r == Upto(e.ts);
    assert e in first + second;
    LatestIsUnique(first + second, r);
  }

  lemma BatchIsNewer(log: seq<Event>, c: Cursor, e: Event)
    ensures e in Batch(log, c) <==> e in log && Newer(e, c)
  {
    var at := NewOnes(log, |log|, c);
    var b := Batch(log, c);
    if e in b {
      var i :| 0 <= i < |b| && b[i] == e;
      assert at[i] in at;
    }
    if e in log && Newer(e, c) {
      var k :| 0 <= k < |log| && log[k] == e;
      assert k in at;
      var i :| 0 <= i < |at| && at[i] == k;
      assert b[i] == e;
    }
  }

  /** A run leaves no event ahead of its cursor, and never moves the cursor back. */
  lemma RunTakesEverything(c: Config, p: PosteriorFile, log: seq<Event>, sensor: Sensor)
    requires Proper(c) && ProperEntries(p.entries) && PositiveSensor(sensor)
    ensures var q := RunResult(c, p, log, sensor);
            && AtMost(p.cursor, q.cursor)
            && (forall e :: e in log ==> !Newer(e, q.cursor))
            && (q.cursor == p.cursor <==> Batch(log, p.cursor) == [])
  {
    hide Proper, ProperEntries, PositiveSensor, ApplyAll, Snapshot, SortEntries, Batch, AtMost, Newer;
    var q := RunResult(c, p, log, sensor);
    var batch := Batch(log, p.cursor);
    if batch != [] {
      BatchIsNewer(log, p.cursor, batch[0]);
      NewerMeansBeyond(batch[0], p.cursor);
      AtMostTransitive(p.cursor, Upto(batch[0].ts), q.cursor);
      NewerOrAtMost(batch[0], p.cursor);
    } else {
      AtMostItself(p.cursor);
    }
    forall e | e in log ensures !Newer(e, q.cursor) {
      BatchIsNewer(log, p.cursor, e);
      NewerOrAtMost(e, p.cursor);
      NewerOrAtMost(e, q.cursor);
      if !Newer(e, p.cursor) {
        AtMostTransitive(Upto(e.ts), p.cursor, q.cursor);
      }
    }
  }

  lemma AtMostItself(c: Cursor)
    ensures AtMost(c, c)
  {
  }

  lemma EntriesSorted(es: seq<Entry>)
    ensures Ordering.Ordered(EntryBefore, SortEntries(es)) && multiset(SortEntries(es)) == multiset(es)
  {
    EntryOrder();
    Ordering.SortIsSorted(EntryBefore, es);
  }

  lemma SortedEntriesStay(es: seq<Entry>)
    requires Ordering.Ordered(EntryBefore, es)
    ensures SortEntries(es) == es
  {
    Ordering.SortKeepsSorted(EntryBefore, es);
  }

  lemma ResultIsProper(c: Config, p: PosteriorFile, log: seq<Event>, sensor: Sensor)
    requires Proper(c) && ProperEntries(p.entries) && PositiveSensor(sensor)
    ensures ProperEntries(RunResult(c, p, log, sensor).entries)
    ensures Ordering.Ordered(EntryBefore, RunResult(c, p, log, sensor).entries)
  {
    hide Proper, PositiveSensor, ApplyAll, Snapshot, SortEntries, Batch, Resumed;
    var batch := Batch(log, p.cursor);
    if batch == [] {
      EntriesSorted(p.entries);
      forall e | e in SortEntries(p.entries) ensures Seedable(e.belief) {
        assert e in multiset(p.entries);
      }
    } else {
      var b := ApplyAll(c, Resumed(c, p.entries), batch, sensor);
      SnapshotIsProper(c, b, Latest(batch).ts);
      SnapshotIsOrdered(c, b, Latest(batch).ts);
    }
  }

  /** Running again with nothing new leaves the posterior exactly as it is. */
  lemma RerunIsIdle(c: Config, p: PosteriorFile, log: seq<Event>, sensor: Sensor)
    requires Proper(c) && ProperEntries(p.entries) && PositiveSensor(sensor)
    ensures var q := RunResult(c, p, log, sensor);
            ProperEntries(q.entries) && RunResult(c, q, log, sensor) == q
  {
    var q := RunResult(c, p, log, sensor);
    RunTakesEverything(c, p, log, sensor);
    ResultIsProper(c, p, log, sensor);
    SortedEntriesStay(q.entries);
    NothingNew(log, q.cursor);
    hide *;
    IdleRun(c, q, log, sensor);
  }

  lemma NothingNew(log: seq<Event>, c: Cursor)
    requires forall e :: e in log ==> !Newer(e, c)
    ensures Batch(log, c) == []
  {
    hide Newer;
    var b := Batch(log, c);
    if b != [] {
      BatchIsNewer(log, c, b[0]);
    }
  }

  lemma IdleRun(c: Config, p: PosteriorFile, log: seq<Event>, sensor: Sensor)
    requires Proper(c) && ProperEntries(p.entries) && PositiveSensor(sensor)
    requires Batch(log, p.cursor) == [] && SortEntries(p.entries) == p.entries
    ensures RunResult(c, p, log, sensor) == p
  {
  }

  // ---- resuming does not depend on the order of the entries ----

  function Of(es: seq<Entry>, id: string): seq<Entry> {
    if es == [] then [] else (if es[0].id == id then [es[0]] else []) + Of(es[1..], id)
  }

  lemma {:induction false} OfAppend(es: seq<Entry>, e: Entry, id: string)
    ensures Of(es + [e], id) == Of(es, id) + if e.id == id then [e] else []
  {
    if es != [] {
      assert (es + [e])[1..] == es[1..] + [e];
      OfAppend(es[1..], e, id);
    }
  }

  lemma {:induction false} InsertIsStable(e: Entry, sorted: seq<Entry>, id: string)
    ensures Of(Ordering.InsertStable(EntryBefore, e, sorted), id) == (if e.id == id then [e] else []) + Of(sorted, id)
  {
    hide Ordering.StringLess;
    if sorted != [] && Ordering.StringLess(sorted[0].id, e.id) {
      Ordering.StringLessLaws(e.id, e.id, e.id);
      InsertIsStable(e, sorted[1..], id);
      assert Ordering.InsertStable(EntryBefore, e, sorted) == [sorted[0]] + Ordering.InsertStable(EntryBefore, e, sorted[1..]);
      hide *;
      assert sorted == [sorted[0]] + sorted[1..];
      OfCons(sorted[0], Ordering.InsertStable(EntryBefore, e, sorted[1..]), id);
      OfCons(sorted[0], sorted[1..], id);
    } else {
      assert Ordering.InsertStable(EntryBefore, e, sorted) == [e] + sorted;
      hide *;
      OfCons(e, sorted, id);
    }
  }

  lemma OfCons(e: Entry, es: seq<Entry>, id: string)
    ensures Of([e] + es, id) == (if e.id == id then [e] else []) + Of(es, id)
  {
    assert ([e] + es)[1..] == es;
  }

  lemma {:induction false} SortIsStable(es: seq<Entry>, id: string)
    ensures Of(SortEntries(es), id) == Of(es, id)
  {
    hide Ordering.InsertStable;
    if es != [] {
      SortIsStable(es[1..], id);
      InsertIsStable(es[0], SortEntries(es[1..]), id);
    }
  }

  /** A spec resumes from the last entry that names it, and starts afresh without one. */
  lemma {:induction false} ResumedRow(c: Config, es: seq<Entry>, i: nat)
    requires Proper(c) && ProperEntries(es) && i < |c.specs|
    ensures var mine := Of(es, c.specs[i].id);
            Resumed(c, es)[i] == if mine == [] then UNIFORM else Normalise(mine[|mine| - 1].belief)
    decreases |es|
  {
    hide Proper, Normalise, IndexOf;
    if es != [] {
      var n := |es| - 1;
      assert es == es[..n] + [es[n]];
      assert es[n] in es && forall e :: e in es[..n] ==> e in es;
      ResumedRow(c, es[..n], i);
      OfAppend(es[..n], es[n], c.specs[i].id);
      OwnIndex(c, i);
      SetupIsProperHere(c);
      SeededAt(c, Resumed(c, es[..n]), es[n], i);
    }
  }

  lemma SetupIsProperHere(c: Config)
    requires Proper(c)
    ensures ProperSetup(TheSetup(c)) && |TheSetup(c).support| == |c.specs|
  {
    SetupIsProper(c.specs, c.motion);
  }

  lemma SeededAt(c: Config, b: seq<Row>, e: Entry, i: nat)
    requires Proper(c) && |b| == |c.specs| && i < |c.specs| && ProperSetup(TheSetup(c))
    ensures Seeded(TheSetup(c), b, e.id, e.belief)[i] == if e.id == c.specs[i].id then Normalise(e.belief) else b[i]
  {
    hide Proper, Normalise, IndexOf;
    OwnIndex(c, i);
    IndexIsLast(c.specs, e.id);
  }

  lemma SortThenResume(c: Config, es: seq<Entry>)
    requires Proper(c) && ProperEntries(es) && ProperEntries(SortEntries(es))
    ensures Resumed(c, SortEntries(es)) == Resumed(c, es)
  {
    hide Proper, ProperEntries, Normalise, SortEntries, Resumed;
    forall i | 0 <= i < |c.specs| ensures Resumed(c, SortEntries(es))[i] == Resumed(c, es)[i] {
      ResumedRow(c, es, i);
      ResumedRow(c, SortEntries(es), i);
      SortIsStable(es, c.specs[i].id);
    }
    ResumedLength(c, es);
    ResumedLength(c, SortEntries(es));
  }

  lemma ResumedLength(c: Config, es: seq<Entry>)
    requires Proper(c) && ProperEntries(es)
    ensures |Resumed(c, es)| == |c.specs|
  {
  }

  // ---- one run or two ----

  lemma {:induction false} BatchAppend(log: seq<Event>, more: seq<Event>, c: Cursor)
    ensures Batch(log + more, c) == Batch(log, c) + Batch(more, c)
    decreases |more|
  {
    hide Newer;
    if more == [] {
      assert log + more == log;
    } else {
      var n := |more| - 1;
      BatchAppend(log, more[..n], c);
      assert more == more[..n] + [more[n]];
      assert log + more == (log + more[..n]) + [more[n]];
      BatchStep(log + more[..n], more[n], c);
      BatchStep(more[..n], more[n], c);
    }
  }

  lemma BatchStep(log: seq<Event>, e: Event, c: Cursor)
    ensures Batch(log + [e], c) == Batch(log, c) + if Newer(e, c) then [e] else []
  {
    hide Newer;
    NewOnesPrefix(log, e, |log|, c);
  }

  lemma {:induction false} NewOnesPrefix(log: seq<Event>, e: Event, n: nat, c: Cursor)
    requires n <= |log|
    ensures NewOnes(log + [e], n, c) == NewOnes(log, n, c)
  {
    hide Newer;
    if n > 0 {
      NewOnesPrefix(log, e, n - 1, c);
    }
  }

  lemma {:induction false} AllNew(more: seq<Event>, c: Cursor)
    requires forall e :: e in more ==> Newer(e, c)
    ensures Batch(more, c) == more
  {
    hide Newer;
    if more != [] {
      var n := |more| - 1;
      AllNew(more[..n], c);
      BatchStep(more[..n], more[n], c);
      assert more == more[..n] + [more[n]];
    }
  }

  lemma {:induction false} SameBatch(more: seq<Event>, c: Cursor, d: Cursor)
    requires forall e :: e in more ==> (Newer(e, c) <==> Newer(e, d))
    ensures Batch(more, c) == Batch(more, d)
  {
    hide Newer;
    if more != [] {
      var n := |more| - 1;
      assert more == more[..n] + [more[n]];
      SameBatch(more[..n], c, d);
      BatchStep(more[..n], more[n], c);
      BatchStep(more[..n], more[n], d);
    }
  }

  /**
   Stopping in the middle makes no difference. If no event that arrives after the first run is one the first
   run has already gone past, a run over the early events followed by a run over all of them saves exactly
   the posterior of a single run over all of them: same cursor, same beliefs, same stamps.
   */
  lemma SplitRunIsOneRun(c: Config, p: PosteriorFile, early: seq<Event>, late: seq<Event>, sensor: Sensor)
    requires Proper(c) && ProperEntries(p.entries) && PositiveSensor(sensor)
    requires var q := RunResult(c, p, early, sensor);
             forall e :: e in late && Newer(e, p.cursor) ==> Newer(e, q.cursor)
    ensures var q := RunResult(c, p, early, sensor);
            && ProperEntries(q.entries)
            && RunResult(c, q, early + late, sensor) == RunResult(c, p, early + late, sensor)
  {
    hide Proper, PositiveSensor, ApplyAll, Snapshot, SortEntries, Batch, Newer, AtMost, Resumed, Latest, ProperEntries;
    var q := RunResult(c, p, early, sensor);
    ResultIsProper(c, p, early, sensor);
    RunTakesEverything(c, p, early, sensor);
    forall e | e in late ensures Newer(e, p.cursor) <==> Newer(e, q.cursor) {
      if Newer(e, q.cursor) { NewerThanLater(e, p.cursor, q.cursor); }
    }
    SameBatch(late, p.cursor, q.cursor);
    NothingNew(early, q.cursor);
    BatchAppend(early, late, p.cursor);
    BatchAppend(early, late, q.cursor);
    var b1, b2 := Batch(early, p.cursor), Batch(late, q.cursor);
    assert Batch(early + late, q.cursor) == b2;
    assert Batch(early + late, p.cursor) == b1 + b2;
    if b1 == [] {
      assert b1 + b2 == b2;
      SplitWithoutEarly(c, p, q, early + late, sensor);
    } else {
      SplitWithEarly(c, p, b1, b2, q, early + late, sensor, early);
    }
  }

  lemma SplitWithoutEarly(c: Config, p: PosteriorFile, q: PosteriorFile, log: seq<Event>, sensor: Sensor)
    requires Proper(c) && ProperEntries(p.entries) && ProperEntries(q.entries) && PositiveSensor(sensor)
    requires q == PosteriorFile(p.cursor, SortEntries(p.entries))
    ensures RunResult(c, q, log, sensor) == RunResult(c, p, log, sensor)
  {
    hide Proper, ProperEntries, PositiveSensor, ApplyAll, Snapshot, SortEntries, Batch, Resumed;
    EntriesSorted(p.entries);
    SortedEntriesStay(q.entries);
    SortThenResume(c, p.entries);
  }

  lemma SplitWithEarly(c: Config, p: PosteriorFile, b1: seq<Event>, b2: seq<Event>, q: PosteriorFile,
                       log: seq<Event>, sensor: Sensor, early: seq<Event>)
    requires Proper(c) && ProperEntries(p.entries) && ProperEntries(q.entries) && PositiveSensor(sensor)
    requires b1 != [] && b1 == Batch(early, p.cursor) && q == RunResult(c, p, early, sensor)
    requires Batch(log, q.cursor) == b2 && Batch(log, p.cursor) == b1 + b2
    ensures RunResult(c, q, log, sensor) == RunResult(c, p, log, sensor)
  {
    hide Proper, ProperEntries, PositiveSensor, ApplyAll, Snapshot, SortEntries, Batch, Resumed, Latest, Newer;
    var start := Resumed(c, p.entries);
    var mid := ApplyAll(c, start, b1, sensor);
    ApplyAppend(c, start, b1, b2, sensor);
    ResumeFromSnapshot(c, mid, Latest(b1).ts);
    if b2 == [] {
      assert b1 + b2 == b1;
      SnapshotIsOrdered(c, mid, Latest(b1).ts);
      SortedEntriesStay(q.entries);
    } else {
      forall e | e in b2 ensures Newer(e, Latest(b1)) { BatchIsNewer(log, q.cursor, e); }
      LatestOfBoth(b1, b2);
    }
  }

  /** The sensor a run builds from the whole log and the harness graph. */
  ghost function SensorFrom(c: Config, log: seq<Event>, nodes: seq<Harness.HarnessNode>): (sensor: Sensor)
    ensures PositiveSensor(sensor)
  {
    var cals := Evidence.Calibrations(c.specs, log, nodes);
    SensorIsPositive(cals);
    Calibration.SensorOf(cals)
  }

  lemma SensorIsPositive(cals: map<string, Calibration.Calibration>)
    ensures PositiveSensor(Calibration.SensorOf(cals))
  {
    forall id, outcome ensures Positive(Calibration.SensorOf(cals)(id, outcome)) {
      Calibration.LikelihoodIsPositive(if id in cals then cals[id] else Calibration.PROTOTYPE, outcome);
    }
  }

  /**
   With the sensor recomputed by each run from the log it sees, stopping in the middle still makes no
   difference as long as the later events bring no mutation results and no smells.
   */
  lemma SplitRunWithCalibrations(c: Config, p: PosteriorFile, early: seq<Event>, late: seq<Event>, nodes: seq<Harness.HarnessNode>)
    requires Proper(c) && ProperEntries(p.entries)
    requires forall e :: e in late ==> !Evidence.IsEvidence(e)
    requires var q := RunResult(c, p, early, SensorFrom(c, early, nodes));
             forall e :: e in late && Newer(e, p.cursor) ==> Newer(e, q.cursor)
    ensures var q := RunResult(c, p, early, SensorFrom(c, early, nodes));
            var sensor := SensorFrom(c, early + late, nodes);
            ProperEntries(q.entries) && RunResult(c, q, early + late, sensor) == RunResult(c, p, early + late, sensor)
  {
    hide Proper, ProperEntries, PositiveSensor, RunResult, Newer, Evidence.IsEvidence;
    Evidence.CalibrationsIgnoreOtherEvents(c.specs, early, late, nodes);
    SplitRunIsOneRun(c, p, early, late, SensorFrom(c, early, nodes));
  }

  // ---- histories: events are appended and runs are made, in any order ----

  datatype Action = Append(e: Event) | RunNow

  /**
   The log and the saved posterior, and two things no file records: which events were ever applied, in
   order, and which were ahead of the cursor at the moment they were appended.
   */
  datatype World = World(log: seq<Event>, file: PosteriorFile, applied: seq<nat>, timely: set<nat>)

  const START: World := World([], PosteriorFile(Start, []), [], {})

  ghost function Next(c: Config, w: World, a: Action, sensor: Sensor): World
    requires Proper(c) && PositiveSensor(sensor) && ProperEntries(w.file.entries)
  {
    match a
    case Append(e) =>
      w.(log := w.log + [e], timely := w.timely + if Newer(e, w.file.cursor) then {|w.log|} else {})
    case RunNow =>
      w.(file := RunResult(c, w.file, w.log, sensor), applied := w.applied + NewOnes(w.log, |w.log|, w.file.cursor))
  }

  ghost predicate InLog(at: seq<nat>, log: seq<Event>) {
    forall i :: 0 <= i < |at| ==> at[i] < |log|
  }

  ghost predicate AtMostOnce(at: seq<nat>) {
    forall i, j :: 0 <= i < j < |at| ==> at[i] != at[j]
  }

  /** Applied events are behind the cursor; timely ones are those already applied or still ahead of it. */
  ghost predicate Accounted(w: World) {
    && InLog(w.applied, w.log)
    && (forall k :: k in w.applied ==> !Newer(w.log[k], w.file.cursor))
    && (forall k: int :: k in w.timely <==> 0 <= k < |w.log| && (k in w.applied || Newer(w.log[k], w.file.cursor)))
  }

  /** What the file must hold after a pass over some events. */
  ghost predicate PassOver(c: Config, f: PosteriorFile, es: seq<Event>, sensor: Sensor)
    requires Proper(c) && PositiveSensor(sensor)
  {
    && f.cursor == Latest(es)
    && f.entries == if es == [] then [] else Snapshot(c.specs, ApplyAll(c, Fresh(c), es, sensor), f.cursor.ts)
  }

  /** The file holds the beliefs of one uninterrupted pass over the applied events. */
  ghost predicate HoldsOnePass(c: Config, w: World, sensor: Sensor)
    requires Proper(c) && PositiveSensor(sensor) && InLog(w.applied, w.log)
  {
    PassOver(c, w.file, Pick(w.log, w.applied), sensor)
  }

  ghost predicate Sound(c: Config, w: World, sensor: Sensor)
    requires Proper(c) && PositiveSensor(sensor)
  {
    Accounted(w) && AtMostOnce(w.applied) && HoldsOnePass(c, w, sensor) && ProperEntries(w.file.entries)
  }

  lemma {:induction false} NewOnesAscend(log: seq<Event>, n: nat, c: Cursor)
    requires n <= |log|
    ensures forall i, j :: 0 <= i < j < |NewOnes(log, n, c)| ==> NewOnes(log, n, c)[i] < NewOnes(log, n, c)[j]
  {
    hide Newer;
    if n > 0 {
      NewOnesAscend(log, n - 1, c);
      var r := NewOnes(log, n - 1, c);
      forall i | 0 <= i < |r| ensures r[i] < n - 1 { assert r[i] in r; }
    }
  }

  lemma PickAppend(log: seq<Event>, at: seq<nat>, more: seq<nat>)
    requires InLog(at, log) && InLog(more, log)
    ensures Pick(log, at + more) == Pick(log, at) + Pick(log, more)
  {
  }

  lemma AppendIsSound(c: Config, w: World, e: Event, sensor: Sensor)
    requires Proper(c) && PositiveSensor(sensor) && Sound(c, w, sensor)
    ensures Sound(c, Next(c, w, Append(e), sensor), sensor)
  {
    hide Proper, PositiveSensor, ProperEntries, Newer, Latest, Snapshot, ApplyAll, Fresh;
    var v := Next(c, w, Append(e), sensor);
    assert Pick(v.log, v.applied) == Pick(w.log, w.applied);
  }

  lemma NewOnesInLog(log: seq<Event>, c: Cursor)
    ensures InLog(NewOnes(log, |log|, c), log)
  {
    var r := NewOnes(log, |log|, c);
    forall i | 0 <= i < |r| ensures r[i] < |log| { assert r[i] in r; }
  }

  lemma RunIsAccounted(c: Config, w: World, sensor: Sensor)
    requires Proper(c) && PositiveSensor(sensor) && ProperEntries(w.file.entries) && Accounted(w) && AtMostOnce(w.applied)
    ensures var v := Next(c, w, RunNow, sensor); Accounted(v) && AtMostOnce(v.applied)
    ensures forall k :: 0 <= k < |w.log| ==> !Newer(w.log[k], Next(c, w, RunNow, sensor).file.cursor)
  {
    hide Proper, PositiveSensor, ProperEntries, Newer, RunResult;
    var v := Next(c, w, RunNow, sensor);
    RunTakesEverything(c, w.file, w.log, sensor);
    var more := NewOnes(w.log, |w.log|, w.file.cursor);
    NewOnesAscend(w.log, |w.log|, w.file.cursor);
    NewOnesInLog(w.log, w.file.cursor);
    forall i, j | 0 <= i < j < |v.applied| ensures v.applied[i] != v.applied[j] {
      assert i < |w.applied| ==> v.applied[i] in w.applied;
      assert j >= |w.applied| ==> v.applied[j] in more;
    }
  }

  lemma RunHoldsOnePass(c: Config, w: World, sensor: Sensor)
    requires Proper(c) && PositiveSensor(sensor) && Sound(c, w, sensor)
    ensures var v := Next(c, w, RunNow, sensor);
            InLog(v.applied, v.log) && HoldsOnePass(c, v, sensor) && ProperEntries(v.file.entries)
  {
    hide Proper, PositiveSensor, ProperEntries, RunResult, Accounted, NewOnes, HoldsOnePass, InLog, Batch;
    AccountedInLog(w);
    NewOnesInLog(w.log, w.file.cursor);
    PickBatch(w.log, w.applied, w.file.cursor);
    ResultIsProper(c, w.file, w.log, sensor);
    OnePassGoesOn(c, w, sensor);
    OnePass(c, Next(c, w, RunNow, sensor), Pick(w.log, w.applied) + Batch(w.log, w.file.cursor), sensor);
  }

  lemma PickBatch(log: seq<Event>, at: seq<nat>, c: Cursor)
    requires InLog(at, log)
    ensures InLog(at + NewOnes(log, |log|, c), log)
    ensures Pick(log, at + NewOnes(log, |log|, c)) == Pick(log, at) + Batch(log, c)
  {
    hide Newer;
    NewOnesInLog(log, c);
    PickAppend(log, at, NewOnes(log, |log|, c));
  }

  lemma OnePass(c: Config, w: World, es: seq<Event>, sensor: Sensor)
    requires Proper(c) && PositiveSensor(sensor) && InLog(w.applied, w.log)
    requires es == Pick(w.log, w.applied) && PassOver(c, w.file, es, sensor)
    ensures HoldsOnePass(c, w, sensor)
  {
  }

  lemma OnePassGoesOn(c: Config, w: World, sensor: Sensor)
    requires Proper(c) && PositiveSensor(sensor) && InLog(w.applied, w.log) && ProperEntries(w.file.entries)
    requires HoldsOnePass(c, w, sensor)
    ensures PassOver(c, RunResult(c, w.file, w.log, sensor),
                     Pick(w.log, w.applied) + Batch(w.log, w.file.cursor), sensor)
  {
    hide Proper, PositiveSensor, ProperEntries, Newer, Snapshot, ApplyAll, Fresh, Latest, SortEntries, Resumed, Batch, Pick;
    var past, batch := Pick(w.log, w.applied), Batch(w.log, w.file.cursor);
    PassGoesOn(c, w.file, past, batch, sensor);
    if batch == [] {
      assert past + batch == past;
    } else {
      forall e | e in batch ensures Newer(e, w.file.cursor) { BatchIsNewer(w.log, w.file.cursor, e); }
      LatestOfBoth(past, batch);
    }
  }

  lemma AccountedInLog(w: World)
    requires Accounted(w)
    ensures InLog(w.applied, w.log)
  {
  }

  /** Resuming from the saved pass and going on is the same as one longer pass. */
  lemma PassGoesOn(c: Config, f: PosteriorFile, es: seq<Event>, batch: seq<Event>, sensor: Sensor)
    requires Proper(c) && PositiveSensor(sensor) && ProperEntries(f.entries) && PassOver(c, f, es, sensor)
    ensures ApplyAll(c, Resumed(c, f.entries), batch, sensor) == ApplyAll(c, Fresh(c), es + batch, sensor)
    ensures SortEntries(f.entries) == f.entries
  {
    hide Proper, PositiveSensor, ProperEntries, Snapshot, EventAfter, Fresh, Latest, SortEntries;
    ApplyAppend(c, Fresh(c), es, batch, sensor);
    if es == [] {
      assert Resumed(c, f.entries) == Fresh(c);
    } else {
      hide ApplyAll, Resumed;
      var b := ApplyAll(c, Fresh(c), es, sensor);
      ResumeFromSnapshot(c, b, f.cursor.ts);
      SnapshotIsOrdered(c, b, f.cursor.ts);
    }
    SortedEntriesStay(f.entries);
  }

  ghost function History(c: Config, actions: seq<Action>, sensor: Sensor): (w: World)
    requires Proper(c) && PositiveSensor(sensor)
    ensures Sound(c, w, sensor)
    decreases |actions|
  {
    if actions == [] then
      StartIsSound(c, sensor);
      START
    else
      var n := |actions| - 1;
      var w := History(c, actions[..n], sensor);
      NextIsSound(c, w, actions[n], sensor);
      Next(c, w, actions[n], sensor)
  }

  lemma StartIsSound(c: Config, sensor: Sensor)
    requires Proper(c) && PositiveSensor(sensor)
    ensures Sound(c, START, sensor)
  {
    hide Proper, PositiveSensor, Newer, Snapshot, ApplyAll, Fresh;
  }

  lemma NextIsSound(c: Config, w: World, a: Action, sensor: Sensor)
    requires Proper(c) && PositiveSensor(sensor) && Sound(c, w, sensor)
    ensures Sound(c, Next(c, w, a, sensor), sensor)
  {
    hide Proper, PositiveSensor, ProperEntries, Newer, Accounted, HoldsOnePass, AtMostOnce;
    match a
    case Append(e) => AppendIsSound(c, w, e, sensor);
    case RunNow =>
      RunIsAccounted(c, w, sensor);
      RunHoldsOnePass(c, w, sensor);
  }

  /**
   Right after a run, the events ever applied are exactly those that were ahead of the cursor when they
   were appended, each applied once; and the saved beliefs are those of one pass over them from the
   uniform beliefs. An event that arrives behind the cursor is never applied.
   */
  lemma TimelyEventsCountOnce(c: Config, actions: seq<Action>, sensor: Sensor)
    requires Proper(c) && PositiveSensor(sensor)
    ensures var w := History(c, actions + [RunNow], sensor);
            && (forall k :: k in w.applied <==> k in w.timely)
            && AtMostOnce(w.applied)
            && InLog(w.applied, w.log) && HoldsOnePass(c, w, sensor)
  {
    hide Proper, PositiveSensor, ProperEntries, Newer, HoldsOnePass, AtMostOnce;
    var w := History(c, actions, sensor);
    assert (actions + [RunNow])[..|actions|] == actions;
    RunIsAccounted(c, w, sensor);
  }

  /** However the history goes on, the cursor never moves back and nothing applied is taken away. */
  lemma {:induction false} CursorNeverMovesBack(c: Config, actions: seq<Action>, more: seq<Action>, sensor: Sensor)
    requires Proper(c) && PositiveSensor(sensor)
    ensures var w, v := History(c, actions, sensor), History(c, actions + more, sensor);
            AtMost(w.file.cursor, v.file.cursor) && w.log <= v.log && w.applied <= v.applied
    decreases |more|
  {
    hide Proper, PositiveSensor, ProperEntries, Newer, Sound, AtMost, RunResult;
    if more == [] {
      assert actions + more == actions;
      AtMostItself(History(c, actions, sensor).file.cursor);
    } else {
      var n := |more| - 1;
      CursorNeverMovesBack(c, actions, more[..n], sensor);
      assert (actions + more)[..|actions + more| - 1] == actions + more[..n];
      var w, u := History(c, actions, sensor), History(c, actions + more[..n], sensor);
      SoundIsProper(c, u, sensor);
      StepForward(c, u, more[n], sensor);
      AtMostTransitive(w.file.cursor, u.file.cursor, Next(c, u, more[n], sensor).file.cursor);
    }
  }

  lemma SoundIsProper(c: Config, w: World, sensor: Sensor)
    requires Proper(c) && PositiveSensor(sensor) && Sound(c, w, sensor)
    ensures ProperEntries(w.file.entries)
  {
  }

  lemma StepForward(c: Config, w: World, a: Action, sensor: Sensor)
    requires Proper(c) && PositiveSensor(sensor) && ProperEntries(w.file.entries)
    ensures var v := Next(c, w, a, sensor);
            AtMost(w.file.cursor, v.file.cursor) && w.log <= v.log && w.applied <= v.applied
  {
    hide Proper, PositiveSensor, ProperEntries, Newer, AtMost, RunResult;
    AtMostItself(w.file.cursor);
    RunTakesEverything(c, w.file, w.log, sensor);
  }
}
