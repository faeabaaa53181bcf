/** One run of the filter command: resume from the saved posterior, take the new events, save again. */
module FilterRun {
  import opened Beliefs
  import opened Hmm
  import opened Specs
  import opened Bp
  import opened Graph
  import opened Events
  import opened Ordering

  datatype Entry = Entry(id: string, belief: Row, updated: string)

  datatype PosteriorFile = PosteriorFile(cursor: Cursor, entries: seq<Entry>)

  /** What a run reads besides the posterior and the events. */
  datatype Config = Config(specs: seq<SpecDescriptor>, motion: Motion, coupling: seq<Edge>,
                           kappa: real, pow: real -> real, nIter: nat)

  /** The specs come from a sorted table, so their ids are distinct and ascending. */
  ghost predicate Ascending(specs: seq<SpecDescriptor>) {
    forall i, j :: 0 <= i < j < |specs| ==> StringLess(specs[i].id, specs[j].id)
  }

  ghost predicate Proper(c: Config) {
    ProperMotion(c.motion) && c.kappa > 0.0 && IsPower(c.pow) && Ascending(c.specs)
  }

  ghost predicate PositiveSensor(sensor: Sensor) {
    forall id, outcome :: Positive(sensor(id, outcome))
  }

  ghost predicate ReadyRows(c: Config, b: seq<Row>) {
    Proper(c) && |b| == |c.specs| && AllSimplex(b)
  }

  function TheSetup(c: Config): Setup {
    SetupOf(c.specs, c.motion)
  }

  // ---- the backend: plain filter without coupling, belief propagation with it ----

  ghost function SweepOf(c: Config, b: seq<Row>): Sweep {
    Sweep(Resolved(c.coupling, IndexOf(c.specs)), b, c.kappa, c.pow)
  }

  lemma {:induction false} ResolvedInRange(specs: seq<SpecDescriptor>, coupling: seq<Edge>, l: Link)
    requires l in Resolved(coupling, IndexOf(specs))
    ensures l.src < |specs| && l.dst < |specs|
  {
    hide IndexOf;
    var e := coupling[|coupling| - 1];
    IndexIsLast(specs, e.src);
    IndexIsLast(specs, e.dst);
    if l in Resolved(coupling[..|coupling| - 1], IndexOf(specs)) {
      ResolvedInRange(specs, coupling[..|coupling| - 1], l);
    }
  }

  lemma SweepOfIsProper(c: Config, b: seq<Row>)
    requires ReadyRows(c, b)
    ensures ProperSweep(SweepOf(c, b))
  {
    hide Resolved, IndexOf, IsPower, ProperMotion, Ascending, AllSimplex;
    forall l | l in SweepOf(c, b).links ensures l.src < |b| && l.dst < |b| {
      ResolvedInRange(c.specs, c.coupling, l);
    }
  }

  ghost function Settle(c: Config, b: seq<Row>): (r: seq<Row>)
    requires ReadyRows(c, b)
    ensures ReadyRows(c, r)
  {
    SweepOfIsProper(c, b);
    Sweeps(SweepOf(c, b), c.nIter)
  }

  /** Moves or observations that keep rows on the simplex; messages follow unless nothing happened. */
  ghost function EventAfter(c: Config, b: seq<Row>, e: Event, sensor: Sensor): (r: seq<Row>)
    requires ReadyRows(c, b) && PositiveSensor(sensor)
    ensures ReadyRows(c, r)
  {
    var h := TheSetup(c);
    SetupIsProper(c.specs, c.motion);
    match StepOf(e)
    case Skip => b
    case Do(s) =>
      if s.Test? && s.id !in h.idx then b
      else
        assert ProperSteps([s], sensor) by { EventStepIsProper(e, sensor); }
        StepKeepsSimplex(h, b, s, sensor);
        Settle(c, After(h, b, s, sensor))
  }

  lemma EventStepIsProper(e: Event, sensor: Sensor)
    requires PositiveSensor(sensor) && StepOf(e).Do?
    ensures ProperSteps([StepOf(e).step], sensor) && !StepOf(e).step.Seed?
  {
  }

  ghost function ApplyAll(c: Config, b: seq<Row>, es: seq<Event>, sensor: Sensor): (r: seq<Row>)
    requires ReadyRows(c, b) && PositiveSensor(sensor)
    ensures ReadyRows(c, r)
  {
    if es == [] then b
    else EventAfter(c, ApplyAll(c, b, es[..|es| - 1], sensor), es[|es| - 1], sensor)
  }

  lemma {:induction false} ApplyAppend(c: Config, b: seq<Row>, first: seq<Event>, second: seq<Event>, sensor: Sensor)
    requires ReadyRows(c, b) && PositiveSensor(sensor)
    ensures ApplyAll(c, b, first + second, sensor) == ApplyAll(c, ApplyAll(c, b, first, sensor), second, sensor)
    decreases |second|
  {
    hide EventAfter, ReadyRows, PositiveSensor;
    if second == [] {
      assert first + second == first;
    } else {
      var n := |second| - 1;
      ApplyAppend(c, b, first, second[..n], sensor);
      assert (first + second)[..|first + second| - 1] == first + second[..n];
    }
  }

  // ---- resuming and saving ----

  ghost predicate ProperEntries(entries: seq<Entry>) {
    forall e :: e in entries ==> Seedable(e.belief)
  }

  ghost function Resumed(c: Config, entries: seq<Entry>): (r: seq<Row>)
    requires Proper(c) && ProperEntries(entries)
    ensures ReadyRows(c, r)
  {
    if entries == [] then Fresh(c)
    else
      var n := |entries| - 1;
      assert entries[n] in entries && forall e :: e in entries[..n] ==> e in entries;
      var b := Resumed(c, entries[..n]);
      SetupIsProper(c.specs, c.motion);
      NormaliseMakesSimplex(entries[n].belief);
      Seeded(TheSetup(c), b, entries[n].id, entries[n].belief)
  }

  ghost function Fresh(c: Config): (r: seq<Row>)
    requires Proper(c)
    ensures ReadyRows(c, r)
  {
    seq(|c.specs|, _ => UNIFORM)
  }

  /** One entry per spec, all stamped with the cursor. */
  function Snapshot(specs: seq<SpecDescriptor>, b: seq<Row>, ts: string): (r: seq<Entry>)
    requires |b| == |specs|
    ensures |r| == |specs|
  {
    seq(|specs|, i requires 0 <= i < |specs| => Entry(specs[i].id, b[i], ts))
  }

  /** Resuming from a snapshot brings back the very rows it was taken from. */
  lemma {:induction false} ResumeFromSnapshot(c: Config, b: seq<Row>, ts: string)
    requires ReadyRows(c, b)
    ensures ProperEntries(Snapshot(c.specs, b, ts))
    ensures Resumed(c, Snapshot(c.specs, b, ts)) == b
  {
    hide ProperMotion, IsPower, Ascending, Simplex;
    SnapshotIsProper(c, b, ts);
    ResumePrefix(c, b, ts, |b|);
    var s := Snapshot(c.specs, b, ts);
    assert s[..|b|] == s;
  }

  lemma SnapshotIsProper(c: Config, b: seq<Row>, ts: string)
    requires ReadyRows(c, b)
    ensures ProperEntries(Snapshot(c.specs, b, ts))
    ensures forall k :: 0 <= k <= |b| ==> ProperEntries(Snapshot(c.specs, b, ts)[..k])
  {
    hide ProperMotion, IsPower, Ascending;
  }

  lemma {:induction false} ResumePrefix(c: Config, b: seq<Row>, ts: string, n: nat)
    requires ReadyRows(c, b) && n <= |b|
    requires ProperEntries(Snapshot(c.specs, b, ts)[..n])
    ensures var r := Resumed(c, Snapshot(c.specs, b, ts)[..n]);
            |r| == |b| && r[..n] == b[..n]
  {
    hide ProperMotion, IsPower, Ascending, Normalise, IndexOf;
    if n > 0 {
      var s := Snapshot(c.specs, b, ts)[..n];
      assert s[..n - 1] == Snapshot(c.specs, b, ts)[..n - 1];
      SnapshotIsProper(c, b, ts);
      ResumePrefix(c, b, ts, n - 1);
      OwnIndex(c, n - 1);
      NormaliseMakesSimplex(b[n - 1]);
      var r := Resumed(c, s[..n - 1]);
      assert Resumed(c, s) == r[n - 1 := b[n - 1]];
    }
  }

  /** With ascending ids every spec is found at its own place. */
  lemma OwnIndex(c: Config, i: nat)
    requires Proper(c) && i < |c.specs|
    ensures c.specs[i].id in IndexOf(c.specs) && IndexOf(c.specs)[c.specs[i].id] == i
  {
    hide IndexOf, ProperMotion, IsPower;
    var id := c.specs[i].id;
    IndexIsLast(c.specs, id);
    StringLessLaws(id, id, id);
  }

  // ---- the order entries are written in ----

  predicate EntryBefore(a: Entry, b: Entry) {
    StringLess(a.id, b.id)
  }

  lemma EntryOrder()
    ensures WeakOrder(EntryBefore)
  {
    hide StringLess;
    forall a: Entry, b: Entry, c: Entry
      ensures !EntryBefore(a, a) && (EntryBefore(a, b) && EntryBefore(b, c) ==> EntryBefore(a, c))
      ensures !EntryBefore(a, b) && !EntryBefore(b, c) ==> !EntryBefore(a, c)
    {
      StringLessLaws(a.id, b.id, c.id);
      StringLessLaws(c.id, b.id, a.id);
      StringLessLaws(a.id, c.id, b.id);
    }
  }

  /** A stable sort by id. */
  function SortEntries(es: seq<Entry>): (r: seq<Entry>) {
    StableSort(EntryBefore, es)
  }

  lemma SnapshotIsOrdered(c: Config, b: seq<Row>, ts: string)
    requires Proper(c) && |b| == |c.specs|
    ensures Ordered(EntryBefore, Snapshot(c.specs, b, ts))
  {
    hide ProperMotion, IsPower;
    var s := Snapshot(c.specs, b, ts);
    forall i, j | 0 <= i < j < |s| ensures !StringLess(s[j].id, s[i].id) {
      StringLessLaws(c.specs[i].id, c.specs[j].id, c.specs[i].id);
    }
  }

  // ---- the events a run takes ----

  /** The positions among the first `n` events that are newer than the cursor, in log order. */
  function NewOnes(log: seq<Event>, n: nat, c: Cursor): (r: seq<nat>)
    requires n <= |log|
    ensures forall k: int :: k in r <==> 0 <= k < n && Newer(log[k], c)
  {
    if n == 0 then []
    else NewOnes(log, n - 1, c) + if Newer(log[n - 1], c) then [n - 1] else []
  }

  function Pick(log: seq<Event>, at: seq<nat>): (r: seq<Event>)
    requires forall i :: 0 <= i < |at| ==> at[i] < |log|
    ensures |r| == |at| && forall i :: 0 <= i < |at| ==> r[i] == log[at[i]]
  {
    seq(|at|, i requires 0 <= i < |at| => log[at[i]])
  }

  function Batch(log: seq<Event>, c: Cursor): seq<Event> {
    var at := NewOnes(log, |log|, c);
    assert forall i :: 0 <= i < |at| ==> at[i] in at;
    Pick(log, at)
  }

  /** The latest timestamp among some events. */
  function Latest(es: seq<Event>): (r: Cursor)
    ensures forall e :: e in es ==> AtMost(Upto(e.ts), r)
    ensures r.Start? <==> es == []
    ensures es != [] ==> exists e :: e in es && r == Upto(e.ts)
  {
    if es == [] then Start
    else
      var n := |es| - 1;
      var before := Latest(es[..n]);
      assert es == es[..n] + [es[n]];
      NewerOrAtMost(es[n], before);
      LatestStep(es[..n], before, es[n]);
      if Newer(es[n], before) then Upto(es[n].ts) else before
  }

  lemma LatestStep(es: seq<Event>, before: Cursor, e: Event)
    requires forall x :: x in es ==> AtMost(Upto(x.ts), before)
    ensures Newer(e, before) ==> forall x :: x in es ==> AtMost(Upto(x.ts), Upto(e.ts))
  {
    if Newer(e, before) {
      forall x | x in es ensures AtMost(Upto(x.ts), Upto(e.ts)) {
        AtMostTransitive(Upto(x.ts), before, Upto(e.ts));
      }
    }
  }

  // ---- a whole run ----

  ghost function RunResult(c: Config, p: PosteriorFile, log: seq<Event>, sensor: Sensor): PosteriorFile
    requires Proper(c) && ProperEntries(p.entries) && PositiveSensor(sensor)
  {
    var batch := Batch(log, p.cursor);
    if batch == [] then PosteriorFile(p.cursor, SortEntries(p.entries))
    else
      var b := ApplyAll(c, Resumed(c, p.entries), batch, sensor);
      var last := Latest(batch);
      PosteriorFile(last, Snapshot(c.specs, b, last.ts))
  }

  // ---- the run as the command makes it ----

  datatype FilterBackend = HmmBackend(plain: PerSpecHMM) | BpBackend(bp: FactorGraphBP) {
    function Filter(): PerSpecHMM {
      match this
      case HmmBackend(f) => f
      case BpBackend(f) => f.hmm
    }

    ghost predicate Valid(c: Config)
      reads Filter().belief
    {
      && Filter().Valid() && Filter().specs == c.specs && Filter().motion == c.motion
      && (HmmBackend? ==> c.coupling == [])
      && (BpBackend? ==> bp.Valid() && bp.links == SweepOf(c, []).links
                         && bp.kappa == c.kappa && bp.pow == c.pow && bp.nIter == c.nIter)
    }

    method SetBelief(c: Config, id: string, v: Row)
      requires Valid(c) && Seedable(v)
      modifies Filter().belief
      ensures Valid(c) && Filter().belief[..] == Seeded(TheSetup(c), old(Filter().belief[..]), id, v)
    {
      Filter().SetBelief(id, v);
    }

    /** Takes one event; says whether it was processed rather than skipped. */
    method Take(c: Config, e: Event, sensor: Sensor) returns (processed: bool)
      requires Proper(c) && Valid(c) && PositiveSensor(sensor)
      requires ReadyRows(c, Filter().belief[..])
      modifies Filter().belief
      ensures Valid(c) && ReadyRows(c, Filter().belief[..])
      ensures Filter().belief[..] == EventAfter(c, old(Filter().belief[..]), e, sensor)
      ensures processed <==> StepOf(e).Do? && (StepOf(e).step.Test? ==> StepOf(e).step.id in TheSetup(c).idx)
    {
      hide Sweeps, Posterior, Predicted, IsPower, ProperMotion, Resolved, IndexOf, EventAfter, Settle, StepOf;
      ghost var was, h := Filter().belief[..], TheSetup(c);
      EventMeaning(c, was, e, sensor);
      match StepOf(e)
      case Skip =>
        processed := false;
      case Do(s) =>
        if s.Files? {
          processed := true;
          match this {
            case HmmBackend(f) =>
              f.Predict(s.paths);
              PlainSettles(c, f.belief[..]);
            case BpBackend(f) =>
              f.Predict(s.paths);
              CoupledSettles(c, Predicted(h, was, s.paths));
          }
        } else {
          var r: Reply;
          match this {
            case HmmBackend(f) =>
              r := f.UpdateTest(s.id, s.outcome, sensor);
              PlainSettles(c, f.belief[..]);
            case BpBackend(f) =>
              r := f.UpdateTest(s.id, s.outcome, sensor);
              if r.Ok? { CoupledSettles(c, Updated(h, was, s.id, sensor(s.id, s.outcome))); }
          }
          processed := r.Ok?;
        }
    }
  }

  lemma EventMeaning(c: Config, b: seq<Row>, e: Event, sensor: Sensor)
    requires ReadyRows(c, b) && PositiveSensor(sensor)
    ensures var h := TheSetup(c);
            && ProperSetup(h) && |h.support| == |b|
            && match StepOf(e)
               case Skip => EventAfter(c, b, e, sensor) == b
               case Do(Files(paths)) =>
                 var r := Predicted(h, b, paths);
                 ReadyRows(c, r) && EventAfter(c, b, e, sensor) == Settle(c, r)
               case Do(Test(id, outcome)) =>
                 if id !in h.idx then EventAfter(c, b, e, sensor) == b
                 else
                   var r := Updated(h, b, id, sensor(id, outcome));
                   ReadyRows(c, r) && EventAfter(c, b, e, sensor) == Settle(c, r)
               case Do(_) => false
  {
    hide Settle, Predicted, IsPower, ProperMotion, IndexOf;
    var h := TheSetup(c);
    SetupIsProper(c.specs, c.motion);
    if StepOf(e).Do? {
      EventStepIsProper(e, sensor);
      StepKeepsSimplex(h, b, StepOf(e).step, sensor);
    }
  }

  /** The rows right after an event, before any messages, by what the event records. */
  ghost predicate Recorded(c: Config, b: seq<Row>, e: Event, sensor: Sensor, r: seq<Row>)
    requires ReadyRows(c, b) && PositiveSensor(sensor)
  {
    && |r| == |b|
    && (Says(e, "event_kind", "files_touched") ==>
          forall i :: 0 <= i < |b| ==>
            MovedByEdit(c.specs[i].support, ParsePaths(if "paths" in e.attrs then e.attrs["paths"] else ""), b[i], c.motion, r[i]))
    && (Says(e, "event_kind", "test_outcome") ==>
          forall i :: 0 <= i < |b| ==>
            r[i] == if Says(e, "spec_id", c.specs[i].id)
                    then Posterior(b[i], sensor(c.specs[i].id, if "outcome" in e.attrs then e.attrs["outcome"] else ""))
                    else b[i])
    && (!Says(e, "event_kind", "files_touched") && !Says(e, "event_kind", "test_outcome") ==> r == b)
  }

  /** An edit moves every row, a test the row of its spec, and messages follow; every other event leaves everything as it was. */
  lemma EventByKind(c: Config, b: seq<Row>, e: Event, sensor: Sensor) returns (r: seq<Row>)
    requires ReadyRows(c, b) && PositiveSensor(sensor)
    ensures Recorded(c, b, e, sensor, r) && ReadyRows(c, r)
    ensures EventAfter(c, b, e, sensor)
            == if Says(e, "event_kind", "files_touched")
                  || (Says(e, "event_kind", "test_outcome") && exists i :: 0 <= i < |c.specs| && Says(e, "spec_id", c.specs[i].id))
               then Settle(c, r) else r
  {
    hide Settle, Predicted, IsPower, ProperMotion, IndexOf, MovedByEdit, Posterior, EventAfter, Ascending, ParsePaths;
    var h := TheSetup(c);
    EventMeaning(c, b, e, sensor);
    KindsDiffer();
    r := b;
    match StepOf(e)
    case Skip =>
    case Do(Files(paths)) =>
      r := Predicted(h, b, paths);
      forall i | 0 <= i < |b| ensures MovedByEdit(c.specs[i].support, paths, b[i], c.motion, r[i]) {
        PredictedMoves(h, b, paths, i);
      }
    case Do(Test(id, outcome)) =>
      TestedRow(c, id);
      if id in h.idx {
        r := Updated(h, b, id, sensor(id, outcome));
      }
  }

  lemma KindsDiffer()
    ensures "test_outcome" != "files_touched"
  {
    assert "test_outcome"[0] == 't' && "files_touched"[0] == 'f';
  }

  /** A known id belongs to exactly one row. */
  lemma TestedRow(c: Config, id: string)
    requires Ascending(c.specs)
    ensures id in TheSetup(c).idx <==> exists i :: 0 <= i < |c.specs| && c.specs[i].id == id
    ensures id in TheSetup(c).idx ==> forall i :: 0 <= i < |c.specs| ==> (c.specs[i].id == id <==> i == TheSetup(c).idx[id])
  {
    hide IndexOf, StringLess;
    IndexIsLast(c.specs, id);
    StringLessIsOrder();
  }

  lemma CoupledSettles(c: Config, b: seq<Row>)
    requires ReadyRows(c, b)
    ensures ProperSweep(SweepOf(c, b)) && Settle(c, b) == Sweeps(SweepOf(c, b), c.nIter)
  {
    hide Sweeps, IndexOf, Resolved, AllSimplex, ProperMotion, IsPower, ProperSweep;
    SweepOfIsProper(c, b);
  }

  /** Without coupling nothing happens after a step. */
  lemma PlainSettles(c: Config, b: seq<Row>)
    requires ReadyRows(c, b) && c.coupling == []
    ensures Settle(c, b) == b
  {
    hide IndexOf, AllSimplex;
    SweepOfIsProper(c, b);
    NoLinksNoEffect(SweepOf(c, b), c.nIter);
  }

  method MakeBackend(c: Config) returns (f: FilterBackend)
    requires Proper(c)
    ensures f.Valid(c) && fresh(f.Filter().belief)
    ensures f.Filter().belief[..] == Fresh(c)
  {
    hide IsPower, ProperMotion, Ascending;
    if c.coupling == [] {
      var plain := new PerSpecHMM(c.specs, c.motion);
      f := HmmBackend(plain);
    } else {
      var bp := new FactorGraphBP(c.specs, c.motion, c.coupling, c.kappa, c.pow, c.nIter);
      f := BpBackend(bp);
    }
  }

  /** The event's timestamp comes after the cursor's. */
  ghost predicate IsAhead(e: Event, c: Cursor) {
    c.Upto? ==> ComesBefore(c.ts, e.ts)
  }

  /**
   What a run leaves in the file. Without an event ahead of the cursor: the same cursor and entries, sorted by id.
   Otherwise the latest timestamp ahead as the cursor, and one entry for each spec, in order and stamped with it.
   */
  ghost predicate Saved(c: Config, p: PosteriorFile, log: seq<Event>, out: PosteriorFile) {
    && ((forall e :: e in log ==> !IsAhead(e, p.cursor)) ==>
          && out.cursor == p.cursor && multiset(out.entries) == multiset(p.entries)
          && forall i, j :: 0 <= i < j < |out.entries| ==> !ComesBefore(out.entries[j].id, out.entries[i].id))
    && ((exists e :: e in log && IsAhead(e, p.cursor)) ==>
          && out.cursor.Upto? && (exists e :: e in log && IsAhead(e, p.cursor) && e.ts == out.cursor.ts)
          && (forall e :: e in log && IsAhead(e, p.cursor) ==> !ComesBefore(out.cursor.ts, e.ts))
          && |out.entries| == |c.specs|
          && forall i :: 0 <= i < |c.specs| ==> out.entries[i].id == c.specs[i].id && out.entries[i].updated == out.cursor.ts)
  }

  lemma BatchIsAhead(log: seq<Event>, c: Cursor, e: Event)
    ensures e in Batch(log, c) <==> e in log && IsAhead(e, c)
  {
    hide StringLess, ComesBefore;
    if c.Upto? { StringLessByPosition(c.ts, e.ts); }
    var at := NewOnes(log, |log|, c);
    if e in log && Newer(e, c) {
      var k :| 0 <= k < |log| && log[k] == e;
      assert k in at;
      var i :| 0 <= i < |at| && at[i] == k;
      assert Batch(log, c)[i] == e;
    }
    if e in Batch(log, c) {
      var i :| 0 <= i < |at| && Batch(log, c)[i] == e;
      assert at[i] in at;
    }
  }

  lemma SortedEntries(es: seq<Entry>)
    ensures multiset(SortEntries(es)) == multiset(es)
    ensures forall i, j :: 0 <= i < j < |SortEntries(es)| ==> !ComesBefore(SortEntries(es)[j].id, SortEntries(es)[i].id)
  {
    hide StringLess, ComesBefore, StableSort, WeakOrder;
    EntryOrder();
    SortIsSorted(EntryBefore, es);
    var r := SortEntries(es);
    forall i, j | 0 <= i < j < |r| ensures !ComesBefore(r[j].id, r[i].id) {
      assert !EntryBefore(r[j], r[i]);
      StringLessByPosition(r[j].id, r[i].id);
    }
  }

  lemma RunSaves(c: Config, p: PosteriorFile, log: seq<Event>, sensor: Sensor)
    requires Proper(c) && ProperEntries(p.entries) && PositiveSensor(sensor)
    ensures Saved(c, p, log, RunResult(c, p, log, sensor))
  {
    hide Proper, PositiveSensor, ApplyAll, Resumed, Batch, Latest, SortEntries, IsAhead, StringLess, ComesBefore, ReadyRows;
    var batch := Batch(log, p.cursor);
    forall e ensures e in batch <==> e in log && IsAhead(e, p.cursor) { BatchIsAhead(log, p.cursor, e); }
    if batch == [] {
      SortedEntries(p.entries);
    } else {
      assert batch[0] in batch;
      LatestIsLast(batch);
      assert |ApplyAll(c, Resumed(c, p.entries), batch, sensor)| == |c.specs| by { RowsPerSpec(c, ApplyAll(c, Resumed(c, p.entries), batch, sensor)); }
    }
  }

  lemma RowsPerSpec(c: Config, b: seq<Row>)
    requires ReadyRows(c, b)
    ensures |b| == |c.specs|
  {
  }

  lemma LatestIsLast(es: seq<Event>)
    requires es != []
    ensures Latest(es).Upto? && (exists e :: e in es && e.ts == Latest(es).ts)
    ensures forall e :: e in es ==> !ComesBefore(Latest(es).ts, e.ts)
  {
    hide StringLess, ComesBefore, Latest;
    var last := Latest(es);
    forall e | e in es ensures !ComesBefore(last.ts, e.ts) {
      assert AtMost(Upto(e.ts), last);
      StringLessByPosition(last.ts, e.ts);
      StringLessLaws(e.ts, last.ts, e.ts);
    }
  }

  /** Reads the saved posterior, takes the events newer than its cursor and writes the next one. */
  method RunFilter(c: Config, p: PosteriorFile, log: seq<Event>, sensor: Sensor)
    returns (out: PosteriorFile, processed: nat, skipped: nat)
    requires Proper(c) && ProperEntries(p.entries) && PositiveSensor(sensor)
    ensures out == RunResult(c, p, log, sensor)
    ensures Saved(c, p, log, out)
    ensures processed + skipped == |Batch(log, p.cursor)|
  {
    hide Proper, PositiveSensor, EventAfter, AllSimplex, ApplyAll, Batch, Latest, Snapshot, SortEntries, Resumed, StepOf, Saved;
    processed, skipped := 0, 0;
    RunSaves(c, p, log, sensor);
    var batch := Batch(log, p.cursor);
    if batch == [] {
      return PosteriorFile(p.cursor, SortEntries(p.entries)), 0, 0;
    }
    var f := MakeBackend(c);
    Resume(c, f, p.entries);
    ghost var start := f.Filter().belief[..];
    var latest := Start;
    assert batch[..0] == [];
    NoEvents(c, start, sensor);
    for i := 0 to |batch|
      invariant f.Valid(c) && ReadyRows(c, f.Filter().belief[..])
      invariant f.Filter().belief[..] == ApplyAll(c, start, batch[..i], sensor)
      invariant latest == Latest(batch[..i])
      invariant processed + skipped == i
    {
      var e := batch[i];
      OneMoreEvent(c, start, batch, i, sensor);
      latest := if Newer(e, latest) then Upto(e.ts) else latest;
      var done := f.Take(c, e, sensor);
      if done { processed := processed + 1; } else { skipped := skipped + 1; }
    }
    assert batch[..|batch|] == batch;
    out := PosteriorFile(latest, Snapshot(c.specs, f.Filter().belief[..], latest.ts));
  }

  lemma NoEvents(c: Config, b: seq<Row>, sensor: Sensor)
    requires ReadyRows(c, b) && PositiveSensor(sensor)
    ensures ApplyAll(c, b, [], sensor) == b && Latest([]) == Start
  {
    hide ReadyRows;
  }

  lemma OneMoreEvent(c: Config, b: seq<Row>, es: seq<Event>, i: nat, sensor: Sensor)
    requires ReadyRows(c, b) && PositiveSensor(sensor) && i < |es|
    ensures ApplyAll(c, b, es[..i + 1], sensor) == EventAfter(c, ApplyAll(c, b, es[..i], sensor), es[i], sensor)
    ensures Latest(es[..i + 1]) == if Newer(es[i], Latest(es[..i])) then Upto(es[i].ts) else Latest(es[..i])
  {
    hide EventAfter, ReadyRows, PositiveSensor;
    assert es[..i + 1][..i] == es[..i];
  }

  method Resume(c: Config, f: FilterBackend, entries: seq<Entry>)
    requires Proper(c) && f.Valid(c) && ProperEntries(entries)
    requires f.Filter().belief[..] == Fresh(c)
    modifies f.Filter().belief
    ensures f.Valid(c) && f.Filter().belief[..] == Resumed(c, entries)
  {
    hide Proper, Seeded;
    for i := 0 to |entries|
      invariant f.Valid(c) && ProperEntries(entries[..i])
      invariant f.Filter().belief[..] == Resumed(c, entries[..i])
    {
      assert entries[..i + 1][..i] == entries[..i];
      assert entries[i] in entries;
      f.SetBelief(c, entries[i].id, entries[i].belief);
    }
    assert entries[..|entries|] == entries;
  }
}
