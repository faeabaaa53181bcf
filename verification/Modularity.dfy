/**
 Modularity of a partition, stated by its pairwise textbook definition over a square table
 `b` of pair weights: the sum of `b[i][j]` over all ordered pairs that share a community.
 */
module Modularity {
  import opened Sums

  type Table<K> = map<K, map<K, real>>
  type Assignment<K> = map<K, nat>

  ghost predicate Square<K>(b: Table<K>) {
    forall i :: i in b ==> b[i].Keys == b.Keys
  }

  ghost predicate Symmetric<K>(b: Table<K>)
    requires Square(b)
  {
    forall i, j {:trigger b[i][j]} :: i in b && j in b ==> b[i][j] == b[j][i]
  }

  ghost function Members<K>(comm: Assignment<K>, c: nat): (s: set<K>)
    ensures s <= comm.Keys
  {
    set i | i in comm && comm[i] == c
  }

  /** The pair weights of one node, summed over its own community. */
  ghost function OwnRow<K>(b: Table<K>, comm: Assignment<K>, i: K): real
    requires Square(b) && comm.Keys == b.Keys && i in b
  {
    Sum(b[i], Members(comm, comm[i]))
  }

  ghost function OwnRows<K>(b: Table<K>, comm: Assignment<K>): (r: map<K, real>)
    requires Square(b) && comm.Keys == b.Keys
    ensures r.Keys == b.Keys
  {
    map i | i in b :: OwnRow(b, comm, i)
  }

  ghost function PairTotal<K>(b: Table<K>, comm: Assignment<K>): real
    requires Square(b) && comm.Keys == b.Keys
  {
    Sum(OwnRows(b, comm), b.Keys)
  }

  /** What `n` would contribute to community `c`, `n` itself not counted. */
  ghost function Pull<K>(b: Table<K>, comm: Assignment<K>, n: K, c: nat): real
    requires Square(b) && comm.Keys == b.Keys && n in b
  {
    Sum(b[n], Members(comm, c) - {n})
  }

  /** `next` is `comm` after at most the one node `n` has changed community. */
  ghost predicate OneMove<K>(comm: Assignment<K>, next: Assignment<K>, n: K) {
    n in comm && next.Keys == comm.Keys && forall i :: i in comm && i != n ==> next[i] == comm[i]
  }

  /** Moving one node changes the pairwise total by twice the difference of the two pulls. */
  lemma MoveChangesTotal<K>(b: Table<K>, comm: Assignment<K>, next: Assignment<K>, n: K)
    requires Square(b) && Symmetric(b) && comm.Keys == b.Keys && OneMove(comm, next, n)
    ensures PairTotal(b, next) - PairTotal(b, comm)
         == 2.0 * (Pull(b, comm, n, next[n]) - Pull(b, comm, n, comm[n]))
  {
    SumTake(OwnRows(b, comm), b.Keys, n);
    SumTake(OwnRows(b, next), b.Keys, n);
    MovedRow(b, comm, next, n);
    OtherRows(b, comm, next, n);
  }

  lemma OtherRows<K>(b: Table<K>, comm: Assignment<K>, next: Assignment<K>, n: K)
    requires Square(b) && Symmetric(b) && comm.Keys == b.Keys && OneMove(comm, next, n)
    ensures Sum(OwnRows(b, next), b.Keys - {n})
         == Sum(OwnRows(b, comm), b.Keys - {n}) + Pull(b, comm, n, next[n]) - Pull(b, comm, n, comm[n])
  {
    var gain, loss := Members(comm, next[n]) - {n}, Members(comm, comm[n]) - {n};
    forall i | i in b.Keys - {n}
      ensures OwnRow(b, next, i)
           == OwnRow(b, comm, i) + (if i in gain then b[n][i] else 0.0) - (if i in loss then b[n][i] else 0.0)
    {
      OtherRow(b, comm, next, n, i);
    }
    SumShift(OwnRows(b, next), OwnRows(b, comm), b[n], b.Keys - {n}, gain, loss);
  }

  lemma MembersAfterMove<K>(comm: Assignment<K>, next: Assignment<K>, n: K, d: nat)
    requires OneMove(comm, next, n)
    ensures Members(next, d) - {n} == Members(comm, d) - {n}
  {
  }

  /** The row of the moved node, before and after. */
  lemma MovedRow<K>(b: Table<K>, comm: Assignment<K>, next: Assignment<K>, n: K)
    requires Square(b) && comm.Keys == b.Keys && OneMove(comm, next, n)
    ensures OwnRow(b, comm, n) == b[n][n] + Pull(b, comm, n, comm[n])
    ensures OwnRow(b, next, n) == b[n][n] + Pull(b, comm, n, next[n])
  {
    SumTake(b[n], Members(comm, comm[n]), n);
    SumTake(b[n], Members(next, next[n]), n);
    MembersAfterMove(comm, next, n, next[n]);
  }

  /** The row of any other node sees the moved one come or go. */
  lemma OtherRow<K>(b: Table<K>, comm: Assignment<K>, next: Assignment<K>, n: K, i: K)
    requires Square(b) && Symmetric(b) && comm.Keys == b.Keys && OneMove(comm, next, n) && i in b && i != n
    ensures OwnRow(b, next, i) == OwnRow(b, comm, i)
         + (if comm[i] == next[n] then b[n][i] else 0.0) - (if comm[i] == comm[n] then b[n][i] else 0.0)
  {
    SumWithout(b[i], Members(comm, comm[i]), n);
    SumWithout(b[i], Members(next, comm[i]), n);
    MembersAfterMove(comm, next, n, comm[i]);
  }

  lemma SumWithout<K>(t: map<K, real>, s: set<K>, n: K)
    requires s <= t.Keys && n in t
    ensures Sum(t, s) == Sum(t, s - {n}) + (if n in s then t[n] else 0.0)
  {
    if n in s {
      SumTake(t, s, n);
    } else {
      assert s - {n} == s;
    }
  }

  /** Only who is together with whom matters, not what the communities are called. */
  lemma RenamingKeepsTotal<K>(b: Table<K>, comm: Assignment<K>, renamed: Assignment<K>)
    requires Square(b) && comm.Keys == b.Keys && renamed.Keys == b.Keys
    requires forall i, j :: i in b && j in b ==> (comm[i] == comm[j] <==> renamed[i] == renamed[j])
    ensures PairTotal(b, comm) == PairTotal(b, renamed)
  {
    forall i | i in b ensures Members(comm, comm[i]) == Members(renamed, renamed[i]) {
    }
    SumCong(OwnRows(b, comm), OwnRows(b, renamed), b.Keys);
  }
}
