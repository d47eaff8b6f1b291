/**
 * LoadBalancer of src/server.h: the indirection table and the cyclic scan for a worker with room.
 *
 * A call asks is_full of each worker at most once, so what the call observes is one answer per
 * worker, the parameter `full`; other threads may change the queues between the questions.
 */
module LoadBalancers {
  import opened Bits
  import opened CircularQueues

  /** The `d`-th worker after `start`, cyclically. */
  function Nth(start: nat, d: nat, size: nat): (w: nat)
    requires start < size && d < size
    ensures w < size
  {
    Wrap(start + d, size)
  }

  /** `r` is the first worker, in cyclic order from `start`, that was observed not full. */
  predicate FirstWithRoom(full: seq<bool>, start: nat, d: nat, r: int)
    requires start < |full|
  {
    && d < |full| && r == Nth(start, d, |full|) && !full[r]
    && forall e: nat :: e < d ==> full[Nth(start, e, |full|)]
  }

  /** How many entries of `table` name worker `w`. */
  function Share(table: seq<nat>, w: nat): nat {
    if table == [] then 0
    else Share(table[..|table| - 1], w) + if table[|table| - 1] == w then 1 else 0
  }

  ghost predicate RoundRobin(table: seq<nat>, n: nat)
    requires n > 0
  {
    forall i :: 0 <= i < |table| ==> table[i] == i % n
  }

  lemma NextQuotient(m: nat, n: nat)
    requires n > 0
    ensures m % n + 1 < n ==> (m + 1) / n == m / n && (m + 1) % n == m % n + 1
    ensures m % n + 1 == n ==> (m + 1) / n == m / n + 1 && (m + 1) % n == 0
  {
    var q, r := m / n, m % n;
    assert m == q * n + r;
    if r + 1 < n {
      ModUnique(m + 1, n, q, r + 1);
    } else {
      assert m + 1 == (q + 1) * n + 0;
      ModUnique(m + 1, n, q + 1, 0);
    }
  }

  lemma StepModulo(i: nat, n: nat)
    requires i < n
    ensures (i + 1) % n == Wrap(i + 1, n)
  {
    ModUnique(i, n, 0, i);
    NextQuotient(i, n);
  }

  /** Each worker's share is the quotient, plus one for the workers below the remainder. */
  lemma {:induction false} RoundRobinShare(table: seq<nat>, n: nat, w: nat)
    requires n > 0 && w < n && RoundRobin(table, n)
    ensures Share(table, w) == |table| / n + if w < |table| % n then 1 else 0
    decreases |table|
  {
    if table == [] {
      ModUnique(0, n, 0, 0);
    } else {
      var m := |table| - 1;
      RoundRobinShare(table[..m], n, w);
      NextQuotient(m, n);
    }
  }

  /** After a reset no two workers' shares of the table differ by more than one. */
  lemma SharesAreEven(table: seq<nat>, n: nat, v: nat, w: nat)
    requires n > 0 && v < n && w < n && RoundRobin(table, n)
    ensures Share(table, v) <= Share(table, w) + 1
  {
    RoundRobinShare(table, n, v);
    RoundRobinShare(table, n, w);
  }

  class LoadBalancer {
    const table: array<nat>

    /** Every entry names one of `workers` workers. */
    ghost predicate Valid(workers: nat)
      reads this, table
    {
      && 0 < table.Length && 0 < workers
      && forall i :: 0 <= i < table.Length ==> table[i] < workers
    }

    constructor (workerNum: nat, tableSize: nat)
      requires workerNum > 0 && tableSize > 0
      ensures fresh(table) && Valid(workerNum) && table.Length == tableSize && RoundRobin(table[..], workerNum)
    {
      table := new nat[tableSize](i => 0);
      new;
      Reset(workerNum);
    }

    /** init_indirect_table. */
    method Reset(workerNum: nat)
      requires workerNum > 0 && table.Length > 0
      modifies table
      ensures Valid(workerNum) && RoundRobin(table[..], workerNum)
    {
      var i := 0;
      while i < table.Length
        invariant 0 <= i <= table.Length
        invariant forall j :: 0 <= j < i ==> table[j] == j % workerNum && table[j] < workerNum
      {
        table[i] := i % workerNum;
        i := i + 1;
      }
    }

    /** The scan of the workers after `start`, once around. */
    method FindAvailableWorker(full: seq<bool>, start: nat) returns (r: int)
      requires start < |full| && full[start]
      ensures r == -1 ==> forall w :: 0 <= w < |full| ==> full[w]
      ensures r != -1 ==> exists d: nat :: FirstWithRoom(full, start, d, r)
    {
      var size := |full|;
      ghost var d := 1;
      StepModulo(start, size);
      var index := (start + 1) % size;
      while index != start
        invariant 1 <= d <= size && index == Wrap(start + d, size)
        invariant forall e: nat :: e < d ==> full[Nth(start, e, size)]
        decreases size - d
      {
        if !full[index] {
          assert FirstWithRoom(full, start, d, index);
          return index;
        }
        StepModulo(index, size);
        index := (index + 1) % size;
        d := d + 1;
      }
      forall w | 0 <= w < size ensures full[w] {
        var e := if w >= start then w - start else w + size - start;
        assert w == Nth(start, e, size);
      }
      return -1;
    }

    /**
     * acquire_worker_index. -1 exactly when every worker was observed full; otherwise the first
     * worker with room from the entry's own on, which the entry now names. No other entry changes.
     */
    method AcquireWorkerIndex(key: nat, full: seq<bool>) returns (r: int)
      requires Valid(|full|)
      modifies table
      ensures Valid(|full|)
      ensures r == -1 <==> forall w :: 0 <= w < |full| ==> full[w]
      ensures r != -1 ==> exists d: nat :: FirstWithRoom(full, old(table[key % table.Length]), d, r)
      ensures table[..] == if r == -1 then old(table[..]) else old(table[..])[key % table.Length := r]
    {
      var tableIndex := key % table.Length;
      var workerIndex := table[tableIndex];
      if !full[workerIndex] {
        assert FirstWithRoom(full, workerIndex, 0, workerIndex);
        return workerIndex;
      }
      var newIndex := FindAvailableWorker(full, workerIndex);
      if newIndex == -1 {
        return -1;
      }
      table[tableIndex] := newIndex;
      return newIndex;
    }
  }
}
