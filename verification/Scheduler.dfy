/** Heap order over the bare refresh times: what one sift step keeps and when sifting
    may stop. */
module HeapOrder {

  function Parent(i: nat): nat {
    if i == 0 then 0 else (i - 1) / 2
  }

  ghost predicate Ordered(p: seq<int>, n: nat)
    requires n <= |p|
  {
    forall c | 0 < c < n :: p[Parent(c)] <= p[c]
  }

  /** In order, except possibly between slot `skip` and its neighbours; the neighbours
      of `skip` are in order with each other. */
  ghost predicate OrderedBut(p: seq<int>, n: nat, skip: nat)
    requires n <= |p|
  {
    && (forall c | 0 < c < n && c != skip && Parent(c) != skip :: p[Parent(c)] <= p[c])
    && (forall c | 0 < c < n && 0 < skip < n && Parent(c) == skip :: p[Parent(skip)] <= p[c])
  }

  /** Slot `j` is no later than its children. */
  ghost predicate LeadsChildren(p: seq<int>, n: nat, j: nat)
    requires j < n <= |p|
  {
    forall c | 0 < c < n && Parent(c) == j :: p[j] <= p[c]
  }

  function Swapped<T>(p: seq<T>, i: nat, j: nat): seq<T>
    requires i < |p| && j < |p|
  {
    p[i := p[j]][j := p[i]]
  }

  lemma UpStep(p: seq<int>, j: nat)
    requires 0 < j < |p| && p[j] < p[Parent(j)]
    requires OrderedBut(p, |p|, j) && LeadsChildren(p, |p|, j)
    ensures var q := Swapped(p, Parent(j), j);
            OrderedBut(q, |q|, Parent(j)) && LeadsChildren(q, |q|, Parent(j))
  {
    var q := Swapped(p, Parent(j), j);
    forall c | 0 < c < |q| && Parent(c) == Parent(j) ensures q[Parent(j)] <= q[c] {
      if c != j { assert p[Parent(c)] <= p[c]; }
    }
    forall c | 0 < c < |q| && Parent(c) == j ensures q[j] <= q[c] {}
  }

  lemma UpDone(p: seq<int>, j: nat)
    requires j < |p| && (j == 0 || p[Parent(j)] <= p[j])
    requires OrderedBut(p, |p|, j) && LeadsChildren(p, |p|, j)
    ensures Ordered(p, |p|)
  {}

  /** `j` is the earlier child of `i`. */
  ghost predicate EarlierChild(p: seq<int>, n: nat, i: nat, j: nat)
    requires n <= |p|
  {
    i < j < n && Parent(j) == i && forall c | 0 < c < n && Parent(c) == i :: p[j] <= p[c]
  }

  lemma ChildIsEarlier(p: seq<int>, n: nat, i: nat, j: nat)
    requires 2 * i + 1 < n <= |p|
    requires j == (if 2 * i + 2 < n && p[2 * i + 2] < p[2 * i + 1] then 2 * i + 2 else 2 * i + 1)
    ensures EarlierChild(p, n, i, j)
  {
    forall c | 0 < c < n && Parent(c) == i ensures c == 2 * i + 1 || c == 2 * i + 2 {}
  }

  lemma StopsAbove(p: seq<int>, n: nat, i: nat, j: nat)
    requires i < n <= |p| && EarlierChild(p, n, i, j) && p[i] <= p[j]
    ensures LeadsChildren(p, n, i)
  {}

  lemma DownStep(p: seq<int>, n: nat, i: nat, j: nat)
    requires n <= |p| && EarlierChild(p, n, i, j) && p[j] < p[i]
    requires OrderedBut(p, n, i)
    ensures var q := Swapped(p, i, j);
            OrderedBut(q, n, j) && q[Parent(j)] <= q[j] && (i > 0 ==> q[Parent(i)] <= q[i])
  {
    var q := Swapped(p, i, j);
    forall c | 0 < c < n && c != j && Parent(c) != j ensures q[Parent(c)] <= q[c] {
      if c == i { assert i > 0; assert p[Parent(i)] <= p[j]; }
    }
    forall c | 0 < c < n && Parent(c) == j ensures q[Parent(j)] <= q[c] {
      assert p[Parent(c)] <= p[c];
    }
  }

  lemma DownDone(p: seq<int>, n: nat, i: nat)
    requires i < n <= |p| && OrderedBut(p, n, i) && LeadsChildren(p, n, i)
    requires i > 0 ==> p[Parent(i)] <= p[i]
    ensures Ordered(p, n)
  {}

  /** Moving the root to the end leaves only the new root out of order. */
  lemma RootOut(p: seq<int>, n: nat)
    requires |p| == n + 1 && Ordered(p, n + 1)
    ensures OrderedBut(Swapped(p, 0, n), n, 0)
  {}

  /** A new time puts at most its own slot out of order. */
  lemma Retimed(p: seq<int>, i: nat, t: int)
    requires i < |p| && Ordered(p, |p|)
    ensures OrderedBut(p[i := t], |p|, i)
  {
    forall c | 0 < c < |p| && 0 < i && Parent(c) == i ensures p[Parent(i)] <= p[c] {
      assert p[Parent(c)] <= p[c] && p[Parent(i)] <= p[i];
    }
  }

  /** The root of an ordered heap is a minimum. */
  lemma {:induction false} RootIsLeast(p: seq<int>, n: nat, i: nat)
    requires i < n <= |p| && Ordered(p, n)
    ensures p[0] <= p[i]
    decreases i
  {
    if i > 0 { RootIsLeast(p, n, Parent(i)); }
  }
}

/** The refresh scheduler: a binary min-heap of entries that know their own slot, a key
    index over it, and a compaction that gives the lock up half way. */
module Scheduler {
  import opened HeapOrder

  type Key = nat

  /** When each scheduled key is due. */
  type Plan = map<Key, int>

  /** The plan after a run of `Schedule` calls. */
  function Scheduled(m: Plan, calls: seq<(Key, int)>): Plan
    decreases |calls|
  {
    if calls == [] then m else Scheduled(m[calls[0].0 := calls[0].1], calls[1..])
  }

  function Due(m: Plan, cutoff: int): Plan {
    map k | k in m && m[k] <= cutoff :: m[k]
  }

  function Later(m: Plan, cutoff: int): Plan {
    map k | k in m && m[k] > cutoff :: m[k]
  }

  function Alive(m: Plan, alive: Key -> bool): Plan {
    map k | k in m && alive(k) :: m[k]
  }

  class HeapEntry {
    const key: Key
    var refreshAt: int
    var index: nat

    constructor (key: Key, refreshAt: int)
      ensures this.key == key && this.refreshAt == refreshAt
    {
      this.key := key;
      this.refreshAt := refreshAt;
      this.index := 0;
    }
  }

  class RefreshScheduler {
    var heap: seq<HeapEntry>
    var index: map<Key, HeapEntry>
    var stopped: bool

    ghost var entries: set<HeapEntry>  // the entries in the heap
    ghost var times: seq<int>          // their refresh times, slot by slot

    /** Entries and slots name each other. */
    ghost predicate Placed()
      reads `heap, `times, `entries, entries
    {
      && |times| == |heap|
      && (forall i | 0 <= i < |heap| :: heap[i] in entries && heap[i].index == i && heap[i].refreshAt == times[i])
      && (forall e | e in entries :: e.index < |heap| && heap[e.index] == e)
    }

    /** `refreshHeap.Swap`. */
    method Swap(i: nat, j: nat)
      requires i < |heap| && j < |heap| && Placed()
      modifies this`heap, this`times, entries`index
      ensures Placed() && heap == Swapped(old(heap), i, j) && times == Swapped(old(times), i, j)
    {
      var a, b := heap[i], heap[j];
      heap := heap[i := b][j := a];
      b.index := i;
      a.index := j;
      times := times[i := times[j]][j := times[i]];
    }

    /** `heap.up`. */
    method Up(j0: nat)
      requires j0 < |heap| && Placed()
      requires OrderedBut(times, |times|, j0) && LeadsChildren(times, |times|, j0)
      modifies this`heap, this`times, entries`index
      ensures |heap| == |old(heap)| && Placed() && Ordered(times, |times|)
    {
      var j: nat := j0;
      while j > 0 && heap[j].refreshAt < heap[Parent(j)].refreshAt
        invariant j < |heap| == |old(heap)| && Placed()
        invariant OrderedBut(times, |times|, j) && LeadsChildren(times, |times|, j)
      {
        var i := Parent(j);
        UpStep(times, j);
        Swap(i, j);
        j := i;
      }
      UpDone(times, j);
    }

    /** One round of `heap.down`: the slot the sifted entry lies in afterwards. */
    method DownOnce(i: nat, n: nat) returns (next: nat)
      requires 2 * i + 1 < n <= |heap| && Placed() && OrderedBut(times, n, i)
      modifies this`heap, this`times, entries`index
      ensures |heap| == |old(heap)| && Placed() && OrderedBut(times, n, next) && i <= next < n
      ensures next == i ==> heap == old(heap) && times == old(times) && LeadsChildren(times, n, i)
      ensures next > i ==> times[Parent(next)] <= times[next]
      ensures forall k | n <= k < |heap| :: heap[k] == old(heap)[k] && times[k] == old(times)[k]
    {
      var j := Child(i, n);
      if heap[i].refreshAt <= heap[j].refreshAt {
        StopsAbove(times, n, i, j);
        return i;
      }
      DownStep(times, n, i, j);
      Swap(i, j);
      return j;
    }

    /** The child `heap.down` compares with. */
    method Child(i: nat, n: nat) returns (j: nat)
      requires 2 * i + 1 < n <= |heap| && Placed()
      ensures EarlierChild(times, n, i, j)
    {
      j := 2 * i + 1;
      if j + 1 < n && heap[j + 1].refreshAt < heap[j].refreshAt { j := j + 1; }
      ChildIsEarlier(times, n, i, j);
    }

    /** `heap.down` over the first `n` slots. */
    method Down(i0: nat, n: nat) returns (moved: bool)
      requires i0 <= n <= |heap| && Placed() && OrderedBut(times, n, i0)
      modifies this`heap, this`times, entries`index
      ensures |heap| == |old(heap)| && Placed()
      ensures forall k | n <= k < |heap| :: heap[k] == old(heap)[k] && times[k] == old(times)[k]
      ensures !moved ==> heap == old(heap) && times == old(times) && (i0 < n ==> LeadsChildren(times, n, i0))
      ensures moved ==> Ordered(times, n)
    {
      var i: nat := i0;
      var stop := false;
      while !stop && 2 * i + 1 < n
        invariant i0 <= i <= n && |heap| == |old(heap)| && Placed()
        invariant forall k | n <= k < |heap| :: heap[k] == old(heap)[k] && times[k] == old(times)[k]
        invariant OrderedBut(times, n, i)
        invariant i == i0 ==> heap == old(heap) && times == old(times)
        invariant i > i0 ==> 0 < i < n && times[Parent(i)] <= times[i]
        invariant stop ==> i < n && LeadsChildren(times, n, i)
        decreases n - i, !stop
      {
        var next := DownOnce(i, n);
        stop := next == i;
        i := next;
      }
      moved := i > i0;
      if i < n && moved { DownDone(times, n, i); }
    }

    /** The heap holds the entries in order. */
    ghost predicate Heaped()
      reads `heap, `times, `entries, entries
    {
      Placed() && Ordered(times, |times|)
    }

    /** `heap.Push`. */
    method Push(e: HeapEntry)
      requires Heaped() && e !in entries
      modifies this`heap, this`times, this`entries, entries`index, e`index
      ensures Heaped() && entries == old(entries) + {e}
    {
      e.index := |heap|;
      heap := heap + [e];
      times := times + [e.refreshAt];
      entries := entries + {e};
      Up(|heap| - 1);
    }

    /** `heap.Pop`. */
    method Pop() returns (e: HeapEntry)
      requires Heaped() && heap != []
      modifies this`heap, this`times, this`entries, entries`index
      ensures Heaped() && e in old(entries) && entries == old(entries) - {e}
      ensures forall x | x in old(entries) :: e.refreshAt <= x.refreshAt
    {
      TopIsLeast();
      e := heap[0];
      TopToEnd();
      DropLast(e, |heap| - 1);
    }

    lemma TopIsLeast()
      requires Heaped() && heap != []
      ensures forall x | x in entries :: heap[0].refreshAt <= x.refreshAt
    {
      forall x | x in entries ensures heap[0].refreshAt <= x.refreshAt {
        RootIsLeast(times, |times|, x.index);
      }
    }

    /** The head of `heap.Pop`: the root goes to the last slot, the rest is ordered again. */
    method TopToEnd()
      requires Heaped() && heap != []
      modifies this`heap, this`times, entries`index
      ensures Placed() && |heap| == |old(heap)| && heap[|heap| - 1] == old(heap[0]) && Ordered(times, |heap| - 1)
    {
      var n := |heap| - 1;
      RootOut(times, n);
      Swap(0, n);
      var moved := Down(0, n);
      if !moved && n > 0 { DownDone(times, n, 0); }
    }

    /** The tail of `heap.Pop`: cut the last slot off. */
    method DropLast(e: HeapEntry, n: nat)
      requires Placed() && |heap| == n + 1 && heap[n] == e && Ordered(times, n)
      modifies this`heap, this`times, this`entries
      ensures Heaped() && entries == old(entries) - {e}
    {
      heap := heap[..n];
      times := times[..n];
      entries := entries - {e};
    }

    /** `heap.Fix`, once the time in slot `i` has changed. */
    method Fix(i: nat)
      requires i < |heap| && Placed() && OrderedBut(times, |times|, i)
      modifies this`heap, this`times, entries`index
      ensures Heaped()
    {
      var moved := Down(i, |heap|);
      if !moved { Up(i); }
    }

    // ---- The scheduler over its heap ----

    /** The index maps every key to its entry and knows every entry. */
    ghost predicate Indexed()
      reads `index, `entries
    {
      && (forall k | k in index :: index[k] in entries && index[k].key == k)
      && (forall e | e in entries :: e.key in index && index[e.key] == e)
    }

    ghost predicate Valid()
      reads `heap, `times, `entries, `index, entries
    {
      Heaped() && Indexed()
    }

    ghost function Model(): Plan
      reads `index, `entries, entries`refreshAt
      requires Indexed()
    {
      map k | k in index :: index[k].refreshAt
    }

    constructor ()
      ensures Valid() && Model() == map[] && !stopped && entries == {}
    {
      heap := [];
      index := map[];
      stopped := false;
      entries := {};
      times := [];
    }

    method Stop()
      requires Valid()
      modifies this`stopped
      ensures Valid() && stopped && Model() == old(Model())
    {
      stopped := true;
    }

    /** `Schedule`: insert the key or move it to its new time. */
    method Schedule(key: Key, refreshAt: int)
      requires Valid()
      modifies this, entries
      ensures Valid() && stopped == old(stopped)
      ensures Model() == if stopped then old(Model()) else old(Model())[key := refreshAt]
      ensures old(entries) <= entries && fresh(entries - old(entries))
    {
      if stopped { return; }
      if key in index {
        Move(index[key], refreshAt);
      } else {
        var e := new HeapEntry(key, refreshAt);
        Insert(e);
      }
    }

    /** The update branch: set the time, then `heap.Fix`. */
    method Move(e: HeapEntry, refreshAt: int)
      requires Valid() && e in entries
      modifies this`heap, this`times, entries`index, e`refreshAt
      ensures Valid() && Model() == old(Model())[e.key := refreshAt]
    {
      Retime(e, refreshAt);
      ghost var m := Model();
      Fix(e.index);
      assert Model() == m;
    }

    method Retime(e: HeapEntry, refreshAt: int)
      requires Valid() && e in entries
      modifies this`times, e`refreshAt
      ensures Placed() && OrderedBut(times, |times|, e.index)
      ensures Model() == old(Model())[e.key := refreshAt]
    {
      Retimed(times, e.index, refreshAt);
      e.refreshAt := refreshAt;
      times := times[e.index := refreshAt];
    }

    /** `heap.Push` and the index entry that goes with it. */
    method Insert(e: HeapEntry)
      requires Valid() && e !in entries && e.key !in index
      modifies this`heap, this`times, this`entries, this`index, entries`index, e`index
      ensures Valid() && entries == old(entries) + {e}
      ensures Model() == old(Model())[e.key := e.refreshAt]
    {
      Push(e);
      Enter(e);
    }

    /** The index learns of an entry the heap already holds. */
    method Enter(e: HeapEntry)
      requires Heaped() && e in entries && e.key !in index
      requires forall k | k in index :: index[k] in entries && index[k] != e && index[k].key == k
      requires forall x | x in entries && x != e :: x.key in index && index[x.key] == x
      modifies `index
      ensures Valid() && index == old(index)[e.key := e]
    {
      index := index[e.key := e];
    }

    /** `heap.Pop` and the deletion from the index. */
    method Take() returns (e: HeapEntry)
      requires Valid() && heap != []
      modifies this`heap, this`times, this`entries, this`index, entries`index
      ensures Valid() && e in old(entries) && entries == old(entries) - {e}
      ensures e.key in old(Model()) && old(Model())[e.key] == e.refreshAt
      ensures Model() == old(Model()) - {e.key}
      ensures forall k | k in old(Model()) :: e.refreshAt <= old(Model())[k]
    {
      ghost var m := Model();
      e := Pop();
      index := index - {e.key};
      forall k | k in m ensures e.refreshAt <= m[k] {}
    }

    /** One round of `run`: look at the top, give the lock up, wait until `now`, and pop whatever
        the top has become. `during` are the `Schedule` calls that ran in the gap. */
    method Drain(now: int, during: seq<(Key, int)>) returns (popped: bool, key: Key, at: int)
      requires Valid()
      modifies this, entries
      ensures Valid() && stopped == old(stopped)
      ensures popped <==> exists k | k in old(Model()) :: old(Model())[k] <= now
      ensures var late := if !popped || stopped then old(Model()) else Scheduled(old(Model()), during);
              && Model() == (if popped then late - {key} else late)
              && (popped ==> key in late && late[key] == at && forall k | k in late :: at <= late[k])
      ensures popped ==> (at <= now <==> stopped || DueAfter(old(Model()), during, now))
    {
      popped, key, at := false, 0, 0;
      if heap == [] { return; }
      TopIsLeast();
      assert heap[0].key in Model();
      if heap[0].refreshAt > now { return; }
      ghost var m := Model();
      ScheduleAll(during);
      if !stopped { ScheduledKeeps(m, during); }
      assert |Model()| > 0 ==> heap != [];
      var e := Take();
      popped, key, at := true, e.key, e.refreshAt;
      if !stopped { PoppedIsDue(m, during, now, e.key); }
    }

    /** `Schedule` calls of other goroutines, in the order they took the lock. */
    method ScheduleAll(calls: seq<(Key, int)>)
      requires Valid()
      modifies this, entries
      ensures Valid() && stopped == old(stopped)
      ensures Model() == Scheduled(old(Model()), if stopped then [] else calls)
      ensures old(entries) <= entries && fresh(entries - old(entries))
    {
      for i := 0 to |calls|
        invariant Valid() && stopped == old(stopped)
        invariant !stopped ==> Scheduled(Model(), calls[i..]) == Scheduled(old(Model()), calls)
        invariant stopped ==> Model() == old(Model())
        invariant old(entries) <= entries && fresh(entries - old(entries))
      {
        assert calls[i..][0] == calls[i] && calls[i..][1..] == calls[i + 1..];
        Schedule(calls[i].0, calls[i].1);
      }
    }

    method TakeDue(cutoff: int) returns (e: HeapEntry)
      requires Valid() && heap != [] && heap[0].refreshAt <= cutoff
      modifies this`heap, this`times, this`entries, this`index, entries`index
      ensures Valid() && e in old(entries) && entries == old(entries) - {e} && e.refreshAt <= cutoff
      ensures e.key in old(Model()) && old(Model())[e.key] == e.refreshAt && Model() == old(Model()) - {e.key}
    {
      ghost var top := heap[0].key;
      assert top in Model() && Model()[top] <= cutoff;
      e := Take();
    }

    lemma NothingDue(cutoff: int)
      requires Valid() && (heap == [] || heap[0].refreshAt > cutoff)
      ensures forall k | k in Model() :: Model()[k] > cutoff
    {
      if heap != [] { TopIsLeast(); }
    }

    /** Phase 1 of `compact`: everything due leaves the heap and the index. */
    method CollectDue(cutoff: int) returns (taken: seq<HeapEntry>, ghost ps: seq<(Key, int)>)
      requires Valid()
      modifies this`heap, this`times, this`entries, this`index, entries`index
      ensures Valid() && Model() == Later(old(Model()), cutoff)
      ensures Tells(taken, ps) && Lists(ps, Due(old(Model()), cutoff))
      ensures entries <= old(entries) && forall e | e in taken :: e in old(entries) && e !in entries
    {
      ghost var m := Model();
      taken, ps := [], [];
      while heap != [] && heap[0].refreshAt <= cutoff
        invariant Valid() && entries <= old(entries)
        invariant forall e | e in taken :: e in old(entries) && e !in entries
        invariant Tells(taken, ps) && Parted(m, Model(), ps, cutoff)
        decreases entries
      {
        ghost var rest := Model();
        var e := TakeDue(cutoff);
        PartMore(m, rest, ps, cutoff, e.key);
        TellsMore(taken, ps, e);
        taken, ps := taken + [e], ps + [(e.key, e.refreshAt)];
      }
      NothingDue(cutoff);
      PartedAll(m, Model(), ps, cutoff);
    }

    /** One entry of phase 3: it comes back unless its key was scheduled again meanwhile. */
    method PutBack(e: HeapEntry)
      requires Valid() && e !in entries
      modifies this`heap, this`times, this`entries, this`index, entries`index, e`index
      ensures Valid() && entries <= old(entries) + {e}
      ensures Model() == map[e.key := e.refreshAt] + old(Model())
    {
      if e.key !in index { Insert(e); }
    }

    /** One round of phase 3. */
    method PutBackAt(live: seq<HeapEntry>, i: nat, ghost ps: seq<(Key, int)>, ghost m: Plan)
      requires i < |live| && Valid() && Tells(live, ps) && EachOnce(ps)
      requires (forall j | i <= j < |live| :: live[j] !in entries) && Model() == Listed(ps[..i]) + m
      modifies this`heap, this`times, this`entries, this`index, entries`index, {live[i]}`index
      ensures Valid() && Tells(live, ps) && entries <= old(entries) + {live[i]}
      ensures (forall j | i < j < |live| :: live[j] !in entries) && Model() == Listed(ps[..i + 1]) + m
    {
      MergeMore(ps, i, m);
      PutBack(live[i]);
    }

    /** Phase 3 of `compact`. */
    method Reinsert(live: seq<HeapEntry>, ghost ps: seq<(Key, int)>, ghost plan: Plan)
      requires Valid() && Tells(live, ps) && Lists(ps, plan) && forall e | e in live :: e !in entries
      modifies this`heap, this`times, this`entries, this`index, entries`index, live`index
      ensures Valid() && Model() == plan + old(Model())
    {
      ghost var m := Model();
      for i := 0 to |live|
        invariant Valid() && Tells(live, ps) && entries <= old(entries) + set e | e in live
        invariant (forall j | i <= j < |live| :: live[j] !in entries) && Model() == Listed(ps[..i]) + m
      {
        PutBackAt(live, i, ps, m);
      }
      assert ps[..|live|] == ps;
      ListedIs(ps, plan);
    }

    /** `compact`, with `during` the `Schedule` calls that ran while the lock was free. */
    method Compact(cutoff: int, alive: Key -> bool, during: seq<(Key, int)>)
      requires Valid()
      modifies this, entries
      ensures Valid() && stopped == old(stopped)
      ensures Model() == Compacted(old(Model()), cutoff, alive, if stopped then [] else during)
    {
      var live, ps := CollectLive(cutoff, alive);
      Resume(live, ps, Alive(Due(old(Model()), cutoff), alive), during);
    }

    /** Phases 1 and 2. */
    method CollectLive(cutoff: int, alive: Key -> bool) returns (live: seq<HeapEntry>, ghost ps: seq<(Key, int)>)
      requires Valid()
      modifies this`heap, this`times, this`entries, this`index, entries`index
      ensures Valid() && Model() == Later(old(Model()), cutoff)
      ensures Tells(live, ps) && Lists(ps, Alive(Due(old(Model()), cutoff), alive))
      ensures entries <= old(entries) && forall e | e in live :: e in old(entries) && e !in entries
    {
      ghost var m := Model();
      var taken, qs := CollectDue(cutoff);
      live, ps := FilterAlive(taken, alive, qs, Due(m, cutoff));
    }

    /** The gap and phase 3. */
    method Resume(live: seq<HeapEntry>, ghost ps: seq<(Key, int)>, ghost plan: Plan, during: seq<(Key, int)>)
      requires Valid() && Tells(live, ps) && Lists(ps, plan) && forall e | e in live :: e !in entries
      modifies this, entries, live
      ensures Valid() && stopped == old(stopped)
      ensures Model() == plan + Scheduled(old(Model()), if stopped then [] else during)
    {
      ScheduleAll(during);
      Reinsert(live, ps, plan);
    }
  }

  /** The keys and times of entries outside the heap. */
  ghost predicate Tells(es: seq<HeapEntry>, ps: seq<(Key, int)>)
    reads es`refreshAt
  {
    |es| == |ps| && forall i | 0 <= i < |es| :: es[i].key == ps[i].0 && es[i].refreshAt == ps[i].1
  }

  lemma TellsMore(es: seq<HeapEntry>, ps: seq<(Key, int)>, e: HeapEntry)
    requires Tells(es, ps)
    ensures Tells(es + [e], ps + [(e.key, e.refreshAt)])
  {}

  ghost predicate EachOnce(ps: seq<(Key, int)>) {
    forall i, j | 0 <= i < j < |ps| :: ps[i].0 != ps[j].0
  }

  /** Each key once, and together the plan. */
  ghost predicate Lists(ps: seq<(Key, int)>, m: Plan) {
    && EachOnce(ps)
    && (forall p | p in ps :: p.0 in m && m[p.0] == p.1)
    && (forall k | k in m :: (k, m[k]) in ps)
  }

  function Listed(ps: seq<(Key, int)>): Plan {
    if ps == [] then map[] else Listed(ps[..|ps| - 1])[ps[|ps| - 1].0 := ps[|ps| - 1].1]
  }

  lemma {:induction false} ListedKeys(ps: seq<(Key, int)>)
    ensures forall k | k in Listed(ps) :: (k, Listed(ps)[k]) in ps
    ensures forall p | p in ps :: p.0 in Listed(ps)
  {
    if ps != [] {
      ListedKeys(ps[..|ps| - 1]);
      assert ps == ps[..|ps| - 1] + [ps[|ps| - 1]];
    }
  }

  lemma ListedIs(ps: seq<(Key, int)>, m: Plan)
    requires Lists(ps, m)
    ensures Listed(ps) == m
  {
    ListedKeys(ps);
  }

  lemma MergeOne(back: Plan, m: Plan, k: Key, t: int)
    requires k !in back
    ensures map[k := t] + (back + m) == back[k := t] + m
  {}

  lemma MergeMore(ps: seq<(Key, int)>, i: nat, m: Plan)
    requires i < |ps| && EachOnce(ps)
    ensures map[ps[i].0 := ps[i].1] + (Listed(ps[..i]) + m) == Listed(ps[..i + 1]) + m
  {
    assert ps[i].0 !in Listed(ps[..i]) by { ListedKeys(ps[..i]); }
    MergeOne(Listed(ps[..i]), m, ps[i].0, ps[i].1);
    assert ps[..i + 1][..i] == ps[..i];
  }

  /** The due part of `m` taken so far, and the plan that is left. */
  ghost predicate Parted(m: Plan, rest: Plan, ps: seq<(Key, int)>, cutoff: int) {
    && Lists(ps, m - rest.Keys)
    && (forall p | p in ps :: p.1 <= cutoff)
    && (forall k | k in rest :: k in m && rest[k] == m[k])
  }

  lemma PartMore(m: Plan, rest: Plan, ps: seq<(Key, int)>, cutoff: int, k: Key)
    requires Parted(m, rest, ps, cutoff) && k in rest && rest[k] <= cutoff
    ensures Parted(m, rest - {k}, ps + [(k, rest[k])], cutoff)
  {
    var more := ps + [(k, rest[k])];
    forall x | x in m - (rest - {k}).Keys ensures (x, m[x]) in more {
      if x != k { assert x in m - rest.Keys; }
    }
    forall i | 0 <= i < |ps| ensures more[i].0 != k {
      assert ps[i] in ps;
    }
  }

  lemma PartedAll(m: Plan, rest: Plan, ps: seq<(Key, int)>, cutoff: int)
    requires Parted(m, rest, ps, cutoff) && forall k | k in rest :: rest[k] > cutoff
    ensures rest == Later(m, cutoff) && Lists(ps, Due(m, cutoff))
  {
    assert m - rest.Keys == Due(m, cutoff) by {
      forall k | k in m && k !in rest ensures m[k] <= cutoff {
        assert k in m - rest.Keys;
      }
    }
  }

  function Living(ps: seq<(Key, int)>, alive: Key -> bool): seq<(Key, int)> {
    if ps == [] then []
    else Living(ps[..|ps| - 1], alive) + if alive(ps[|ps| - 1].0) then [ps[|ps| - 1]] else []
  }

  lemma {:induction false} LivingAre(ps: seq<(Key, int)>, alive: Key -> bool)
    requires EachOnce(ps)
    ensures EachOnce(Living(ps, alive)) && forall p :: p in Living(ps, alive) <==> p in ps && alive(p.0)
  {
    if ps != [] {
      var most, p := ps[..|ps| - 1], ps[|ps| - 1];
      LivingAre(most, alive);
      assert ps == most + [p];
      assert forall q | q in Living(most, alive) :: q in most;
    }
  }

  /** Phase 2 of `compact`, without the lock. */
  method FilterAlive(taken: seq<HeapEntry>, alive: Key -> bool, ghost ps: seq<(Key, int)>, ghost m: Plan)
      returns (live: seq<HeapEntry>, ghost qs: seq<(Key, int)>)
    requires Tells(taken, ps) && Lists(ps, m)
    ensures Tells(live, qs) && Lists(qs, Alive(m, alive))
    ensures forall e :: e in live <==> e in taken && alive(e.key)
  {
    live, qs := [], [];
    for i := 0 to |taken|
      invariant Tells(live, qs) && qs == Living(ps[..i], alive)
      invariant forall e | e in live :: e in taken && alive(e.key)
      invariant forall j | 0 <= j < i && alive(taken[j].key) :: taken[j] in live
    {
      assert ps[..i + 1][..i] == ps[..i];
      TellsMore(live, qs, taken[i]);
      if alive(taken[i].key) { live, qs := live + [taken[i]], qs + [ps[i]]; }
    }
    assert ps[..|taken|] == ps;
    LivingAre(ps, alive);
  }

  // ---- What compaction and the drainer do to the plan ----

  function Compacted(m: Plan, cutoff: int, alive: Key -> bool, during: seq<(Key, int)>): Plan {
    Alive(Due(m, cutoff), alive) + Scheduled(Later(m, cutoff), during)
  }

  predicate Calls(calls: seq<(Key, int)>, k: Key) {
    exists c | c in calls :: c.0 == k
  }

  /** The time the last call for `k` asked for. */
  function LastCall(calls: seq<(Key, int)>, k: Key): int
    requires Calls(calls, k)
    decreases |calls|
  {
    if Calls(calls[1..], k) then LastCall(calls[1..], k) else
    assert calls == [calls[0]] + calls[1..];
    calls[0].1
  }

  lemma {:induction false} ScheduledAt(m: Plan, calls: seq<(Key, int)>, k: Key)
    ensures k in Scheduled(m, calls) <==> k in m || Calls(calls, k)
    ensures k in Scheduled(m, calls) ==>
              Scheduled(m, calls)[k] == if Calls(calls, k) then LastCall(calls, k) else m[k]
    decreases |calls|
  {
    if calls != [] {
      ScheduledAt(m[calls[0].0 := calls[0].1], calls[1..], k);
      assert calls == [calls[0]] + calls[1..];
    }
  }

  lemma ScheduledKeeps(m: Plan, calls: seq<(Key, int)>)
    ensures m.Keys <= Scheduled(m, calls).Keys
  {
    forall k | k in m ensures k in Scheduled(m, calls) { ScheduledAt(m, calls, k); }
  }

  /** Compaction drops a key exactly when it was due, its object is gone and nobody scheduled
      it meanwhile; a key scheduled meanwhile has the time its last call asked for, every other
      key the time it had; no key appears from nowhere. */
  lemma CompactionIsExact(m: Plan, cutoff: int, alive: Key -> bool, during: seq<(Key, int)>, k: Key)
    ensures var after := Compacted(m, cutoff, alive, during);
            && (k in after <==> Calls(during, k) || (k in m && (m[k] > cutoff || alive(k))))
            && (k in after ==> after[k] == if Calls(during, k) then LastCall(during, k) else m[k])
  {
    ScheduledAt(Later(m, cutoff), during, k);
  }

  /** Some key is still due once the calls of the gap have run. */
  ghost predicate DueAfter(m: Plan, during: seq<(Key, int)>, now: int) {
    exists k | k in m || Calls(during, k) :: (if Calls(during, k) then LastCall(during, k) else m[k]) <= now
  }

  /** A least key of the plan behind the gap is due exactly when some key still is. */
  lemma PoppedIsDue(m: Plan, during: seq<(Key, int)>, now: int, key: Key)
    requires var late := Scheduled(m, during);
             key in late && forall k | k in late :: late[key] <= late[k]
    ensures Scheduled(m, during)[key] <= now <==> DueAfter(m, during, now)
  {
    var late := Scheduled(m, during);
    ScheduledAt(m, during, key);
    forall k | k in m || Calls(during, k)
      ensures k in late && late[k] == if Calls(during, k) then LastCall(during, k) else m[k]
    {
      ScheduledAt(m, during, k);
    }
  }

  /** The drainer fires a key before its time: whatever the times, a lone key seen due and put
      off in the gap is popped all the same. */
  method PostponedKeyPopsEarly(s: RefreshScheduler, k: Key, seen: int, now: int, put: int)
      returns (popped: bool, key: Key, at: int)
    requires s.Valid() && !s.stopped && s.Model() == map[k := seen] && seen <= now < put
    modifies s, s.entries
    ensures popped && key == k && at == put && at > now
    ensures s.Valid() && s.Model() == map[]
  {
    var calls := [(k, put)];
    assert calls[1..] == [];
    assert Scheduled(map[k := seen], calls) == map[k := put];
    assert s.Model()[k] <= now;
    popped, key, at := s.Drain(now, calls);
  }

  /** A scheduler on which that happens. */
  method PostponedAtTen() returns (key: Key, at: int)
    ensures key == 7 && at == 100
  {
    var s := new RefreshScheduler();
    s.Schedule(7, 5);
    var popped;
    popped, key, at := PostponedKeyPopsEarly(s, 7, 5, 10, 100);
  }
}
