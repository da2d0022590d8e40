/** Bookkeeping of the Vary variants tracked per primary key. Go maps are shared by
    reference, so a tracked set is a cell of `sets` and `tracked` holds cell numbers.
    Each stretch of code under `variantMu` is one event; store probes and deletes are
    events of their own, so purges, local fills and peer puts interleave between them. */
module VariantSets {

  type Key = nat

  /** `maxVariants`, and whether the handler runs in a cluster (`ownerFn` set). */
  datatype Config = Config(maxVariants: nat, clustered: bool)

  datatype Pc =
    | Begin                                                  // about to take the lock
    | ProbePrimary                                           // lock released, about to look the primary up
    | PrimaryPresent | PrimaryAbsent                         // looked up, about to take the lock again
    | Pruning(todo: set<Key>, dead: set<Key>, atCap: bool)   // lock released, probing tracked keys
    | Reserved(ok: bool)
    | Stored                                                 // the reserved key was put into the store
    | Detaching                                              // a purge about to take the lock
    | Detached(cell: nat, had: set<Key>)                     // its set is off the table
    | DetachedNothing
    | Deleting(cell: nat, had: set<Key>, left: set<Key>)
    | DeletingPrimary(had: set<Key>)
    | Purged(owned: bool, ok: bool, had: set<Key>)

  /** `deleted`: keys this purge removed from the store; `reput`: those of them stored
      again since; `failed`: some store delete failed. */
  datatype Thread = Thread(
    primary: Key, key: Key, fromPeer: bool, pc: Pc,
    deleted: set<Key>, reput: set<Key>, failed: bool)

  /** `peerAdds` counts, per cell, the registrations a peer put made at or past the cap. */
  datatype State = State(
    sets: seq<set<Key>>, peerAdds: seq<nat>, tracked: map<Key, nat>,
    store: set<Key>, threads: map<nat, Thread>)

  const Start: State := State([], [], map[], {}, map[])

  datatype Event =
    | Fill(tid: nat, primary: Key, key: Key)
    | PeerPut(tid: nat, primary: Key, key: Key)   // stored by the RPC, about to be registered
    | Purge(tid: nat, primary: Key)
    | Lock(tid: nat)                 // the first locked stretch of a reservation
    | Look(tid: nat)                 // store.Get(primary), no lock
    | Relock(tid: nat)               // the locked stretch after that lookup
    | Probe(tid: nat, k: Key)        // store.Get of one tracked key, no lock
    | FinishPrune(tid: nat)          // the locked stretch after the probes
    | Detach(tid: nat)               // the locked stretch of a purge
    | CheckOwned(tid: nat)
    | DeleteVariant(tid: nat, k: Key, ok: bool)
    | DeletePrimary(tid: nat, ok: bool)
    | PutReserved(tid: nat)          // the store put behind a successful reservation
    | StorePut(k: Key)               // any other put
    | StoreDrop(k: Key)              // eviction, expiry, somebody's delete

  predicate Enabled(s: State, e: Event) {
    match e
    case Fill(tid, _, _) => tid !in s.threads
    case PeerPut(tid, _, _) => tid !in s.threads
    case Purge(tid, _) => tid !in s.threads
    case PutReserved(tid) => tid in s.threads && s.threads[tid].pc == Reserved(true)
    case StorePut(_) => true
    case StoreDrop(_) => true
    case Lock(tid) => tid in s.threads && s.threads[tid].pc.Begin?
    case Look(tid) => tid in s.threads && s.threads[tid].pc.ProbePrimary?
    case Relock(tid) => tid in s.threads && (s.threads[tid].pc.PrimaryPresent? || s.threads[tid].pc.PrimaryAbsent?)
    case Probe(tid, k) => tid in s.threads && s.threads[tid].pc.Pruning? && k in s.threads[tid].pc.todo
    case FinishPrune(tid) => tid in s.threads && s.threads[tid].pc.Pruning? && s.threads[tid].pc.todo == {}
    case Detach(tid) => tid in s.threads && s.threads[tid].pc.Detaching?
    case CheckOwned(tid) => tid in s.threads && (s.threads[tid].pc.Detached? || s.threads[tid].pc.DetachedNothing?)
    case DeleteVariant(tid, k, _) => tid in s.threads && s.threads[tid].pc.Deleting? && k in s.threads[tid].pc.left
    case DeletePrimary(tid, _) => tid in s.threads && s.threads[tid].pc.DeletingPrimary?
  }

  function SetPc(s: State, tid: nat, pc: Pc): State
    requires tid in s.threads
  {
    s.(threads := s.threads[tid := s.threads[tid].(pc := pc)])
  }

  /** The keys tracked for a primary; an absent entry reads as empty. */
  function Tracked(s: State, primary: Key): set<Key> {
    if primary in s.tracked && s.tracked[primary] < |s.sets| then s.sets[s.tracked[primary]] else {}
  }

  /** `liveVariantSet`: register an empty set when the entry is absent. */
  function Live(s: State, primary: Key): State {
    if primary in s.tracked then s
    else s.(sets := s.sets + [{}], peerAdds := s.peerAdds + [0], tracked := s.tracked[primary := |s.sets|])
  }

  /** Replace the single-node set of a primary whose incarnation is gone. */
  function Wipe(s: State, primary: Key): State {
    s.(sets := s.sets + [{}], peerAdds := s.peerAdds + [0], tracked := s.tracked[primary := |s.sets|])
  }

  function Write(s: State, primary: Key, keys: set<Key>): State {
    if primary in s.tracked && s.tracked[primary] < |s.sets|
    then s.(sets := s.sets[s.tracked[primary] := keys]) else s
  }

  function CountPeer(s: State, primary: Key): State {
    if primary in s.tracked && s.tracked[primary] < |s.peerAdds|
    then s.(peerAdds := s.peerAdds[s.tracked[primary] := s.peerAdds[s.tracked[primary]] + 1]) else s
  }

  /** Add the key to the set now in the table and succeed. */
  function Register(c: Config, s: State, tid: nat): State
    requires tid in s.threads
  {
    var th := s.threads[tid];
    var set0 := Tracked(s, th.primary);
    var s1 := Write(s, th.primary, set0 + {th.key});
    SetPc(if |set0| < c.maxVariants then s1 else CountPeer(s1, th.primary), tid, Reserved(true))
  }

  /** The tail of `reserveVariantSlotMode` before its own prune, lock held. */
  function Decide(c: Config, s: State, tid: nat): State
    requires tid in s.threads
  {
    var set0 := Tracked(s, s.threads[tid].primary);
    if |set0| < c.maxVariants then Register(c, s, tid)
    else SetPc(s, tid, Pruning(set0, {}, true))
  }

  function LockStep(c: Config, s: State, tid: nat): State
    requires tid in s.threads
  {
    var th := s.threads[tid];
    var s1 := Live(s, th.primary);
    var set0 := Tracked(s1, th.primary);
    if th.key in set0 then SetPc(s1, tid, Reserved(true))
    else if set0 != {} && !th.fromPeer then SetPc(s1, tid, ProbePrimary)
    else Decide(c, s1, tid)
  }

  /** `reconcileStaleIncarnation` after its lookup. */
  function RelockStep(c: Config, s: State, tid: nat): State
    requires tid in s.threads
  {
    var th := s.threads[tid];
    if th.pc.PrimaryPresent? then Decide(c, Live(s, th.primary), tid)
    else if !c.clustered then Decide(c, Wipe(s, th.primary), tid)
    else SetPc(s, tid, Pruning(Tracked(s, th.primary), {}, false))
  }

  /** Dropping the dead keys, before the decision. */
  function Pruned(s: State, th: Thread): State
    requires th.pc.Pruning?
  {
    var s1 := Live(s, th.primary);
    Write(s1, th.primary, Tracked(s1, th.primary) - th.pc.dead)
  }

  /** The end of `pruneDeadVariants` and what its caller does under the same lock. */
  function FinishPruneStep(c: Config, s: State, tid: nat): State
    requires tid in s.threads && s.threads[tid].pc.Pruning?
  {
    var th := s.threads[tid];
    var s2 := Pruned(s, th);
    if !th.pc.atCap then Decide(c, s2, tid)
    else if |Tracked(s2, th.primary)| < c.maxVariants || th.fromPeer then Register(c, s2, tid)
    else SetPc(s2, tid, Reserved(false))
  }

  function DetachStep(s: State, tid: nat): State
    requires tid in s.threads
  {
    var th := s.threads[tid];
    if th.primary in s.tracked
    then SetPc(s.(tracked := s.tracked - {th.primary}), tid, Detached(s.tracked[th.primary], Tracked(s, th.primary)))
    else SetPc(s, tid, DetachedNothing)
  }

  /** The keys in the detached Go map as the purge now reads it, without the lock. */
  function Cell(s: State, cell: nat): set<Key> {
    if cell < |s.sets| then s.sets[cell] else {}
  }

  function CheckStep(s: State, tid: nat): State
    requires tid in s.threads && (s.threads[tid].pc.Detached? || s.threads[tid].pc.DetachedNothing?)
  {
    var th := s.threads[tid];
    var found := if th.pc.Detached? then Cell(s, th.pc.cell) else {};
    if found == {} && th.primary !in s.store then SetPc(s, tid, Purged(false, true, found))
    else if th.pc.Detached? && found != {} then SetPc(s, tid, Deleting(th.pc.cell, th.pc.had, found))
    else SetPc(s, tid, DeletingPrimary(found))
  }

  /** Remove a key from the store and note it in the purge. */
  function Deleted(s: State, tid: nat, k: Key, ok: bool): State
    requires tid in s.threads
  {
    var th := s.threads[tid];
    if ok then s.(store := s.store - {k},
                  threads := s.threads[tid := th.(deleted := th.deleted + {k}, reput := th.reput - {k})])
    else s.(threads := s.threads[tid := th.(failed := true)])
  }

  function AfterDelete(pc: Pc, k: Key): Pc
    requires pc.Deleting?
  {
    var left := pc.left - {k};
    if left == {} then DeletingPrimary(pc.had) else Deleting(pc.cell, pc.had, left)
  }

  function DeleteVariantStep(s: State, tid: nat, k: Key, ok: bool): State
    requires tid in s.threads && s.threads[tid].pc.Deleting?
  {
    var pc := s.threads[tid].pc;
    SetPc(Deleted(s, tid, k, ok), tid, AfterDelete(pc, k))
  }

  /** A key enters the store; purges note that it came back. */
  function Put(s: State, k: Key): State {
    s.(store := s.store + {k}, threads := map t | t in s.threads :: s.threads[t].(reput := s.threads[t].reput + {k}))
  }

  function Begun(s: State, tid: nat, th: Thread): State {
    s.(threads := s.threads[tid := th])
  }

  function Apply(c: Config, s: State, e: Event): State
    requires Enabled(s, e)
  {
    match e
    case Fill(tid, p, k) => Begun(s, tid, Thread(p, k, false, Begin, {}, {}, false))
    case PeerPut(tid, p, k) => Begun(Put(s, k), tid, Thread(p, k, true, Begin, {}, {}, false))
    case Purge(tid, p) => Begun(s, tid, Thread(p, p, false, Detaching, {}, {}, false))
    case Lock(tid) => LockStep(c, s, tid)
    case Look(tid) => SetPc(s, tid, if s.threads[tid].primary in s.store then PrimaryPresent else PrimaryAbsent)
    case Relock(tid) => RelockStep(c, s, tid)
    case Probe(tid, k) =>
      var pc := s.threads[tid].pc;
      SetPc(s, tid, Pruning(pc.todo - {k}, if k in s.store then pc.dead else pc.dead + {k}, pc.atCap))
    case FinishPrune(tid) => FinishPruneStep(c, s, tid)
    case Detach(tid) => DetachStep(s, tid)
    case CheckOwned(tid) => CheckStep(s, tid)
    case DeleteVariant(tid, k, ok) => DeleteVariantStep(s, tid, k, ok)
    case DeletePrimary(tid, ok) =>
      SetPc(Deleted(s, tid, s.threads[tid].primary, ok), tid, Purged(true, ok, s.threads[tid].pc.had))
    case PutReserved(tid) => SetPc(Put(s, s.threads[tid].key), tid, Stored)
    case StorePut(k) => Put(s, k)
    case StoreDrop(k) => s.(store := s.store - {k})
  }

  ghost predicate Reaches(c: Config, s: State, events: seq<Event>, t: State)
    decreases |events|
  {
    if events == [] then s == t
    else Enabled(s, events[0]) && Reaches(c, Apply(c, s, events[0]), events[1..], t)
  }

  ghost predicate Reachable(c: Config, s: State) {
    exists events :: Reaches(c, Start, events, s)
  }

  // ---- What every reachable state keeps ----

  /** The table refers to cells, no two primaries to the same one, and no set is larger
      than the cap plus what peer puts added past it. */
  ghost predicate TableOk(c: Config, s: State) {
    && |s.peerAdds| == |s.sets|
    && (forall p | p in s.tracked :: s.tracked[p] < |s.sets|)
    && (forall p, q | p in s.tracked && q in s.tracked && s.tracked[p] == s.tracked[q] :: p == q)
    && (forall r | 0 <= r < |s.sets| :: |s.sets[r]| <= c.maxVariants + s.peerAdds[r])
  }

  /** A cell no primary refers to any more. */
  ghost predicate OffTable(s: State, cell: nat) {
    cell < |s.sets| && forall p | p in s.tracked :: s.tracked[p] != cell
  }

  ghost predicate ThreadOk(s: State, th: Thread) {
    && (th.deleted - th.reput) !! s.store
    && (match th.pc
        case Detaching => th.deleted == {} && !th.failed
        case DetachedNothing => th.deleted == {} && !th.failed
        case Detached(cell, had) => th.deleted == {} && !th.failed && OffTable(s, cell) && s.sets[cell] == had
        case Deleting(cell, had, left) =>
          && OffTable(s, cell) && s.sets[cell] == had && left != {} && left <= had
          && (th.failed || th.deleted == had - left)
        case DeletingPrimary(had) => th.failed || th.deleted == had
        case Purged(owned, ok, had) => owned && ok && !th.failed ==> th.deleted == had + {th.primary}
        case Pruning(_, _, atCap) => th.fromPeer ==> atCap
        case Reserved(ok) => th.fromPeer ==> ok
        case ProbePrimary => !th.fromPeer
        case PrimaryPresent => !th.fromPeer
        case PrimaryAbsent => !th.fromPeer
        case Stored => true
        case Begin => true)
  }

  ghost predicate ThreadsOk(s: State) {
    forall tid | tid in s.threads :: ThreadOk(s, s.threads[tid])
  }

  ghost predicate LocalOnly(s: State) {
    forall tid | tid in s.threads :: !s.threads[tid].fromPeer
  }

  ghost predicate Inv(c: Config, s: State) {
    && TableOk(c, s)
    && ThreadsOk(s)
    && (LocalOnly(s) ==> forall r | 0 <= r < |s.peerAdds| :: s.peerAdds[r] == 0)
  }

  /** What a locked stretch on `primary` may touch: its own entry and the cell that entry
      named, or fresh cells. */
  ghost predicate Touches(s: State, t: State, primary: Key) {
    && |s.sets| <= |t.sets| && |s.peerAdds| <= |t.peerAdds|
    && (forall r | 0 <= r < |s.sets| :: t.sets[r] == s.sets[r] || (primary in s.tracked && s.tracked[primary] == r))
    && (forall q | q != primary :: q in t.tracked <==> q in s.tracked)
    && (forall q | q != primary && q in s.tracked :: t.tracked[q] == s.tracked[q])
    && (primary in s.tracked ==> primary in t.tracked)
    && (primary in t.tracked ==>
          (primary in s.tracked && t.tracked[primary] == s.tracked[primary]) || t.tracked[primary] >= |s.sets|)
    && t.store == s.store
  }

  lemma TouchesKeepsOff(s: State, t: State, primary: Key, cell: nat)
    requires Touches(s, t, primary) && OffTable(s, cell)
    ensures OffTable(t, cell) && t.sets[cell] == s.sets[cell]
  {}

  lemma TouchesKeepsThread(s: State, t: State, primary: Key, th: Thread)
    requires Touches(s, t, primary) && ThreadOk(s, th)
    ensures ThreadOk(t, th)
  {
    match th.pc
    case Detached(cell, had) => TouchesKeepsOff(s, t, primary, cell);
    case Deleting(cell, had, todo) => TouchesKeepsOff(s, t, primary, cell);
    case _ =>
  }

  /** The table was prepared for a decision on `primary`, nobody moved, nothing was counted. */
  ghost predicate Prepared(c: Config, s: State, t: State, primary: Key) {
    && TableOk(c, t) && Touches(s, t, primary) && t.threads == s.threads
    && (forall r | 0 <= r < |t.peerAdds| :: t.peerAdds[r] == if r < |s.peerAdds| then s.peerAdds[r] else 0)
  }

  lemma LiveOk(c: Config, s: State, primary: Key)
    requires TableOk(c, s)
    ensures Prepared(c, s, Live(s, primary), primary)
    ensures primary in Live(s, primary).tracked && Tracked(Live(s, primary), primary) == Tracked(s, primary)
  {}

  lemma WipeOk(c: Config, s: State, primary: Key)
    requires TableOk(c, s)
    ensures Prepared(c, s, Wipe(s, primary), primary)
    ensures primary in Wipe(s, primary).tracked && Tracked(Wipe(s, primary), primary) == {}
  {}

  lemma WriteOk(c: Config, s: State, primary: Key, keys: set<Key>)
    requires TableOk(c, s) && primary in s.tracked
    requires |keys| <= c.maxVariants || |keys| <= |Tracked(s, primary)|
    ensures var t := Write(s, primary, keys);
            && TableOk(c, t) && Touches(s, t, primary) && Tracked(t, primary) == keys
            && t.threads == s.threads && t.peerAdds == s.peerAdds
  {}

  lemma RegisterOk(c: Config, s: State, tid: nat)
    requires TableOk(c, s) && tid in s.threads && s.threads[tid].primary in s.tracked
    requires |Tracked(s, s.threads[tid].primary)| < c.maxVariants || s.threads[tid].fromPeer
    ensures var t := Register(c, s, tid);
            var th := s.threads[tid];
            && TableOk(c, t) && Touches(s, t, th.primary)
            && Tracked(t, th.primary) == Tracked(s, th.primary) + {th.key}
            && t.threads == s.threads[tid := th.(pc := Reserved(true))]
            && (!th.fromPeer ==> t.peerAdds == s.peerAdds)
  {
    var th := s.threads[tid];
    var set0 := Tracked(s, th.primary);
    assert |set0 + {th.key}| <= |set0| + 1;
    if |set0| < c.maxVariants { WriteOk(c, s, th.primary, set0 + {th.key}); }
  }

  /** What each locked stretch of a reservation leaves behind. */
  ghost predicate Step(c: Config, s: State, t: State, tid: nat)
    requires tid in s.threads
  {
    var th := s.threads[tid];
    && TableOk(c, t) && Touches(s, t, th.primary)
    && tid in t.threads && t.threads == s.threads[tid := th.(pc := t.threads[tid].pc)]
    && (!th.fromPeer ==> forall r | 0 <= r < |t.peerAdds| ::
           t.peerAdds[r] == if r < |s.peerAdds| then s.peerAdds[r] else 0)
    && var pc := t.threads[tid].pc;
       && (pc.Reserved? || pc.Pruning? || (pc.ProbePrimary? && !th.fromPeer))
       && (pc == Reserved(true) ==> th.key in Tracked(t, th.primary))
       && (pc == Reserved(false) ==> !th.fromPeer && |Tracked(t, th.primary)| >= c.maxVariants)
       && (pc.Pruning? && th.fromPeer ==> pc.atCap)
  }

  lemma TouchesTransitive(s: State, t: State, u: State, primary: Key)
    requires Touches(s, t, primary) && Touches(t, u, primary)
    ensures Touches(s, u, primary)
  {}

  lemma MoveOk(c: Config, s: State, t: State, tid: nat, pc: Pc)
    requires tid in s.threads && Prepared(c, s, t, s.threads[tid].primary)
    requires var th := s.threads[tid];
             && (pc.Reserved? || pc.Pruning? || (pc.ProbePrimary? && !th.fromPeer))
             && (pc == Reserved(true) ==> th.key in Tracked(t, th.primary))
             && (pc == Reserved(false) ==> !th.fromPeer && |Tracked(t, th.primary)| >= c.maxVariants)
             && (pc.Pruning? && th.fromPeer ==> pc.atCap)
    ensures Step(c, s, SetPc(t, tid, pc), tid)
  {}

  lemma AddOk(c: Config, s: State, t: State, tid: nat)
    requires tid in s.threads && Prepared(c, s, t, s.threads[tid].primary) && s.threads[tid].primary in t.tracked
    requires |Tracked(t, s.threads[tid].primary)| < c.maxVariants || s.threads[tid].fromPeer
    ensures Step(c, s, Register(c, t, tid), tid)
  {
    RegisterOk(c, t, tid);
    TouchesTransitive(s, t, Register(c, t, tid), s.threads[tid].primary);
  }

  lemma DecideOk(c: Config, s: State, t: State, tid: nat)
    requires tid in s.threads && Prepared(c, s, t, s.threads[tid].primary) && s.threads[tid].primary in t.tracked
    ensures Step(c, s, Decide(c, t, tid), tid)
  {
    var set0 := Tracked(t, s.threads[tid].primary);
    if |set0| < c.maxVariants { AddOk(c, s, t, tid); } else { MoveOk(c, s, t, tid, Pruning(set0, {}, true)); }
  }

  lemma LockOk(c: Config, s: State, tid: nat)
    requires TableOk(c, s) && tid in s.threads
    ensures Step(c, s, LockStep(c, s, tid), tid)
  {
    var th := s.threads[tid];
    var s1 := Live(s, th.primary);
    LiveOk(c, s, th.primary);
    var set0 := Tracked(s1, th.primary);
    if th.key in set0 { MoveOk(c, s, s1, tid, Reserved(true)); }
    else if set0 != {} && !th.fromPeer { MoveOk(c, s, s1, tid, ProbePrimary); }
    else { DecideOk(c, s, s1, tid); }
  }

  lemma RelockOk(c: Config, s: State, tid: nat)
    requires TableOk(c, s) && tid in s.threads && !s.threads[tid].fromPeer
    ensures Step(c, s, RelockStep(c, s, tid), tid)
  {
    var th := s.threads[tid];
    if th.pc.PrimaryPresent? {
      LiveOk(c, s, th.primary);
      DecideOk(c, s, Live(s, th.primary), tid);
    } else if !c.clustered {
      WipeOk(c, s, th.primary);
      DecideOk(c, s, Wipe(s, th.primary), tid);
    } else {
      MoveOk(c, s, s, tid, Pruning(Tracked(s, th.primary), {}, false));
    }
  }

  lemma PrunedOk(c: Config, s: State, th: Thread)
    requires TableOk(c, s) && th.pc.Pruning?
    ensures Prepared(c, s, Pruned(s, th), th.primary) && th.primary in Pruned(s, th).tracked
    ensures Tracked(Pruned(s, th), th.primary) == Tracked(s, th.primary) - th.pc.dead
  {
    var s1 := Live(s, th.primary);
    LiveOk(c, s, th.primary);
    var keys := Tracked(s1, th.primary) - th.pc.dead;
    assert |keys| <= |Tracked(s1, th.primary)|;
    WriteOk(c, s1, th.primary, keys);
    TouchesTransitive(s, s1, Pruned(s, th), th.primary);
  }

  lemma FinishPruneOk(c: Config, s: State, tid: nat)
    requires TableOk(c, s) && tid in s.threads && s.threads[tid].pc.Pruning?
    requires s.threads[tid].fromPeer ==> s.threads[tid].pc.atCap
    ensures Step(c, s, FinishPruneStep(c, s, tid), tid)
  {
    var th := s.threads[tid];
    var s2 := Pruned(s, th);
    PrunedOk(c, s, th);
    if !th.pc.atCap { DecideOk(c, s, s2, tid); }
    else if |Tracked(s2, th.primary)| < c.maxVariants || th.fromPeer { AddOk(c, s, s2, tid); }
    else { MoveOk(c, s, s2, tid, Reserved(false)); }
  }

  // ---- Each event keeps the invariant ----

  predicate Reserving(pc: Pc) {
    pc.Begin? || pc.ProbePrimary? || pc.PrimaryPresent? || pc.PrimaryAbsent? || pc.Pruning?
  }

  lemma KeepStep(c: Config, s: State, t: State, tid: nat)
    requires Inv(c, s) && tid in s.threads && Reserving(s.threads[tid].pc) && Step(c, s, t, tid)
    ensures Inv(c, t)
  {
    var th := s.threads[tid];
    forall i | i in t.threads ensures ThreadOk(t, t.threads[i]) {
      assert ThreadOk(s, s.threads[i]);
      if i != tid { TouchesKeepsThread(s, t, th.primary, s.threads[i]); }
    }
    assert LocalOnly(t) ==> LocalOnly(s) by {
      if LocalOnly(t) {
        forall i | i in s.threads ensures !s.threads[i].fromPeer { assert !t.threads[i].fromPeer; }
      }
    }
  }

  /** One thread moves; the table and the store stay. */
  lemma KeepMove(c: Config, s: State, tid: nat, th: Thread)
    requires Inv(c, s) && ThreadOk(s, th)
    requires tid in s.threads ==> s.threads[tid].fromPeer == th.fromPeer
    ensures Inv(c, s.(threads := s.threads[tid := th]))
  {
    var t := s.(threads := s.threads[tid := th]);
    forall i | i in t.threads ensures ThreadOk(t, t.threads[i]) {
      if i != tid { assert ThreadOk(s, s.threads[i]); }
    }
    assert LocalOnly(t) ==> LocalOnly(s) by {
      if LocalOnly(t) {
        forall i | i in s.threads ensures !s.threads[i].fromPeer { assert !t.threads[i].fromPeer; }
      }
    }
  }

  /** The store only loses keys; the table stays. */
  lemma KeepDrop(c: Config, s: State, store: set<Key>)
    requires Inv(c, s) && store <= s.store
    ensures Inv(c, s.(store := store))
  {
    var t := s.(store := store);
    forall i | i in t.threads ensures ThreadOk(t, t.threads[i]) { assert ThreadOk(s, s.threads[i]); }
  }

  lemma KeepPut(c: Config, s: State, k: Key)
    requires Inv(c, s)
    ensures Inv(c, Put(s, k))
  {
    var t := Put(s, k);
    forall i | i in t.threads ensures ThreadOk(t, t.threads[i]) { assert ThreadOk(s, s.threads[i]); }
    assert LocalOnly(t) ==> LocalOnly(s) by {
      if LocalOnly(t) {
        forall i | i in s.threads ensures !s.threads[i].fromPeer { assert !t.threads[i].fromPeer; }
      }
    }
  }

  lemma KeepPutReserved(c: Config, s: State, tid: nat)
    requires Inv(c, s) && Enabled(s, PutReserved(tid))
    ensures Inv(c, Apply(c, s, PutReserved(tid)))
  {
    var t := Put(s, s.threads[tid].key);
    KeepPut(c, s, s.threads[tid].key);
    assert ThreadOk(t, t.threads[tid]);
    KeepMove(c, t, tid, t.threads[tid].(pc := Stored));
  }

  /** Taking an entry off the table orphans its cell: no other primary refers to it. */
  lemma KeepDetach(c: Config, s: State, tid: nat)
    requires Inv(c, s) && Enabled(s, Detach(tid))
    ensures Inv(c, DetachStep(s, tid))
  {
    var th := s.threads[tid];
    assert ThreadOk(s, th);
    if th.primary in s.tracked {
      var s1 := s.(tracked := s.tracked - {th.primary});
      forall i | i in s1.threads ensures ThreadOk(s1, s1.threads[i]) { assert ThreadOk(s, s.threads[i]); }
      var th1 := th.(pc := Detached(s.tracked[th.primary], Tracked(s, th.primary)));
      assert OffTable(s1, s.tracked[th.primary]);
      KeepMove(c, s1, tid, th1);
    } else {
      KeepMove(c, s, tid, th.(pc := DetachedNothing));
    }
  }

  lemma KeepCheck(c: Config, s: State, tid: nat)
    requires Inv(c, s) && Enabled(s, CheckOwned(tid))
    ensures Inv(c, CheckStep(s, tid))
  {
    assert ThreadOk(s, s.threads[tid]);
    KeepMove(c, s, tid, CheckStep(s, tid).threads[tid]);
  }

  lemma KeepDelete(c: Config, s: State, tid: nat, k: Key, ok: bool, pc: Pc)
    requires Inv(c, s) && tid in s.threads
    requires var s1 := if ok then s.(store := s.store - {k}) else s;
             ThreadOk(s1, Deleted(s, tid, k, ok).threads[tid].(pc := pc))
    ensures Inv(c, SetPc(Deleted(s, tid, k, ok), tid, pc))
  {
    var s1 := if ok then s.(store := s.store - {k}) else s;
    KeepDrop(c, s, s1.store);
    KeepMove(c, s1, tid, Deleted(s, tid, k, ok).threads[tid].(pc := pc));
    assert SetPc(Deleted(s, tid, k, ok), tid, pc)
        == s1.(threads := s.threads[tid := Deleted(s, tid, k, ok).threads[tid].(pc := pc)]);
  }

  lemma KeepDeleteVariant(c: Config, s: State, tid: nat, k: Key, ok: bool)
    requires Inv(c, s) && Enabled(s, DeleteVariant(tid, k, ok))
    ensures Inv(c, DeleteVariantStep(s, tid, k, ok))
  {
    assert ThreadOk(s, s.threads[tid]);
    KeepDelete(c, s, tid, k, ok, AfterDelete(s.threads[tid].pc, k));
  }

  lemma KeepDeletePrimary(c: Config, s: State, tid: nat, ok: bool)
    requires Inv(c, s) && Enabled(s, DeletePrimary(tid, ok))
    ensures Inv(c, Apply(c, s, DeletePrimary(tid, ok)))
  {
    assert ThreadOk(s, s.threads[tid]);
    KeepDelete(c, s, tid, s.threads[tid].primary, ok, Purged(true, ok, s.threads[tid].pc.had));
  }

  predicate Locked(e: Event) {
    e.Lock? || e.Relock? || e.FinishPrune?
  }

  lemma LockedStep(c: Config, s: State, e: Event)
    requires Inv(c, s) && Enabled(s, e) && Locked(e)
    ensures Step(c, s, Apply(c, s, e), e.tid)
  {
    assert ThreadOk(s, s.threads[e.tid]);
    match e
    case Lock(tid) => LockOk(c, s, tid);
    case Relock(tid) => RelockOk(c, s, tid);
    case FinishPrune(tid) => FinishPruneOk(c, s, tid);
  }

  lemma KeepsInv(c: Config, s: State, e: Event)
    requires Inv(c, s) && Enabled(s, e)
    ensures Inv(c, Apply(c, s, e))
  {
    match e
    case Fill(tid, p, k) => KeepMove(c, s, tid, Thread(p, k, false, Begin, {}, {}, false));
    case PeerPut(tid, p, k) =>
      KeepPut(c, s, k);
      KeepMove(c, Put(s, k), tid, Thread(p, k, true, Begin, {}, {}, false));
    case Purge(tid, p) => KeepMove(c, s, tid, Thread(p, p, false, Detaching, {}, {}, false));
    case Lock(tid) => LockedStep(c, s, e); KeepStep(c, s, Apply(c, s, e), tid);
    case Look(tid) =>
      assert ThreadOk(s, s.threads[tid]);
      KeepMove(c, s, tid, Apply(c, s, e).threads[tid]);
    case Relock(tid) => LockedStep(c, s, e); KeepStep(c, s, Apply(c, s, e), tid);
    case Probe(tid, k) =>
      assert ThreadOk(s, s.threads[tid]);
      KeepMove(c, s, tid, Apply(c, s, e).threads[tid]);
    case FinishPrune(tid) => LockedStep(c, s, e); KeepStep(c, s, Apply(c, s, e), tid);
    case Detach(tid) => KeepDetach(c, s, tid);
    case CheckOwned(tid) => KeepCheck(c, s, tid);
    case DeleteVariant(tid, k, ok) => KeepDeleteVariant(c, s, tid, k, ok);
    case DeletePrimary(tid, ok) => KeepDeletePrimary(c, s, tid, ok);
    case PutReserved(tid) => KeepPutReserved(c, s, tid);
    case StorePut(k) => KeepPut(c, s, k);
    case StoreDrop(k) => KeepDrop(c, s, s.store - {k});
  }

  lemma {:induction false} RunKeepsInv(c: Config, s: State, events: seq<Event>, t: State)
    requires Inv(c, s) && Reaches(c, s, events, t)
    ensures Inv(c, t)
    decreases |events|
  {
    if events != [] {
      KeepsInv(c, s, events[0]);
      RunKeepsInv(c, Apply(c, s, events[0]), events[1..], t);
    }
  }

  lemma ReachableOk(c: Config, s: State)
    requires Reachable(c, s)
    ensures Inv(c, s)
  {
    var events :| Reaches(c, Start, events, s);
    RunKeepsInv(c, Start, events, s);
  }

  // ---- Main results ----

  /** In every interleaving, the moment a reservation succeeds its key is in the set the
      table holds for its primary, and the moment one is refused that set is at or above
      the cap and the reservation was a local fill. */
  lemma ReservationLandsOnTheTable(c: Config, s: State, e: Event, tid: nat)
    requires Reachable(c, s) && Enabled(s, e) && tid in s.threads && Reserving(s.threads[tid].pc)
    ensures var t := Apply(c, s, e);
            var th := s.threads[tid];
            && tid in t.threads
            && (t.threads[tid].pc == Reserved(true) ==> th.primary in t.tracked && th.key in Tracked(t, th.primary))
            && (t.threads[tid].pc == Reserved(false) ==> !th.fromPeer && |Tracked(t, th.primary)| >= c.maxVariants)
  {
    ReachableOk(c, s);
    if Locked(e) && e.tid == tid {
      LockedStep(c, s, e);
    } else if e.StorePut? || e.StoreDrop? || e.tid != tid {
      ThreadStep(c, s, e, tid);
    }
  }

  /** No set outgrows the cap but by what peer puts registered past it; local fills alone
      never pass it. */
  lemma CapHolds(c: Config, s: State, p: Key)
    requires Reachable(c, s) && p in s.tracked
    ensures s.tracked[p] < |s.peerAdds| && |Tracked(s, p)| <= c.maxVariants + s.peerAdds[s.tracked[p]]
    ensures LocalOnly(s) ==> |Tracked(s, p)| <= c.maxVariants
  {
    ReachableOk(c, s);
  }

  /** How much of its own work a reservation still has. */
  ghost function Rank(pc: Pc): (nat, nat) {
    match pc
    case Begin => (5, 0)
    case ProbePrimary => (4, 0)
    case PrimaryPresent => (3, 0)
    case PrimaryAbsent => (3, 0)
    case Pruning(todo, _, atCap) => (if atCap then 1 else 2, |todo|)
    case _ => (0, 0)
  }

  predicate Below(a: (nat, nat), b: (nat, nat)) {
    a.0 < b.0 || (a.0 == b.0 && a.1 < b.1)
  }

  /** The next event of a reservation under way. */
  function Next(s: State, tid: nat, k: Key): Event
    requires tid in s.threads
  {
    match s.threads[tid].pc
    case ProbePrimary => Look(tid)
    case PrimaryPresent => Relock(tid)
    case PrimaryAbsent => Relock(tid)
    case Pruning(todo, _, _) => if todo == {} then FinishPrune(tid) else Probe(tid, k)
    case _ => Lock(tid)
  }

  /** A reservation is never blocked, each of its steps brings it closer to its answer,
      and a peer put's is never refused. */
  lemma ReservationProgress(c: Config, s: State, tid: nat, k: Key)
    requires Reachable(c, s) && tid in s.threads && Reserving(s.threads[tid].pc)
    requires s.threads[tid].pc.Pruning? && s.threads[tid].pc.todo != {} ==> k in s.threads[tid].pc.todo
    ensures Enabled(s, Next(s, tid, k))
    ensures Closer(s, Apply(c, s, Next(s, tid, k)), tid)
  {
    ReachableOk(c, s);
    var e := Next(s, tid, k);
    assert ThreadOk(s, s.threads[tid]);
    if Locked(e) {
      LockedProgress(c, s, e);
    } else if e.Probe? {
      assert |s.threads[tid].pc.todo - {k}| < |s.threads[tid].pc.todo|;
    }
  }

  /** The reservation is closer to its answer, and a peer put's answer is never no. */
  ghost predicate Closer(s: State, t: State, tid: nat)
    requires tid in s.threads
  {
    && tid in t.threads && Below(Rank(t.threads[tid].pc), Rank(s.threads[tid].pc))
    && (Reserving(t.threads[tid].pc) || t.threads[tid].pc.Reserved?)
    && (s.threads[tid].fromPeer ==> t.threads[tid].pc != Reserved(false))
    && t.threads[tid].fromPeer == s.threads[tid].fromPeer
  }

  lemma LockedProgress(c: Config, s: State, e: Event)
    requires Enabled(s, e) && Locked(e)
    ensures Closer(s, Apply(c, s, e), e.tid)
  {
    var t := Apply(c, s, e);
    if e.Lock? {
      assert t == LockStep(c, s, e.tid);
      LockRank(c, s, e.tid);
      RankBelow(s, t, e.tid);
    } else if e.Relock? {
      assert t == RelockStep(c, s, e.tid);
      RelockRank(c, s, e.tid);
      RankBelow(s, t, e.tid);
    } else {
      assert t == FinishPruneStep(c, s, e.tid);
      PruneRank(c, s, e.tid);
      RankBelow(s, t, e.tid);
    }
  }

  /** The program counters a locked stretch may lead to. */
  predicate Onward(th: Thread, pc: Pc) {
    match th.pc
    case Begin => pc == Reserved(true) || pc.ProbePrimary? || pc.Pruning?
    case PrimaryPresent => pc == Reserved(true) || pc.Pruning?
    case PrimaryAbsent => pc == Reserved(true) || pc.Pruning?
    case Pruning(_, _, atCap) =>
      (pc.Reserved? && (th.fromPeer ==> pc == Reserved(true))) || (pc.Pruning? && pc.atCap && !atCap)
    case _ => false
  }

  lemma RankBelow(s: State, t: State, tid: nat)
    requires tid in s.threads && Moves(s, t, tid) && Onward(s.threads[tid], t.threads[tid].pc)
    ensures Closer(s, t, tid)
  {}

  /** The thread is still there, and still a peer's or not. */
  predicate Moves(s: State, t: State, tid: nat)
    requires tid in s.threads
  {
    tid in t.threads && t.threads[tid].fromPeer == s.threads[tid].fromPeer
  }

  lemma LockRank(c: Config, s: State, tid: nat)
    requires tid in s.threads && s.threads[tid].pc.Begin?
    ensures var t := LockStep(c, s, tid); Moves(s, t, tid) && Onward(s.threads[tid], t.threads[tid].pc)
  {
    DecideRank(c, Live(s, s.threads[tid].primary), tid);
  }

  lemma RelockRank(c: Config, s: State, tid: nat)
    requires tid in s.threads && (s.threads[tid].pc.PrimaryPresent? || s.threads[tid].pc.PrimaryAbsent?)
    ensures var t := RelockStep(c, s, tid); Moves(s, t, tid) && Onward(s.threads[tid], t.threads[tid].pc)
  {
    DecideRank(c, Live(s, s.threads[tid].primary), tid);
    DecideRank(c, Wipe(s, s.threads[tid].primary), tid);
  }

  lemma PruneRank(c: Config, s: State, tid: nat)
    requires tid in s.threads && s.threads[tid].pc.Pruning?
    ensures var t := FinishPruneStep(c, s, tid); Moves(s, t, tid) && Onward(s.threads[tid], t.threads[tid].pc)
  {
    var s2 := Pruned(s, s.threads[tid]);
    assert s2.threads == s.threads;
    DecideRank(c, s2, tid);
    RegisterRank(c, s2, tid);
  }

  lemma RegisterRank(c: Config, s: State, tid: nat)
    requires tid in s.threads
    ensures var t := Register(c, s, tid); Moves(s, t, tid) && t.threads[tid].pc == Reserved(true)
  {}

  lemma DecideRank(c: Config, s: State, tid: nat)
    requires tid in s.threads
    ensures var t := Decide(c, s, tid);
            Moves(s, t, tid) && var pc := t.threads[tid].pc; pc == Reserved(true) || (pc.Pruning? && pc.atCap)
  {}

  /** A thread keeps its keys and its kind, and stays where it is in other threads' events. */
  predicate Follows(e: Event, tid: nat, th: Thread, th': Thread) {
    && th'.primary == th.primary && th'.key == th.key && th'.fromPeer == th.fromPeer
    && (e.StorePut? || e.StoreDrop? || e.tid != tid ==> th'.pc == th.pc)
  }

  lemma ThreadStep(c: Config, s: State, e: Event, tid: nat)
    requires Inv(c, s) && Enabled(s, e) && tid in s.threads
    ensures tid in Apply(c, s, e).threads && Follows(e, tid, s.threads[tid], Apply(c, s, e).threads[tid])
  {
    if Locked(e) { LockedThreads(c, s, e, tid); } else { UnlockedThreads(c, s, e, tid); }
  }

  lemma LockedThreads(c: Config, s: State, e: Event, tid: nat)
    requires Inv(c, s) && Enabled(s, e) && Locked(e) && tid in s.threads
    ensures tid in Apply(c, s, e).threads && Follows(e, tid, s.threads[tid], Apply(c, s, e).threads[tid])
  {
    LockedStep(c, s, e);
  }

  lemma UnlockedThreads(c: Config, s: State, e: Event, tid: nat)
    requires Enabled(s, e) && !Locked(e) && tid in s.threads
    ensures tid in Apply(c, s, e).threads && Follows(e, tid, s.threads[tid], Apply(c, s, e).threads[tid])
  {}

  /** An unending run of the whole handler. */
  ghost predicate Runs(c: Config, run: nat -> State, ev: nat -> Event) {
    Reachable(c, run(0)) && forall n: nat :: Enabled(run(n), ev(n)) && run(n + 1) == Apply(c, run(n), ev(n))
  }

  predicate Waiting(s: State, tid: nat) {
    tid in s.threads && Reserving(s.threads[tid].pc)
  }

  /** A step of the reservation itself. */
  predicate Own(e: Event, tid: nat) {
    (e.Lock? || e.Look? || e.Relock? || e.Probe? || e.FinishPrune?) && e.tid == tid
  }

  /** The thread is scheduled again and again for as long as it waits. */
  ghost predicate Scheduled(run: nat -> State, ev: nat -> Event, tid: nat) {
    forall n: nat :: ComesUp(run, ev, tid, n)
  }

  ghost predicate ComesUp(run: nat -> State, ev: nat -> Event, tid: nat, n: nat) {
    exists m: nat :: n <= m && UpAt(run, ev, tid, m)
  }

  predicate UpAt(run: nat -> State, ev: nat -> Event, tid: nat, m: nat) {
    Own(ev(m), tid) || !Waiting(run(m), tid)
  }

  lemma {:induction false} RunReachable(c: Config, run: nat -> State, ev: nat -> Event, n: nat)
    requires Runs(c, run, ev)
    ensures Reachable(c, run(n))
  {
    if n > 0 {
      RunReachable(c, run, ev, n - 1);
      ReachableThen(c, run(n - 1), ev(n - 1));
    }
  }

  lemma OwnStep(c: Config, s: State, e: Event, tid: nat)
    requires Reachable(c, s) && Waiting(s, tid) && Enabled(s, e) && Own(e, tid)
    ensures Closer(s, Apply(c, s, e), tid)
  {
    var k := if e.Probe? then e.k else 0;
    assert e == Next(s, tid, k);
    ReservationProgress(c, s, tid, k);
  }

  /** One step of the run, seen from a waiting reservation. */
  lemma RunStep(c: Config, run: nat -> State, ev: nat -> Event, tid: nat, n: nat)
    requires Runs(c, run, ev) && Waiting(run(n), tid)
    ensures tid in run(n + 1).threads && run(n + 1).threads[tid].fromPeer == run(n).threads[tid].fromPeer
    ensures var was, pc := run(n).threads[tid].pc, run(n + 1).threads[tid].pc;
            if Own(ev(n), tid) then
              && Below(Rank(pc), Rank(was)) && (Reserving(pc) || pc.Reserved?)
              && (run(n).threads[tid].fromPeer ==> pc != Reserved(false))
            else pc == was
  {
    RunReachable(c, run, ev, n);
    assert Enabled(run(n), ev(n)) && run(n + 1) == Apply(c, run(n), ev(n));
    if Own(ev(n), tid) {
      OwnStep(c, run(n), ev(n), tid);
    } else {
      ReachableOk(c, run(n));
      ThreadStep(c, run(n), ev(n), tid);
    }
  }

  /** In every run, whatever the others do, a reservation that keeps being scheduled gets its
      answer; a peer put's is always that it is registered. */
  lemma {:induction false} EveryReservationEnds(
    c: Config, run: nat -> State, ev: nat -> Event, tid: nat, n: nat, next: nat) returns (end: nat)
    requires Runs(c, run, ev) && Scheduled(run, ev, tid) && Waiting(run(n), tid)
    requires n <= next && UpAt(run, ev, tid, next)
    ensures n < end && tid in run(end).threads && run(end).threads[tid].pc.Reserved?
    ensures run(n).threads[tid].fromPeer ==> run(end).threads[tid].pc == Reserved(true)
    decreases Rank(run(n).threads[tid].pc).0, Rank(run(n).threads[tid].pc).1, next - n
  {
    RunStep(c, run, ev, tid, n);
    if !Own(ev(n), tid) {
      end := EveryReservationEnds(c, run, ev, tid, n + 1, next);
    } else if Reserving(run(n + 1).threads[tid].pc) {
      assert ComesUp(run, ev, tid, n + 1);
      var m: nat :| n + 1 <= m && UpAt(run, ev, tid, m);
      end := EveryReservationEnds(c, run, ev, tid, n + 1, m);
    } else {
      end := n + 1;
    }
  }

  /** So every peer put that keeps being scheduled ends up registered. */
  lemma EveryPeerPutRegisters(c: Config, run: nat -> State, ev: nat -> Event, tid: nat, n: nat) returns (end: nat)
    requires Runs(c, run, ev) && Scheduled(run, ev, tid) && Waiting(run(n), tid) && run(n).threads[tid].fromPeer
    ensures n < end && tid in run(end).threads && run(end).threads[tid].pc == Reserved(true)
  {
    assert ComesUp(run, ev, tid, n);
    var m: nat :| n <= m && UpAt(run, ev, tid, m);
    end := EveryReservationEnds(c, run, ev, tid, n, m);
  }

  /** Once a purge has detached a set, no event of any thread ever changes it again: the
      purge iterates it without the lock. */
  lemma {:induction false} DetachedSetIsFrozen(c: Config, s: State, events: seq<Event>, t: State, cell: nat)
    requires Inv(c, s) && Reaches(c, s, events, t) && OffTable(s, cell)
    ensures OffTable(t, cell) && t.sets[cell] == s.sets[cell]
    decreases |events|
  {
    if events != [] {
      KeepsInv(c, s, events[0]);
      StepFrozen(c, s, events[0], cell);
      DetachedSetIsFrozen(c, Apply(c, s, events[0]), events[1..], t, cell);
    }
  }

  lemma StepFrozen(c: Config, s: State, e: Event, cell: nat)
    requires Inv(c, s) && Enabled(s, e) && OffTable(s, cell)
    ensures OffTable(Apply(c, s, e), cell) && Apply(c, s, e).sets[cell] == s.sets[cell]
  {
    if Locked(e) {
      LockedStep(c, s, e);
      TouchesKeepsOff(s, Apply(c, s, e), s.threads[e.tid].primary, cell);
    }
  }

  /** The purge carries `had` from the moment it detached its set. */
  predicate Carries(pc: Pc, had: set<Key>) {
    match pc
    case Detached(_, found) => found == had
    case DetachedNothing => had == {}
    case Deleting(_, found, _) => found == had
    case DeletingPrimary(found) => found == had
    case Purged(_, _, found) => found == had
    case _ => false
  }

  lemma CarryStep(c: Config, s: State, e: Event, tid: nat, had: set<Key>)
    requires Inv(c, s) && Enabled(s, e) && tid in s.threads && Carries(s.threads[tid].pc, had)
    ensures tid in Apply(c, s, e).threads && Carries(Apply(c, s, e).threads[tid].pc, had)
    ensures Apply(c, s, e).threads[tid].primary == s.threads[tid].primary
  {
    ThreadStep(c, s, e, tid);
    if e.CheckOwned? && e.tid == tid { CheckCarries(s, tid, had); }
  }

  /** The set read without the lock is the one that was detached. */
  lemma CheckCarries(s: State, tid: nat, had: set<Key>)
    requires Enabled(s, CheckOwned(tid)) && ThreadsOk(s) && Carries(s.threads[tid].pc, had)
    ensures Carries(CheckStep(s, tid).threads[tid].pc, had)
  {
    assert ThreadOk(s, s.threads[tid]);
  }

  lemma {:induction false} CarryOver(c: Config, s: State, events: seq<Event>, t: State, tid: nat, had: set<Key>)
    requires Inv(c, s) && Reaches(c, s, events, t) && tid in s.threads && Carries(s.threads[tid].pc, had)
    ensures Inv(c, t) && tid in t.threads && Carries(t.threads[tid].pc, had)
    ensures t.threads[tid].primary == s.threads[tid].primary
    decreases |events|
  {
    if events != [] {
      KeepsInv(c, s, events[0]);
      CarryStep(c, s, events[0], tid, had);
      CarryOver(c, Apply(c, s, events[0]), events[1..], t, tid, had);
    }
  }

  /** However the run goes on after a purge took the lock: once it has owned the key and its
      store deletes all succeeded, it has deleted the primary and every key the table tracked
      for it at that moment; whichever of them is in the store now was stored again since. */
  lemma PurgeRemovesEverything(c: Config, s: State, tid: nat, events: seq<Event>, t: State)
    requires Reachable(c, s) && Enabled(s, Detach(tid)) && Reaches(c, Apply(c, s, Detach(tid)), events, t)
    ensures tid in t.threads
    ensures var th, p := t.threads[tid], s.threads[tid].primary;
            th.pc.Purged? && th.pc.owned && th.pc.ok && !th.failed ==>
              && th.deleted == Tracked(s, p) + {p}
              && forall k | k in th.deleted && k in t.store :: k in th.reput
  {
    ReachableOk(c, s);
    KeepsInv(c, s, Detach(tid));
    var p := s.threads[tid].primary;
    CarryOver(c, Apply(c, s, Detach(tid)), events, t, tid, Tracked(s, p));
    assert ThreadOk(t, t.threads[tid]);
  }

  // ---- Which variants stay tracked ----

  /** The event takes the whole set of `p`, or a set of keys with `k` among them, off the table:
      a purge detaches it, a fill that found the primary gone wipes it, or a prune drops what its
      probes did not find. */
  predicate Cuts(c: Config, s: State, e: Event, p: Key, k: Key)
    requires Enabled(s, e)
  {
    match e
    case Detach(tid) => s.threads[tid].primary == p
    case Relock(tid) => s.threads[tid].primary == p && s.threads[tid].pc.PrimaryAbsent? && !c.clustered
    case FinishPrune(tid) => s.threads[tid].primary == p && k in s.threads[tid].pc.dead
    case _ => false
  }

  /** The event answers a reservation of `k` under `p` with success. */
  predicate Adds(c: Config, s: State, e: Event, p: Key, k: Key)
    requires Enabled(s, e)
  {
    && Locked(e) && s.threads[e.tid].primary == p && s.threads[e.tid].key == k
    && Succeeds(Apply(c, s, e), e.tid)
  }

  predicate Succeeds(t: State, tid: nat) {
    tid in t.threads && t.threads[tid].pc == Reserved(true)
  }

  /** What a locked stretch keeps of its primary's set before it registers its own key. */
  function Spared(c: Config, s: State, e: Event): set<Key>
    requires Enabled(s, e) && Locked(e)
  {
    var th := s.threads[e.tid];
    if e.Relock? && th.pc.PrimaryAbsent? && !c.clustered then {}
    else if e.FinishPrune? then Tracked(s, th.primary) - th.pc.dead
    else Tracked(s, th.primary)
  }

  /** The key, if it was registered. */
  function Gained(ok: bool, k: Key): set<Key> {
    if ok then {k} else {}
  }

  lemma AddLeaves(c: Config, s: State, tid: nat)
    requires TableOk(c, s) && tid in s.threads && s.threads[tid].primary in s.tracked
    requires |Tracked(s, s.threads[tid].primary)| < c.maxVariants || s.threads[tid].fromPeer
    ensures var t := Register(c, s, tid);
            var th := s.threads[tid];
            Tracked(t, th.primary) == Tracked(s, th.primary) + Gained(Succeeds(t, tid), th.key)
  {
    RegisterOk(c, s, tid);
  }

  lemma DecideLeaves(c: Config, s: State, tid: nat)
    requires TableOk(c, s) && tid in s.threads && s.threads[tid].primary in s.tracked
    ensures var t := Decide(c, s, tid);
            var th := s.threads[tid];
            Tracked(t, th.primary) == Tracked(s, th.primary) + Gained(Succeeds(t, tid), th.key)
  {
    if |Tracked(s, s.threads[tid].primary)| < c.maxVariants { AddLeaves(c, s, tid); }
  }

  /** A locked stretch leaves what it spares, and its own key if it succeeds. */
  lemma LockedLeaves(c: Config, s: State, e: Event)
    requires Inv(c, s) && Enabled(s, e) && Locked(e)
    ensures var t, th := Apply(c, s, e), s.threads[e.tid];
            Tracked(t, th.primary) == Spared(c, s, e) + Gained(Succeeds(t, e.tid), th.key)
  {
    assert ThreadOk(s, s.threads[e.tid]);
    match e
    case Lock(tid) => LockLeaves(c, s, tid);
    case Relock(tid) => RelockLeaves(c, s, tid);
    case FinishPrune(tid) => FinishLeaves(c, s, tid);
  }

  lemma LockLeaves(c: Config, s: State, tid: nat)
    requires TableOk(c, s) && Enabled(s, Lock(tid))
    ensures var t, th := LockStep(c, s, tid), s.threads[tid];
            Tracked(t, th.primary) == Tracked(s, th.primary) + Gained(Succeeds(t, tid), th.key)
  {
    var th := s.threads[tid];
    var s1 := Live(s, th.primary);
    LiveOk(c, s, th.primary);
    if th.key in Tracked(s1, th.primary) {
      MoveLeaves(s1, tid, Reserved(true));
    } else if Tracked(s1, th.primary) != {} && !th.fromPeer {
      MoveLeaves(s1, tid, ProbePrimary);
    } else {
      DecideLeaves(c, s1, tid);
    }
  }

  lemma MoveLeaves(s: State, tid: nat, pc: Pc)
    requires tid in s.threads && (pc == Reserved(true) ==> s.threads[tid].key in Tracked(s, s.threads[tid].primary))
    ensures var t, th := SetPc(s, tid, pc), s.threads[tid];
            Tracked(t, th.primary) == Tracked(s, th.primary) + Gained(Succeeds(t, tid), th.key)
  {}

  lemma RelockLeaves(c: Config, s: State, tid: nat)
    requires TableOk(c, s) && Enabled(s, Relock(tid))
    ensures var t, th := RelockStep(c, s, tid), s.threads[tid];
            Tracked(t, th.primary) == Spared(c, s, Relock(tid)) + Gained(Succeeds(t, tid), th.key)
  {
    var th := s.threads[tid];
    if th.pc.PrimaryPresent? {
      LiveOk(c, s, th.primary);
      DecideLeaves(c, Live(s, th.primary), tid);
    } else if !c.clustered {
      WipeOk(c, s, th.primary);
      DecideLeaves(c, Wipe(s, th.primary), tid);
    } else {
      MoveLeaves(s, tid, Pruning(Tracked(s, th.primary), {}, false));
    }
  }

  lemma FinishLeaves(c: Config, s: State, tid: nat)
    requires TableOk(c, s) && Enabled(s, FinishPrune(tid))
    ensures var t, th := FinishPruneStep(c, s, tid), s.threads[tid];
            Tracked(t, th.primary) == Tracked(s, th.primary) - th.pc.dead + Gained(Succeeds(t, tid), th.key)
  {
    var th := s.threads[tid];
    var s2 := Pruned(s, th);
    PrunedOk(c, s, th);
    DecideLeaves(c, s2, tid);
    if |Tracked(s2, th.primary)| < c.maxVariants || th.fromPeer { AddLeaves(c, s2, tid); }
  }

  lemma OtherSetStays(c: Config, s: State, t: State, primary: Key, p: Key)
    requires TableOk(c, s) && Touches(s, t, primary) && p != primary
    ensures Tracked(t, p) == Tracked(s, p)
  {}

  /** One event: a key is tracked afterwards exactly when the event registers it, or it was
      tracked and the event does not cut it. */
  lemma TrackedStep(c: Config, s: State, e: Event, p: Key, k: Key)
    requires Inv(c, s) && Enabled(s, e)
    ensures k in Tracked(Apply(c, s, e), p)
            <==> Adds(c, s, e, p, k) || (k in Tracked(s, p) && !Cuts(c, s, e, p, k))
  {
    if Locked(e) {
      var th := s.threads[e.tid];
      if th.primary == p {
        LockedLeaves(c, s, e);
      } else {
        LockedStep(c, s, e);
        OtherSetStays(c, s, Apply(c, s, e), th.primary, p);
      }
    } else {
      UnlockedLeaves(c, s, e, p);
    }
  }

  /** Outside these stretches only a purge touches the table, and all it does is take its
      primary's set off. */
  lemma UnlockedLeaves(c: Config, s: State, e: Event, p: Key)
    requires Enabled(s, e) && !Locked(e)
    ensures Tracked(Apply(c, s, e), p) == if e.Detach? && s.threads[e.tid].primary == p then {} else Tracked(s, p)
  {}

  /** No event of the run registers the key. */
  ghost predicate NeverAdded(c: Config, s: State, events: seq<Event>, p: Key, k: Key)
    decreases |events|
  {
    events == [] || (Enabled(s, events[0]) && !Adds(c, s, events[0], p, k)
                     && NeverAdded(c, Apply(c, s, events[0]), events[1..], p, k))
  }

  /** Some event of the run cuts the key and none registers it from there on. */
  ghost predicate CutForGood(c: Config, s: State, events: seq<Event>, p: Key, k: Key)
    decreases |events|
  {
    && events != [] && Enabled(s, events[0])
    && (|| (Cuts(c, s, events[0], p, k) && NeverAdded(c, s, events, p, k))
        || CutForGood(c, Apply(c, s, events[0]), events[1..], p, k))
  }

  lemma {:induction false} StaysUntracked(c: Config, s: State, events: seq<Event>, t: State, p: Key, k: Key)
    requires Inv(c, s) && Reaches(c, s, events, t) && NeverAdded(c, s, events, p, k)
    requires k !in Tracked(s, p) || (events != [] && Cuts(c, s, events[0], p, k))
    ensures k !in Tracked(t, p)
    decreases |events|
  {
    if events != [] {
      KeepsInv(c, s, events[0]);
      TrackedStep(c, s, events[0], p, k);
      StaysUntracked(c, Apply(c, s, events[0]), events[1..], t, p, k);
    }
  }

  /** Over every run: a tracked key is lost exactly when some event cuts it and it is not
      registered again. */
  lemma {:induction false} LostIffCut(c: Config, s: State, events: seq<Event>, t: State, p: Key, k: Key)
    requires Inv(c, s) && Reaches(c, s, events, t)
    ensures k !in Tracked(t, p) <==>
              CutForGood(c, s, events, p, k) || (k !in Tracked(s, p) && NeverAdded(c, s, events, p, k))
    decreases |events|
  {
    if events != [] {
      KeepsInv(c, s, events[0]);
      TrackedStep(c, s, events[0], p, k);
      LostIffCut(c, Apply(c, s, events[0]), events[1..], t, p, k);
    }
  }

  /** A fill or peer put that reserved its slot with event `e` and, after any events of others,
      puts its variant into the store leaves it stored and untracked exactly when a purge, wipe
      or prune cut the key in between and nobody registered it again. */
  lemma PutIsTrackedUnlessCut(c: Config, s: State, e: Event, events: seq<Event>, t: State)
    requires Reachable(c, s) && Enabled(s, e) && Locked(e) && Succeeds(Apply(c, s, e), e.tid)
    requires Reaches(c, Apply(c, s, e), events, t) && Enabled(t, PutReserved(e.tid))
    ensures var th, u := s.threads[e.tid], Apply(c, t, PutReserved(e.tid));
            && t.threads[e.tid].key == th.key && th.key in u.store
            && (th.key !in Tracked(u, th.primary) <==> CutForGood(c, Apply(c, s, e), events, th.primary, th.key))
  {
    ReachableOk(c, s);
    var th, s1 := s.threads[e.tid], Apply(c, s, e);
    KeepsInv(c, s, e);
    LockedStep(c, s, e);
    LostIffCut(c, s1, events, t, th.primary, th.key);
    SameThread(c, s1, events, t, e.tid);
  }

  /** A thread keeps its keys for good. */
  lemma {:induction false} SameThread(c: Config, s: State, events: seq<Event>, t: State, tid: nat)
    requires Inv(c, s) && Reaches(c, s, events, t) && tid in s.threads
    ensures tid in t.threads && t.threads[tid].key == s.threads[tid].key
    decreases |events|
  {
    if events != [] {
      KeepsInv(c, s, events[0]);
      ThreadStep(c, s, events[0], tid);
      SameThread(c, Apply(c, s, events[0]), events[1..], t, tid);
    }
  }

  /** It happens: a purge of the primary between a fill's reservation and its store put succeeds
      and reports so, and the variant ends up stored where no later purge finds it. */
  lemma PurgeMissesAFill(c: Config, p: Key, k: Key) returns (s: State)
    requires c.maxVariants > 0 && p != k
    ensures Reachable(c, s) && k in s.store && Tracked(s, p) == {}
    ensures 0 in s.threads && s.threads[0].key == k && s.threads[0].primary == p && s.threads[0].pc == Stored
    ensures 1 in s.threads && s.threads[1].primary == p && s.threads[1].pc == Purged(true, true, {k})
    ensures !s.threads[1].failed
  {
    s := FillReserves(c, p, k);
    s := PurgeRuns(c, s, p, k);
    ReachableThen(c, s, PutReserved(0));
    s := Apply(c, s, PutReserved(0));
  }

  lemma FillReserves(c: Config, p: Key, k: Key) returns (s: State)
    requires c.maxVariants > 0
    ensures Reachable(c, s) && s.sets == [{k}] && s.tracked == map[p := 0] && s.store == {}
    ensures s.threads == map[0 := Thread(p, k, false, Reserved(true), {}, {}, false)]
  {
    assert Reaches(c, Start, [], Start);
    ReachableThen(c, Start, Fill(0, p, k));
    s := Apply(c, Start, Fill(0, p, k));
    ReachableThen(c, s, Lock(0));
    s := Apply(c, s, Lock(0));
    assert s.sets[0] == {k};
  }

  lemma PurgeRuns(c: Config, s0: State, p: Key, k: Key) returns (s: State)
    requires Reachable(c, s0) && s0.sets == [{k}] && s0.tracked == map[p := 0] && s0.store == {}
    requires s0.threads == map[0 := Thread(p, k, false, Reserved(true), {}, {}, false)]
    ensures Reachable(c, s) && s.tracked == map[]
    ensures s.threads.Keys == {0, 1} && s.threads[0] == s0.threads[0]
    ensures s.threads[1].primary == p && s.threads[1].pc == Purged(true, true, {k}) && !s.threads[1].failed
  {
    s := PurgeDetaches(c, s0, p, k);
    ReachableThen(c, s, DeleteVariant(1, k, true));
    s := Apply(c, s, DeleteVariant(1, k, true));
    assert {k} - {k} == {};
    assert s.threads[1].pc == DeletingPrimary({k});
    ReachableThen(c, s, DeletePrimary(1, true));
    s := Apply(c, s, DeletePrimary(1, true));
  }

  lemma PurgeDetaches(c: Config, s0: State, p: Key, k: Key) returns (s: State)
    requires Reachable(c, s0) && s0.sets == [{k}] && s0.tracked == map[p := 0] && s0.store == {}
    requires s0.threads == map[0 := Thread(p, k, false, Reserved(true), {}, {}, false)]
    ensures Reachable(c, s) && s.tracked == map[] && s.threads.Keys == {0, 1} && s.threads[0] == s0.threads[0]
    ensures s.threads[1] == Thread(p, p, false, Deleting(0, {k}, {k}), {}, {}, false)
  {
    ReachableThen(c, s0, Purge(1, p));
    s := Apply(c, s0, Purge(1, p));
    ReachableThen(c, s, Detach(1));
    s := Apply(c, s, Detach(1));
    assert s.threads[1].pc == Detached(0, {k}) && s.tracked == map[];
    ReachableThen(c, s, CheckOwned(1));
    s := Apply(c, s, CheckOwned(1));
  }

  // ---- A prune acting on a stale probe ----

  /** A prune keeps every stored, tracked variant tracked exactly when none of the keys
      its probes found absent is both still tracked and stored again by now (its own key
      aside, which it may add back). */
  lemma PruneKeepsStoredVariants(c: Config, s: State, tid: nat)
    requires Reachable(c, s) && Enabled(s, FinishPrune(tid))
    ensures var th := s.threads[tid];
            KeepsStored(Tracked(s, th.primary), s.store, th.key, Tracked(Apply(c, s, FinishPrune(tid)), th.primary))
            <==> th.pc.dead * Tracked(s, th.primary) * s.store <= {th.key}
  {
    ReachableOk(c, s);
    var th := s.threads[tid];
    PruneLeaves(c, s, tid);
    PruneSets(Tracked(s, th.primary), th.pc.dead, s.store, th.key, Tracked(FinishPruneStep(c, s, tid), th.primary));
  }

  /** Every variant tracked before and in the store is tracked after, `key` aside. */
  predicate KeepsStored(before: set<Key>, store: set<Key>, key: Key, after: set<Key>) {
    forall k | k in before && k in store && k != key :: k in after
  }

  lemma PruneSets(before: set<Key>, dead: set<Key>, store: set<Key>, key: Key, after: set<Key>)
    requires after == before - dead || after == before - dead + {key}
    ensures KeepsStored(before, store, key, after) <==> dead * before * store <= {key}
  {
    if dead * before * store <= {key} {
      forall k | k in before && k in store && k != key ensures k in after {
        assert k in dead <==> k in dead * before * store;
      }
    }
  }

  lemma PruneLeaves(c: Config, s: State, tid: nat)
    requires Inv(c, s) && Enabled(s, FinishPrune(tid))
    ensures var th := s.threads[tid];
            var after := Tracked(FinishPruneStep(c, s, tid), th.primary);
            after == Tracked(s, th.primary) - th.pc.dead || after == Tracked(s, th.primary) - th.pc.dead + {th.key}
  {
    LockedLeaves(c, s, FinishPrune(tid));
  }

  lemma {:induction false} ReachesThen(c: Config, s: State, events: seq<Event>, t: State, e: Event)
    requires Reaches(c, s, events, t) && Enabled(t, e)
    ensures Reaches(c, s, events + [e], Apply(c, t, e))
    decreases |events|
  {
    if events == [] {
      assert [e][1..] == [];
    } else {
      ReachesThen(c, Apply(c, s, events[0]), events[1..], t, e);
      assert (events + [e])[1..] == events[1..] + [e];
    }
  }

  lemma ReachableThen(c: Config, s: State, e: Event)
    requires Reachable(c, s) && Enabled(s, e)
    ensures Reachable(c, Apply(c, s, e))
  {
    var events :| Reaches(c, Start, events, s);
    ReachesThen(c, Start, events, s, e);
  }

  /** The stale probe does happen: a peer put of key 1 reports success while a local fill
      of key 2 is between its probe of key 1 and its prune; afterwards key 1 is stored and
      no purge of the primary will find it. */
  lemma StaleProbeUntracksAStoredVariant() returns (c: Config, s: State)
    ensures Reachable(c, s)
    ensures 2 in s.threads && s.threads[2].fromPeer && s.threads[2].key == 1 && s.threads[2].primary == 0
    ensures s.threads[2].pc == Reserved(true)
    ensures 1 in s.store && Tracked(s, 0) == {2}
  {
    c := Config(1, true);
    s := FillReadyToPrune(c);
    s := PeerPutSucceeds(c, s);
    s := PruneFinishes(c, s);
  }

  /** The pruning fill takes the lock again and acts on what it saw earlier. */
  lemma PruneFinishes(c: Config, s0: State) returns (s: State)
    requires c == Config(1, true) && Reachable(c, s0) && 1 in s0.threads && 2 in s0.threads
    requires s0.sets == [{1}] && s0.peerAdds == [0] && s0.tracked == map[0 := 0]
    requires s0.threads[1].primary == 0 && s0.threads[1].key == 2 && !s0.threads[1].fromPeer
    requires s0.threads[1].pc == Pruning({}, {1}, true)
    ensures Reachable(c, s) && 2 in s.threads && s.threads[2] == s0.threads[2]
    ensures s.store == s0.store && Tracked(s, 0) == {2}
  {
    ReachableThen(c, s0, FinishPrune(1));
    s := FinishPruneStep(c, s0, 1);
    ReachableOk(c, s0);
    PruneLeaves(c, s0, 1);
    assert Pruned(s0, s0.threads[1]).threads == s0.threads;
    FinishPruneOk(c, s0, 1);
  }

  lemma PeerPutSucceeds(c: Config, s0: State) returns (s: State)
    requires Reachable(c, s0) && 2 !in s0.threads && 0 in s0.tracked && 1 in Tracked(s0, 0)
    ensures Reachable(c, s)
    ensures s == Begun(Put(s0, 1), 2, Thread(0, 1, true, Reserved(true), {}, {}, false))
  {
    ReachableThen(c, s0, PeerPut(2, 0, 1));
    s := Apply(c, s0, PeerPut(2, 0, 1));
    assert Tracked(s, 0) == Tracked(s0, 0);
    ReachableThen(c, s, Lock(2));
    s := Apply(c, s, Lock(2));
  }

  /** Key 1 is tracked but evicted; a fill of key 2 has probed it and found it absent. */
  lemma FillReadyToPrune(c: Config) returns (s: State)
    requires c == Config(1, true)
    ensures Reachable(c, s)
    ensures s.sets == [{1}] && s.peerAdds == [0] && s.tracked == map[0 := 0] && s.store == {0}
    ensures s.threads.Keys == {0, 1}
    ensures s.threads[1].primary == 0 && s.threads[1].key == 2 && !s.threads[1].fromPeer
    ensures s.threads[1].pc == Pruning({}, {1}, true)
  {
    s := KeyOneTracked(c);
    ReachableThen(c, s, Fill(1, 0, 2));
    s := Apply(c, s, Fill(1, 0, 2));
    ReachableThen(c, s, Lock(1));
    s := Apply(c, s, Lock(1));
    ReachableThen(c, s, Look(1));
    s := Apply(c, s, Look(1));
    ReachableThen(c, s, Relock(1));
    s := Apply(c, s, Relock(1));
    assert s.threads[1].pc == Pruning({1}, {}, true);
    ReachableThen(c, s, Probe(1, 1));
    s := Apply(c, s, Probe(1, 1));
  }

  lemma KeyOneTracked(c: Config) returns (s: State)
    requires c == Config(1, true)
    ensures Reachable(c, s)
    ensures s.sets == [{1}] && s.peerAdds == [0] && s.tracked == map[0 := 0] && s.store == {0}
    ensures s.threads.Keys == {0}
  {
    s := PeerPutRegisters(c);
    ReachableThen(c, s, StorePut(0));
    s := Apply(c, s, StorePut(0));
    ReachableThen(c, s, StoreDrop(1));
    s := Apply(c, s, StoreDrop(1));
    assert {1} + {0} - {1} == {0};
  }

  lemma PeerPutRegisters(c: Config) returns (s: State)
    requires c == Config(1, true)
    ensures Reachable(c, s)
    ensures s.sets == [{1}] && s.peerAdds == [0] && s.tracked == map[0 := 0] && s.store == {1}
    ensures s.threads.Keys == {0}
  {
    assert Reaches(c, Start, [], Start);
    ReachableThen(c, Start, PeerPut(0, 0, 1));
    s := Apply(c, Start, PeerPut(0, 0, 1));
    ReachableThen(c, s, Lock(0));
    s := Apply(c, s, Lock(0));
    assert s.sets[0] == {1};
  }
}
