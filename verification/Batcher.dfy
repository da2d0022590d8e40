/** The invalidation batcher: callers enqueue purge events or are told to send one themselves,
    a loop takes the whole queue, sends it or puts it back, and a last drain runs on close.
    Every stretch under `purgeMu` is one event; sending happens without the lock. */
module Batcher {

  type Purge = nat

  const BatchSize := 256
  const QueueCap := 4096

  /** `drain`: send whatever was taken; `final`: the drain close waits for. */
  datatype Loop = Idle | Holding(batch: seq<Purge>, drain: bool, final: bool) | Ended

  /** Beside the batcher's own fields: `sending` are the events callers were told to send
      themselves, `clearing` how many callers have sent theirs and not yet reported back;
      `offered` counts every event a caller came with, `queued` lists those the queue accepted
      in order, `bySelf` and `byLoop` what callers and the loop sent, `mark` how many were
      queued when the final drain took the queue. */
  datatype State = State(
    queue: seq<Purge>, flushing: bool, closing: bool, sending: multiset<Purge>, clearing: nat, loop: Loop,
    offered: multiset<Purge>, queued: seq<Purge>, bySelf: multiset<Purge>, byLoop: seq<Purge>, mark: nat)

  const Start: State := State([], false, false, multiset{}, 0, Idle, multiset{}, [], multiset{}, [], 0)

  datatype Event =
    | Enqueue(evt: Purge)        // `enqueuePurge`
    | EnqueueAsync(evt: Purge)   // `enqueuePurgeAsync`
    | Send(evt: Purge)           // a caller's own `flushPurge`
    | Done                       // `donePurgeFlush`
    | Wake                       // `flushDue` takes the queue
    | Tick                       // `drainFlush` takes the queue
    | Finish                     // the loop sends its batch or puts it back
    | Close
    | LastDrain

  predicate Enabled(s: State, e: Event) {
    match e
    case Enqueue(_) => true
    case EnqueueAsync(_) => true
    case Send(evt) => evt in s.sending
    case Done => s.clearing > 0
    case Wake => s.loop == Idle
    case Tick => s.loop == Idle
    case Finish => s.loop.Holding?
    case Close => true
    case LastDrain => s.closing && s.loop == Idle
  }

  function Append(s: State, evt: Purge): State {
    s.(queue := s.queue + [evt], queued := s.queued + [evt], offered := s.offered + multiset{evt})
  }

  function HandBack(s: State, evt: Purge): State {
    s.(sending := s.sending + multiset{evt}, offered := s.offered + multiset{evt})
  }

  function Take(s: State, drain: bool, final: bool): State {
    s.(queue := [], loop := Holding(s.queue, drain, final), mark := if final then |s.queued| else s.mark)
  }

  function Apply(s: State, e: Event): State
    requires Enabled(s, e)
  {
    match e
    case Enqueue(evt) =>
      if |s.queue| >= QueueCap then HandBack(s, evt)
      else if |s.queue| > 0 || s.flushing then Append(s, evt)
      else HandBack(s, evt).(flushing := true)
    case EnqueueAsync(evt) =>
      if |s.queue| >= QueueCap then HandBack(s, evt) else Append(s, evt)
    case Send(evt) =>
      s.(sending := s.sending - multiset{evt}, clearing := s.clearing + 1, bySelf := s.bySelf + multiset{evt})
    case Done => s.(clearing := s.clearing - 1, flushing := false)
    case Wake => Take(s, false, false)
    case Tick => Take(s, true, false)
    case LastDrain => Take(s, true, true)
    case Close => s.(closing := true)
    case Finish =>
      var next := if s.loop.final then Ended else Idle;
      if s.loop.drain || |s.loop.batch| >= BatchSize
      then s.(loop := next, byLoop := s.byLoop + s.loop.batch)
      else s.(loop := next, queue := s.loop.batch + s.queue)
  }

  predicate Run(s: State, es: seq<Event>)
    decreases |es|
  {
    es == [] || (Enabled(s, es[0]) && Run(Apply(s, es[0]), es[1..]))
  }

  function After(s: State, es: seq<Event>): State
    requires Run(s, es)
    decreases |es|
  {
    if es == [] then s else After(Apply(s, es[0]), es[1..])
  }

  // ---- The invariant ----

  function InHand(l: Loop): seq<Purge> {
    if l.Holding? then l.batch else []
  }

  /** Every event is in exactly one place, and the loop's part of it in queue order. */
  ghost predicate Conserved(s: State) {
    && s.queued == s.byLoop + InHand(s.loop) + s.queue
    && s.offered == multiset(s.queued) + s.sending + s.bySelf
  }

  predicate Bounded(s: State) {
    && |s.queue| <= QueueCap + BatchSize - 1
    && (s.loop.Holding? && !s.loop.drain && |s.loop.batch| < BatchSize ==> |s.queue| <= QueueCap)
  }

  predicate Marked(s: State) {
    && s.mark <= |s.queued|
    && (s.loop.Holding? && s.loop.final ==> s.loop.drain && |s.byLoop + s.loop.batch| == s.mark)
    && (s.loop.Ended? ==> |s.byLoop| == s.mark)
  }

  ghost predicate Inv(s: State) {
    Conserved(s) && Bounded(s) && Marked(s)
  }

  lemma AppendStep(s: State, evt: Purge)
    requires Conserved(s)
    ensures Conserved(Append(s, evt))
  {
    var front := s.byLoop + InHand(s.loop);
    assert front + (s.queue + [evt]) == front + s.queue + [evt];
  }

  lemma TakeStep(s: State, drain: bool, final: bool)
    requires Conserved(s) && s.loop == Idle
    ensures Conserved(Take(s, drain, final))
  {
    assert s.byLoop + [] + s.queue == s.byLoop + s.queue + [];
  }

  lemma FinishStep(s: State)
    requires Conserved(s) && s.loop.Holding?
    ensures Conserved(Apply(s, Finish))
  {
    var sent, hand, q := s.byLoop, s.loop.batch, s.queue;
    assert sent + [] + (hand + q) == sent + hand + q == sent + hand + [] + q;
  }

  lemma HandBackStep(s: State, evt: Purge)
    requires Conserved(s)
    ensures Conserved(HandBack(s, evt))
  {
    Moved(multiset(s.queued), s.sending, s.bySelf, evt);
  }

  lemma SendStep(s: State, evt: Purge)
    requires Conserved(s) && evt in s.sending
    ensures Conserved(Apply(s, Send(evt)))
  {
    Moved(multiset(s.queued), s.sending - multiset{evt}, s.bySelf, evt);
    assert s.sending == s.sending - multiset{evt} + multiset{evt};
  }

  lemma Moved(q: multiset<Purge>, hand: multiset<Purge>, sent: multiset<Purge>, x: Purge)
    ensures q + (hand + multiset{x}) + sent == q + hand + sent + multiset{x} == q + hand + (sent + multiset{x})
  {}

  predicate AppendsTo(s: State, e: Event)
    requires e.Enqueue? || e.EnqueueAsync?
  {
    |s.queue| < QueueCap && (e.EnqueueAsync? || |s.queue| > 0 || s.flushing)
  }

  lemma QueueStep(s: State, e: Event)
    requires Enabled(s, e) && Conserved(s)
    ensures Conserved(Apply(s, e))
  {
    match e
    case Enqueue(evt) => if AppendsTo(s, e) { AppendStep(s, evt); } else { HandBackStep(s, evt); }
    case EnqueueAsync(evt) => if AppendsTo(s, e) { AppendStep(s, evt); } else { HandBackStep(s, evt); }
    case Wake => TakeStep(s, false, false);
    case Tick => TakeStep(s, true, false);
    case LastDrain => TakeStep(s, true, true);
    case Finish => FinishStep(s);
    case Send(evt) => SendStep(s, evt);
    case _ =>
  }

  lemma Step(s: State, e: Event)
    requires Enabled(s, e) && Inv(s)
    ensures Inv(Apply(s, e))
  {
    assert |s.queued| == |s.byLoop| + |InHand(s.loop)| + |s.queue|;
    BoundStep(s, e);
    QueueStep(s, e);
  }

  lemma BoundStep(s: State, e: Event)
    requires Enabled(s, e) && Bounded(s) && Marked(s)
    requires |s.queued| == |s.byLoop| + |InHand(s.loop)| + |s.queue|
    ensures Bounded(Apply(s, e)) && Marked(Apply(s, e))
  {}

  lemma {:induction false} RunKeeps(s: State, es: seq<Event>)
    requires Inv(s) && Run(s, es)
    ensures Inv(After(s, es))
    decreases |es|
  {
    if es != [] {
      Step(s, es[0]);
      RunKeeps(Apply(s, es[0]), es[1..]);
    }
  }

  // ---- Results over every run ----

  /** In every run each event is in exactly one of the queue, the loop's hand, a caller's hand
      or the sent logs; the loop sends in the order events were queued, across put-backs; and
      the queue stays within the cap plus one batch short of the threshold. */
  lemma EventsAreConserved(es: seq<Event>)
    requires Run(Start, es)
    ensures var s := After(Start, es);
            && s.offered == multiset(s.queue) + multiset(InHand(s.loop)) + s.sending + s.bySelf + multiset(s.byLoop)
            && s.byLoop <= s.queued
            && |s.queue| <= 4096 + 255
  {
    RunKeeps(Start, es);
    var s := After(Start, es);
    assert multiset(s.queued) == multiset(s.byLoop) + multiset(InHand(s.loop)) + multiset(s.queue);
  }

  lemma {:induction false} Then(s: State, es: seq<Event>, e: Event)
    requires Run(s, es) && Enabled(After(s, es), e)
    ensures Run(s, es + [e]) && After(s, es + [e]) == Apply(After(s, es), e)
    decreases |es|
  {
    if es == [] {
      assert [e][1..] == [];
    } else {
      Then(Apply(s, es[0]), es[1..], e);
      assert (es + [e])[1..] == es[1..] + [e];
    }
  }

  /** Room for `n` more events is filled by as many callers. */
  lemma {:induction false} Filled(es: seq<Event>, n: nat) returns (fs: seq<Event>)
    requires Run(Start, es) && |After(Start, es).queue| + n <= QueueCap
    ensures Run(Start, fs) && |After(Start, fs).queue| == |After(Start, es).queue| + n
    ensures After(Start, fs).loop == After(Start, es).loop
    decreases n
  {
    if n == 0 {
      fs := es;
    } else {
      Then(Start, es, EnqueueAsync(0));
      fs := Filled(es + [EnqueueAsync(0)], n - 1);
    }
  }

  /** The bound is met: a batch one short of the threshold is taken, the queue fills up behind
      it, and the batch is put back. */
  lemma QueueBoundIsMet() returns (es: seq<Event>)
    ensures Run(Start, es) && |After(Start, es).queue| == 4096 + 255
  {
    es := Filled([], BatchSize - 1);
    Then(Start, es, Wake);
    es := Filled(es + [Wake], QueueCap);
    Then(Start, es, Finish);
    es := es + [Finish];
  }

  /** Once the loop has ended, the events queued before its final drain are exactly the ones it
      sent; whatever was queued later stays in the queue. */
  lemma FinalDrainIsExact(es: seq<Event>)
    requires Run(Start, es) && After(Start, es).loop == Ended
    ensures var s := After(Start, es);
            s.mark <= |s.queued| && s.byLoop == s.queued[..s.mark] && s.queue == s.queued[s.mark..]
  {
    RunKeeps(Start, es);
  }

  /** The loop sends nothing once it has ended. */
  lemma {:induction false} EndedStays(s: State, es: seq<Event>)
    requires s.loop == Ended && Run(s, es)
    ensures After(s, es).loop == Ended && After(s, es).byLoop == s.byLoop
    decreases |es|
  {
    if es != [] { EndedStays(Apply(s, es[0]), es[1..]); }
  }

  /** An event queued after the final drain is accepted and never sent, however the run goes on. */
  lemma LateEventIsStranded(evt: Purge, more: seq<Event>)
    ensures var late := [Close, LastDrain, Finish, EnqueueAsync(evt)];
            && Run(Start, late) && After(Start, late).queued == [evt]
            && (Run(After(Start, late), more) ==> After(After(Start, late), more).byLoop == [])
  {
    var s1 := Apply(Start, Close);
    var s2 := Apply(s1, LastDrain);
    var s3 := Apply(s2, Finish);
    var s4 := Apply(s3, EnqueueAsync(evt));
    var late := [Close, LastDrain, Finish, EnqueueAsync(evt)];
    var l1, l2, l3 := late[1..], late[2..], late[3..];
    assert l1[1..] == l2 && l2[1..] == l3 && l3[1..] == [];
    assert Run(s4, []) && After(s4, []) == s4;
    assert Run(s3, l3) && After(s3, l3) == s4;
    assert Run(s2, l2) && After(s2, l2) == s4;
    assert Run(s1, l1) && After(s1, l1) == s4;
    if Run(s4, more) { EndedStays(s4, more); }
  }
}
