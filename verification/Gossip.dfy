/** The gossip queue: memberlist drains it round by round under a byte limit. */
module Gossip {
  import opened Codec
  import opened Wire

  /** The largest frame any round can carry. */
  const MaxFrame := 1395

  /** The budget batches are split under before they are queued. */
  const FrameBudget := 1300

  datatype Fate = Sent | Kept | Dropped

  /** What one round does to a queue; `used` is what the sent frames cost. */
  datatype Round = Round(sent: seq<Text>, kept: seq<Text>, dropped: seq<Text>, used: nat)

  function Drain(q: seq<Text>, overhead: nat, limit: int): Round {
    if q == [] then Round([], [], [], 0)
    else
      var r, f := Drain(q[..|q| - 1], overhead, limit), q[|q| - 1];
      if |f| > MaxFrame then r.(dropped := r.dropped + [f])
      else if r.used + overhead + |f| > limit then r.(kept := r.kept + [f])
      else r.(sent := r.sent + [f], used := r.used + overhead + |f|)
  }

  class Queue {
    var frames: seq<Text>

    method QueueBroadcast(msg: Text)
      modifies this
      ensures frames == old(frames) + [msg]
    {
      frames := frames + [msg];
    }

    /** `GetBroadcasts`. */
    method GetBroadcasts(overhead: nat, limit: int) returns (sent: seq<Text>)
      modifies this
      ensures var r := Drain(old(frames), overhead, limit); sent == r.sent && frames == r.kept
    {
      sent := [];
      if frames == [] { return; }
      var used, remaining: seq<Text> := 0, [];
      for i := 0 to |frames|
        invariant frames == old(frames)
        invariant var r := Drain(frames[..i], overhead, limit);
                  sent == r.sent && remaining == r.kept && used == r.used
      {
        var b := frames[i];
        assert frames[..i + 1][..i] == frames[..i];
        if |b| > MaxFrame { continue; }
        if used + overhead + |b| > limit {
          remaining := remaining + [b];
          continue;
        }
        sent := sent + [b];
        used := used + overhead + |b|;
      }
      assert frames[..|frames|] == frames;
      frames := remaining;
    }
  }

  // ---- One round splits the queue in order ----

  function Pick(q: seq<Text>, fates: seq<Fate>, f: Fate): seq<Text>
    requires |fates| == |q|
  {
    if q == [] then []
    else Pick(q[..|q| - 1], fates[..|q| - 1], f) + if fates[|q| - 1] == f then [q[|q| - 1]] else []
  }

  function Cost(sent: seq<Text>, overhead: nat): nat {
    if sent == [] then 0 else Cost(sent[..|sent| - 1], overhead) + overhead + |sent[|sent| - 1]|
  }

  /** What becomes of each frame. */
  function Fates(q: seq<Text>, overhead: nat, limit: int): (fates: seq<Fate>)
    ensures |fates| == |q|
  {
    if q == [] then []
    else
      var used, f := Drain(q[..|q| - 1], overhead, limit).used, q[|q| - 1];
      Fates(q[..|q| - 1], overhead, limit)
      + [if |f| > MaxFrame then Dropped else if used + overhead + |f| > limit then Kept else Sent]
  }

  lemma {:induction false} FatesPick(q: seq<Text>, overhead: nat, limit: int)
    ensures var r, fates := Drain(q, overhead, limit), Fates(q, overhead, limit);
            r.sent == Pick(q, fates, Sent) && r.kept == Pick(q, fates, Kept) && r.dropped == Pick(q, fates, Dropped)
  {
    if q != [] {
      FatesPick(q[..|q| - 1], overhead, limit);
      assert Fates(q, overhead, limit)[..|q| - 1] == Fates(q[..|q| - 1], overhead, limit);
    }
  }

  lemma {:induction false} FatesFit(q: seq<Text>, overhead: nat, limit: int)
    ensures var r, fates := Drain(q, overhead, limit), Fates(q, overhead, limit);
            && (forall i | 0 <= i < |q| :: fates[i] == Dropped <==> |q[i]| > MaxFrame)
            && (forall i | 0 <= i < |q| && fates[i] == Kept :: r.used + overhead + |q[i]| > limit)
  {
    if q != [] { FatesFit(q[..|q| - 1], overhead, limit); }
  }

  lemma {:induction false} SentFits(q: seq<Text>, overhead: nat, limit: int)
    ensures var r := Drain(q, overhead, limit); r.used == Cost(r.sent, overhead) && (r.sent != [] ==> r.used <= limit)
  {
    if q != [] {
      SentFits(q[..|q| - 1], overhead, limit);
      var sent := Drain(q[..|q| - 1], overhead, limit).sent;
      assert (sent + [q[|q| - 1]])[..|sent|] == sent;
    }
  }

  /** Every frame has one fate and the three parts keep queue order; exactly the frames too
      large for any round are dropped; what is sent fits the limit; and a frame is kept only
      if it would not fit behind what was sent. */
  lemma RoundSplits(q: seq<Text>, overhead: nat, limit: int)
    ensures var r, fates := Drain(q, overhead, limit), Fates(q, overhead, limit);
            && r.sent == Pick(q, fates, Sent) && r.kept == Pick(q, fates, Kept) && r.dropped == Pick(q, fates, Dropped)
            && (forall i | 0 <= i < |q| :: fates[i] == Dropped <==> |q[i]| > MaxFrame)
            && r.used == Cost(r.sent, overhead) && (r.sent != [] ==> r.used <= limit)
            && (forall i | 0 <= i < |q| && fates[i] == Kept :: r.used + overhead + |q[i]| > limit)
  {
    FatesPick(q, overhead, limit);
    FatesFit(q, overhead, limit);
    SentFits(q, overhead, limit);
  }

  /** A full-size round takes at least the first frame off the queue. */
  lemma {:induction false} RoundShrinks(q: seq<Text>, overhead: nat, limit: int)
    requires limit >= overhead + MaxFrame && q != []
    ensures |Drain(q, overhead, limit).kept| < |q|
  {
    var most := q[..|q| - 1];
    if most == [] {
      assert Drain(most, overhead, limit) == Round([], [], [], 0);
    } else {
      RoundShrinks(most, overhead, limit);
    }
  }

  // ---- Many rounds ----

  /** The queue after one round per limit, and everything sent on the way. */
  function Rounds(q: seq<Text>, overhead: nat, limits: seq<int>): (seq<Text>, seq<Text>)
    decreases |limits|
  {
    if limits == [] then (q, [])
    else
      var r := Drain(q, overhead, limits[0]);
      var (left, sent) := Rounds(r.kept, overhead, limits[1..]);
      (left, r.sent + sent)
  }

  function Deliverable(q: seq<Text>): multiset<Text> {
    if q == [] then multiset{}
    else Deliverable(q[..|q| - 1]) + if |q[|q| - 1]| <= MaxFrame then multiset{q[|q| - 1]} else multiset{}
  }

  lemma {:induction false} RoundDelivers(q: seq<Text>, overhead: nat, limit: int)
    ensures var r := Drain(q, overhead, limit); Deliverable(q) == multiset(r.sent) + Deliverable(r.kept)
  {
    if q != [] {
      var most, f := q[..|q| - 1], q[|q| - 1];
      RoundDelivers(most, overhead, limit);
      var r := Drain(most, overhead, limit);
      assert (r.kept + [f])[..|r.kept|] == r.kept;
    }
  }

  /** As many full-size rounds as there are frames empty the queue, and every frame that fits
      a round at all is sent exactly once. */
  lemma {:induction false} RoundsEmptyTheQueue(q: seq<Text>, overhead: nat, limits: seq<int>)
    requires |limits| >= |q| && forall i | 0 <= i < |limits| :: limits[i] >= overhead + MaxFrame
    ensures var (left, sent) := Rounds(q, overhead, limits); left == [] && multiset(sent) == Deliverable(q)
    decreases |limits|
  {
    if limits != [] {
      var r := Drain(q, overhead, limits[0]);
      RoundDelivers(q, overhead, limits[0]);
      if q != [] { RoundShrinks(q, overhead, limits[0]); }
      RoundsEmptyTheQueue(r.kept, overhead, limits[1..]);
    }
  }

  // ---- From events to events ----

  lemma {:induction false} SmallBatch(part: seq<Event>)
    ensures TotalLen(part) >= 34 * |part|
  {
    if part != [] { SmallBatch(part[..|part| - 1]); }
  }

  function Frames(c: Codec, parts: seq<seq<Event>>): (fs: seq<Text>)
    ensures |fs| == |parts|
    ensures forall i | 0 <= i < |parts| :: fs[i] == Frame(c, parts[i])
  {
    if parts == [] then [] else Frames(c, parts[..|parts| - 1]) + [Frame(c, parts[|parts| - 1])]
  }

  lemma {:induction false} AllDeliverable(q: seq<Text>)
    requires forall f | f in q :: |f| <= MaxFrame
    ensures Deliverable(q) == multiset(q)
  {
    if q != [] {
      AllDeliverable(q[..|q| - 1]);
      assert q == q[..|q| - 1] + [q[|q| - 1]];
    }
  }

  lemma {:induction false} NeverDelivered(q: seq<Text>, f: Text)
    requires |f| > MaxFrame
    ensures f !in Deliverable(q)
  {
    if q != [] { NeverDelivered(q[..|q| - 1], f); }
  }

  /** Everything is delivered exactly when every frame fits a round. */
  lemma DeliverableIff(q: seq<Text>)
    ensures Deliverable(q) == multiset(q) <==> forall f | f in q :: |f| <= MaxFrame
  {
    if forall f | f in q :: |f| <= MaxFrame {
      AllDeliverable(q);
    } else {
      var f :| f in q && |f| > MaxFrame;
      NeverDelivered(q, f);
      assert f in multiset(q);
    }
  }

  /** Small enough for a frame of its own. */
  predicate OwnFrame(e: Event) {
    PayloadLen(e) <= MaxFrame - 7
  }

  /** A batch split for gossip, queued and drained: the queue empties, each sub-batch decodes to
      its events, and all of them arrive exactly when every event fits a frame of its own. */
  lemma SplitBatchArrives(kind: Kind, evts: seq<Event>, parts: seq<seq<Event>>, overhead: nat, limits: seq<int>)
    requires forall e | e in evts :: KindOf(e) == kind && Fits(e)
    requires Greedy(Codec(kind, true), FrameBudget, parts) && Flat(parts) == evts
    requires |limits| >= |parts| && forall i | 0 <= i < |limits| :: limits[i] >= overhead + MaxFrame
    ensures var c := Codec(kind, true); var (left, sent) := Rounds(Frames(c, parts), overhead, limits);
            && left == [] && multiset(sent) == Deliverable(Frames(c, parts))
            && (multiset(sent) == multiset(Frames(c, parts)) <==> forall e | e in evts :: OwnFrame(e))
            && forall i | 0 <= i < |parts| :: Decoded(c, Frames(c, parts)[i]) == Ok(NormalAll(parts[i]))
  {
    var c := Codec(kind, true);
    var q := Frames(c, parts);
    forall i | 0 <= i < |parts|
      ensures |q[i]| <= MaxFrame <==> forall e | e in parts[i] :: OwnFrame(e)
      ensures Decoded(c, q[i]) == Ok(NormalAll(parts[i]))
    {
      PartArrives(kind, parts, i);
    }
    FramesFit(parts, q);
    DeliverableIff(q);
    RoundsEmptyTheQueue(q, overhead, limits);
  }

  lemma FramesFit(parts: seq<seq<Event>>, q: seq<Text>)
    requires |q| == |parts|
    requires forall i | 0 <= i < |parts| :: |q[i]| <= MaxFrame <==> forall e | e in parts[i] :: OwnFrame(e)
    ensures (forall f | f in q :: |f| <= MaxFrame) <==> forall e | e in Flat(parts) :: OwnFrame(e)
  {
    if forall e | e in Flat(parts) :: OwnFrame(e) {
      forall i, e | 0 <= i < |parts| && e in parts[i] ensures OwnFrame(e) { FlatHas(parts, i, e); }
      assert forall i | 0 <= i < |q| :: |q[i]| <= MaxFrame;
    }
    if forall f | f in q :: |f| <= MaxFrame {
      forall e | e in Flat(parts) ensures OwnFrame(e) {
        var i := FlatFrom(parts, e);
        assert q[i] in q;
      }
    }
  }

  lemma {:induction false} FlatFrom<E>(parts: seq<seq<E>>, e: E) returns (i: nat)
    requires e in Flat(parts)
    ensures i < |parts| && e in parts[i]
  {
    if e in parts[0] {
      i := 0;
    } else {
      i := FlatFrom(parts[1..], e);
      i := i + 1;
    }
  }

  lemma {:induction false} FlatHas<E>(parts: seq<seq<E>>, i: nat, e: E)
    requires i < |parts| && e in parts[i]
    ensures e in Flat(parts)
  {
    if i > 0 { FlatHas(parts[1..], i - 1, e); }
  }

  lemma {:induction false} OneOfMany(part: seq<Event>, e: Event)
    requires e in part
    ensures PayloadLen(e) <= TotalLen(part)
  {
    if e != part[|part| - 1] { OneOfMany(part[..|part| - 1], e); }
  }

  lemma PartArrives(kind: Kind, parts: seq<seq<Event>>, i: nat)
    requires forall e | e in Flat(parts) :: KindOf(e) == kind && Fits(e)
    requires i < |parts| && Within(Codec(kind, true), FrameBudget, parts[i])
    ensures |Frame(Codec(kind, true), parts[i])| <= MaxFrame <==> forall e | e in parts[i] :: OwnFrame(e)
    ensures Decoded(Codec(kind, true), Frame(Codec(kind, true), parts[i])) == Ok(NormalAll(parts[i]))
  {
    var c, part := Codec(kind, true), parts[i];
    forall e | e in part ensures e in Flat(parts) { FlatHas(parts, i, e); }
    FrameSize(c, part);
    SmallBatch(part);
    if |part| == 1 {
      assert part[..0] == [] && part[0] in part;
    } else {
      forall e | e in part ensures OwnFrame(e) { OneOfMany(part, e); }
    }
    FrameReads(c, part);
  }
}
