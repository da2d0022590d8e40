/** The streaming tee: origin bodies are copied to their clients chunk by chunk and buffered
    for the store on the side. Every tee checks the shared byte counter before it buffers a
    chunk and adds to it afterwards, so checks and additions of different tees interleave.
    A tee occupies one of `N` slots; each atomic access of the counter is an event. */
module Tee {

  type Byte = nat
  type Bytes = seq<Byte>

  const ChunkSize := 32768
  const DefaultMaxResponse := 4194304

  /** Caps of zero or less are off; `maxResponse` then has a default. */
  datatype Limits = Limits(maxResponse: int, maxStreaming: int, maxObject: int)

  function BufCap(lim: Limits): int {
    if lim.maxResponse <= 0 then DefaultMaxResponse else lim.maxResponse
  }

  datatype ReadEnd = More | Eof | Broken

  datatype Pc =
    | Reading
    | Writing(hand: Bytes, next: ReadEnd)    // to the client
    | Checking(hand: Bytes, next: ReadEnd)   // `shouldStopBuffering`
    | Adding(hand: Bytes, next: ReadEnd)     // checked, not yet buffered
    | Ended(complete: bool)
    | Settled

  /** `chunks`: everything read from the origin so far, in order. */
  datatype Slot =
    | Free
    | Busy(pc: Pc, chunks: seq<Bytes>, buf: Bytes, lastReported: nat, exceeded: bool)

  /** A settled body: a `complete` one is handed to the followers, a `stored` one also went to
      the store; `exceeded` says buffering stopped early. */
  datatype Fill = Fill(chunks: seq<Bytes>, complete: bool, exceeded: bool, stored: bool, body: Bytes)

  datatype State = State(counter: int, slots: seq<Slot>, fills: seq<Fill>)

  datatype Event =
    | Open(i: nat)
    | Read(i: nat, got: Bytes, end: ReadEnd)
    | Write(i: nat, ok: bool)
    | Check(i: nat)
    | Add(i: nat)
    | Settle(i: nat)
    | Close(i: nat)

  function Concat(chunks: seq<Bytes>): Bytes {
    if chunks == [] then [] else Concat(chunks[..|chunks| - 1]) + chunks[|chunks| - 1]
  }

  predicate ShouldStop(lim: Limits, counter: int, buf: Bytes, n: nat, total: nat) {
    || |buf| + n > BufCap(lim)
    || (lim.maxResponse > 0 && total > lim.maxResponse)
    || (lim.maxStreaming > 0 && counter >= lim.maxStreaming)
  }

  function Next(end: ReadEnd): Pc {
    if end == More then Reading else Ended(end == Eof)
  }

  predicate Enabled(s: State, e: Event) {
    e.i < |s.slots| && match e
    case Open(i) => s.slots[i] == Free
    case Read(i, got, _) => s.slots[i].Busy? && s.slots[i].pc.Reading? && |got| <= ChunkSize
    case Write(i, _) => s.slots[i].Busy? && s.slots[i].pc.Writing?
    case Check(i) => s.slots[i].Busy? && s.slots[i].pc.Checking?
    case Add(i) => s.slots[i].Busy? && s.slots[i].pc.Adding?
    case Settle(i) => s.slots[i].Busy? && s.slots[i].pc.Ended?
    case Close(i) => s.slots[i].Busy? && s.slots[i].pc.Settled?
  }

  /** The tee's slot after an event of its own. */
  function Stepped(lim: Limits, counter: int, t: Slot, e: Event): Slot
    requires Enabled(State(counter, seq(e.i, _ => Free) + [t], []), e)
  {
    match e
    case Open(_) => Busy(Reading, [], [], 0, false)
    case Read(_, got, end) =>
      if got == [] then t.(pc := Next(end)) else t.(pc := Writing(got, end), chunks := t.chunks + [got])
    case Write(_, ok) =>
      if !ok then t.(pc := Ended(false))
      else if t.exceeded then t.(pc := Next(t.pc.next))
      else t.(pc := Checking(t.pc.hand, t.pc.next))
    case Check(_) =>
      if ShouldStop(lim, counter, t.buf, |t.pc.hand|, |Concat(t.chunks)|)
      then t.(pc := Next(t.pc.next), exceeded := true)
      else t.(pc := Adding(t.pc.hand, t.pc.next))
    case Add(_) =>
      var buf := t.buf + t.pc.hand;
      t.(pc := Next(t.pc.next), buf := buf, lastReported := if |buf| > t.lastReported then |buf| else t.lastReported)
    case Settle(_) => t.(pc := Settled)
    case Close(_) => Free
  }

  function Verdict(lim: Limits, t: Slot): Fill
    requires t.Busy? && t.pc.Ended?
  {
    Fill(t.chunks, t.pc.complete, t.exceeded,
         t.pc.complete && !t.exceeded && !(lim.maxObject > 0 && |Concat(t.chunks)| > lim.maxObject), t.buf)
  }

  /** What the event adds to the shared counter. */
  function Delta(t: Slot, e: Event): int {
    if e.Add? && t.Busy? && t.pc.Adding? && |t.buf + t.pc.hand| > t.lastReported then
      |t.buf + t.pc.hand| - t.lastReported
    else if e.Close? && t.Busy? then 0 - t.lastReported as int
    else 0
  }

  function Apply(lim: Limits, s: State, e: Event): State
    requires Enabled(s, e)
  {
    var t := s.slots[e.i];
    State(
      s.counter + Delta(t, e),
      s.slots[e.i := Stepped(lim, s.counter, t, e)],
      if e.Settle? then s.fills + [Verdict(lim, t)] else s.fills)
  }

  predicate Run(lim: Limits, s: State, es: seq<Event>)
    decreases |es|
  {
    es == [] || (Enabled(s, es[0]) && Run(lim, Apply(lim, s, es[0]), es[1..]))
  }

  function After(lim: Limits, s: State, es: seq<Event>): State
    requires Run(lim, s, es)
    decreases |es|
  {
    if es == [] then s else After(lim, Apply(lim, s, es[0]), es[1..])
  }

  function Start(n: nat): State {
    State(0, seq(n, _ => Free), [])
  }

  // ---- Sums over the slots ----

  function Reported(t: Slot): nat {
    if t.Busy? then t.lastReported else 0
  }

  /** Checked bytes the tee has yet to add. */
  function Pending(t: Slot): nat {
    if t.Busy? && t.pc.Adding? then |t.pc.hand| else 0
  }

  function Sum(slots: seq<Slot>, f: Slot -> nat): nat {
    if slots == [] then 0 else f(slots[0]) + Sum(slots[1..], f)
  }

  lemma {:induction false} SumUpdate(slots: seq<Slot>, f: Slot -> nat, i: nat, t: Slot)
    requires i < |slots|
    ensures Sum(slots[i := t], f) == Sum(slots, f) - f(slots[i]) + f(t)
  {
    if i == 0 {
      assert slots[0 := t][1..] == slots[1..];
    } else {
      SumUpdate(slots[1..], f, i - 1, t);
      assert slots[i := t][1..] == slots[1..][i - 1 := t];
    }
  }

  /** Every slot but `i` holds at most `most`. */
  lemma {:induction false} SumOthers(slots: seq<Slot>, f: Slot -> nat, i: nat, most: nat)
    requires i < |slots| && forall j | 0 <= j < |slots| && j != i :: f(slots[j]) <= most
    ensures Sum(slots, f) <= f(slots[i]) + (|slots| - 1) * most
  {
    if i > 0 {
      SumOthers(slots[1..], f, i - 1, most);
      assert (|slots| - 1) * most == most + (|slots| - 2) * most;
    } else {
      SumAll(slots[1..], f, most);
    }
  }

  lemma {:induction false} SumAll(slots: seq<Slot>, f: Slot -> nat, most: nat)
    requires forall t | t in slots :: f(t) <= most
    ensures Sum(slots, f) <= |slots| * most
  {
    if slots != [] {
      SumAll(slots[1..], f, most);
      assert |slots| * most == most + (|slots| - 1) * most;
    }
  }

  // ---- The invariant ----

  /** The bytes read and already dealt with: all but the chunk in hand. */
  function Behind(t: Slot): seq<Bytes>
    requires t.Busy?
  {
    if t.chunks != [] && (t.pc.Writing? || t.pc.Checking? || t.pc.Adding?) then t.chunks[..|t.chunks| - 1] else t.chunks
  }

  predicate SlotOk(lim: Limits, t: Slot) {
    t.Busy? ==>
      && t.lastReported == |t.buf| <= BufCap(lim)
      && t.buf <= Concat(t.chunks) && (t.exceeded ==> |t.buf| < |Concat(t.chunks)|)
      && (t.pc.Writing? || t.pc.Checking? || t.pc.Adding? ==>
            t.chunks != [] && t.chunks[|t.chunks| - 1] == t.pc.hand && 0 < |t.pc.hand| <= ChunkSize)
      && (t.pc.Checking? || t.pc.Adding? ==> !t.exceeded)
      && (t.pc.Adding? ==> |Concat(t.chunks)| <= BufCap(lim))
      && (!t.exceeded && t.pc != Settled && t.pc != Ended(false) ==>
            t.buf == Concat(Behind(t)))
      && (t.exceeded && lim.maxStreaming <= 0 ==> |Concat(t.chunks)| > BufCap(lim))
  }

  predicate FillOk(lim: Limits, f: Fill) {
    && (f.stored ==> f.complete && f.body == Concat(f.chunks) && |f.body| <= BufCap(lim)
                     && (lim.maxObject > 0 ==> |f.body| <= lim.maxObject))
    && (lim.maxStreaming <= 0 ==>
          (f.stored <==> f.complete && |Concat(f.chunks)| <= BufCap(lim)
                         && (lim.maxObject > 0 ==> |Concat(f.chunks)| <= lim.maxObject)))
    && f.body <= Concat(f.chunks) && |f.body| <= BufCap(lim)
    && (f.complete ==> (f.body == Concat(f.chunks) <==> !f.exceeded))
    && (f.exceeded && lim.maxStreaming <= 0 ==> |Concat(f.chunks)| > BufCap(lim))
  }

  predicate Inv(lim: Limits, s: State) {
    && (forall i | 0 <= i < |s.slots| :: SlotOk(lim, s.slots[i]))
    && (forall f | f in s.fills :: FillOk(lim, f))
    && s.counter == Sum(s.slots, Reported)
    && (lim.maxStreaming > 0 ==>
          s.counter + Sum(s.slots, Pending) <= lim.maxStreaming - 1 + |s.slots| * ChunkSize)
  }

  lemma ConcatLast(chunks: seq<Bytes>, c: Bytes)
    ensures Concat(chunks + [c]) == Concat(chunks) + c
  {
    assert (chunks + [c])[..|chunks|] == chunks;
  }

  lemma LongerText(a: Bytes, b: Bytes, c: Bytes)
    requires a <= b
    ensures a <= b + c && |b + c| == |b| + |c|
  {}

  lemma ReadStep(lim: Limits, s: State, e: Event)
    requires Enabled(s, e) && e.Read? && SlotOk(lim, s.slots[e.i])
    ensures SlotOk(lim, Stepped(lim, s.counter, s.slots[e.i], e))
  {
    if e.got != [] { ReadChunk(lim, s.slots[e.i], e.got, e.end); }
  }

  lemma ReadChunk(lim: Limits, t: Slot, got: Bytes, end: ReadEnd)
    requires t.Busy? && t.pc.Reading? && SlotOk(lim, t) && 0 < |got| <= ChunkSize
    ensures SlotOk(lim, t.(pc := Writing(got, end), chunks := t.chunks + [got]))
  {
    ConcatLast(t.chunks, got);
    assert (t.chunks + [got])[..|t.chunks|] == t.chunks;
    LongerText(t.buf, Concat(t.chunks), got);
  }

  lemma WriteStep(lim: Limits, s: State, e: Event)
    requires Enabled(s, e) && e.Write? && SlotOk(lim, s.slots[e.i])
    ensures SlotOk(lim, Stepped(lim, s.counter, s.slots[e.i], e))
  {}

  lemma CheckStep(lim: Limits, s: State, e: Event)
    requires Enabled(s, e) && e.Check? && SlotOk(lim, s.slots[e.i])
    ensures SlotOk(lim, Stepped(lim, s.counter, s.slots[e.i], e))
  {
    var t := s.slots[e.i];
    assert Concat(t.chunks) == t.buf + t.pc.hand;
  }

  lemma AddStep(lim: Limits, s: State, e: Event)
    requires Enabled(s, e) && e.Add? && SlotOk(lim, s.slots[e.i])
    ensures SlotOk(lim, Stepped(lim, s.counter, s.slots[e.i], e))
  {
    var t := s.slots[e.i];
    assert Concat(t.chunks) == t.buf + t.pc.hand;
  }

  lemma SlotStep(lim: Limits, s: State, e: Event)
    requires Enabled(s, e) && SlotOk(lim, s.slots[e.i])
    ensures SlotOk(lim, Stepped(lim, s.counter, s.slots[e.i], e))
  {
    match e
    case Read(_, _, _) => ReadStep(lim, s, e);
    case Write(_, _) => WriteStep(lim, s, e);
    case Check(_) => CheckStep(lim, s, e);
    case Add(_) => AddStep(lim, s, e);
    case _ =>
  }

  lemma FillStep(lim: Limits, t: Slot)
    requires t.Busy? && t.pc.Ended? && SlotOk(lim, t)
    ensures FillOk(lim, Verdict(lim, t))
  {}

  lemma CounterStep(lim: Limits, s: State, e: Event)
    requires Enabled(s, e) && Inv(lim, s)
    ensures var u := Apply(lim, s, e); u.counter == Sum(u.slots, Reported)
  {
    SumUpdate(s.slots, Reported, e.i, Stepped(lim, s.counter, s.slots[e.i], e));
  }

  lemma BoundStep(lim: Limits, s: State, e: Event)
    requires Enabled(s, e) && Inv(lim, s) && lim.maxStreaming > 0
    ensures var u := Apply(lim, s, e);
            u.counter + Sum(u.slots, Pending) <= lim.maxStreaming - 1 + |u.slots| * ChunkSize
  {
    var t := s.slots[e.i];
    var u := Stepped(lim, s.counter, t, e);
    SumUpdate(s.slots, Pending, e.i, u);
    if e.Check? && u.pc.Adding? {
      SumOthers(s.slots, Pending, e.i, ChunkSize);
    }
  }

  lemma Step(lim: Limits, s: State, e: Event)
    requires Enabled(s, e) && Inv(lim, s)
    ensures Inv(lim, Apply(lim, s, e))
  {
    SlotStep(lim, s, e);
    if e.Settle? { FillStep(lim, s.slots[e.i]); }
    CounterStep(lim, s, e);
    if lim.maxStreaming > 0 { BoundStep(lim, s, e); }
  }

  lemma StartOk(lim: Limits, n: nat)
    ensures Inv(lim, Start(n))
  {
    SumAll(Start(n).slots, Reported, 0);
    SumAll(Start(n).slots, Pending, 0);
  }

  lemma {:induction false} RunKeeps(lim: Limits, s: State, es: seq<Event>)
    requires Inv(lim, s) && Run(lim, s, es)
    ensures Inv(lim, After(lim, s, es)) && |After(lim, s, es).slots| == |s.slots|
    decreases |es|
  {
    if es != [] {
      Step(lim, s, es[0]);
      RunKeeps(lim, Apply(lim, s, es[0]), es[1..]);
    }
  }

  // ---- Results over every run of at most `n` tees ----

  /** The shared counter is the sum of what the live tees reported, stays within the cap by
      one chunk per tee, and is back at zero when no tee is live. */
  lemma CounterIsBounded(lim: Limits, n: nat, es: seq<Event>)
    requires Run(lim, Start(n), es)
    ensures var s := After(lim, Start(n), es);
            && s.counter == Sum(s.slots, Reported)
            && (lim.maxStreaming > 0 ==> s.counter <= lim.maxStreaming - 1 + n * ChunkSize)
            && ((forall t | t in s.slots :: t == Free) ==> s.counter == 0)
  {
    StartOk(lim, n);
    RunKeeps(lim, Start(n), es);
    var s := After(lim, Start(n), es);
    if forall t | t in s.slots :: t == Free { SumAll(s.slots, Reported, 0); }
  }

  /** A stored body is every chunk read from the origin, up to its clean end, and within the
      per-response caps. Without a global cap, exactly the complete bodies that fit are stored. */
  lemma StoredBodiesAreWhole(lim: Limits, n: nat, es: seq<Event>, f: Fill)
    requires Run(lim, Start(n), es) && f in After(lim, Start(n), es).fills
    ensures f.stored ==> f.complete && f.body == Concat(f.chunks) && |f.body| <= BufCap(lim)
    ensures lim.maxStreaming <= 0 ==>
              (f.stored <==> f.complete && |Concat(f.chunks)| <= BufCap(lim)
                             && (lim.maxObject > 0 ==> |Concat(f.chunks)| <= lim.maxObject))
  {
    StartOk(lim, n);
    RunKeeps(lim, Start(n), es);
  }

  /** What followers are handed is a prefix of what the origin sent, and all of it exactly when
      buffering never stopped; without a global cap, exactly when the body fits the buffer. */
  lemma HandedBodiesAreWhole(lim: Limits, n: nat, es: seq<Event>, f: Fill)
    requires Run(lim, Start(n), es) && f in After(lim, Start(n), es).fills && f.complete
    ensures f.body <= Concat(f.chunks)
    ensures f.body == Concat(f.chunks) <==> !f.exceeded
    ensures lim.maxStreaming <= 0 ==> (f.body == Concat(f.chunks) <==> |Concat(f.chunks)| <= BufCap(lim))
  {
    StartOk(lim, n);
    RunKeeps(lim, Start(n), es);
  }

  // ---- Building runs ----

  ghost predicate Reaches(lim: Limits, s: State, u: State) {
    exists es :: Run(lim, s, es) && After(lim, s, es) == u
  }

  lemma {:induction false} Extend(lim: Limits, s: State, es: seq<Event>, e: Event)
    requires Run(lim, s, es) && Enabled(After(lim, s, es), e)
    ensures Run(lim, s, es + [e]) && After(lim, s, es + [e]) == Apply(lim, After(lim, s, es), e)
    decreases |es|
  {
    if es == [] {
      assert [e][1..] == [];
    } else {
      Extend(lim, Apply(lim, s, es[0]), es[1..], e);
      assert (es + [e])[1..] == es[1..] + [e];
    }
  }

  lemma One(lim: Limits, s: State, u: State, e: Event)
    requires Reaches(lim, s, u) && Enabled(u, e)
    ensures Reaches(lim, s, Apply(lim, u, e))
  {
    var es :| Run(lim, s, es) && After(lim, s, es) == u;
    Extend(lim, s, es, e);
  }

  lemma ReachesOk(lim: Limits, n: nat, u: State)
    requires Reaches(lim, Start(n), u)
    ensures Inv(lim, u) && |u.slots| == n
  {
    var es :| Run(lim, Start(n), es) && After(lim, Start(n), es) == u;
    StartOk(lim, n);
    RunKeeps(lim, Start(n), es);
  }

  /** A tee reads a chunk and hands it to its client. */
  lemma Serves(lim: Limits, n: nat, u: State, i: nat, c: Bytes, end: ReadEnd) returns (v: State)
    requires Reaches(lim, Start(n), u) && i < |u.slots| && u.slots[i].Busy? && u.slots[i].pc.Reading?
    requires 0 < |c| <= ChunkSize
    ensures Reaches(lim, Start(n), v) && v.counter == u.counter && v.fills == u.fills
    ensures var t := u.slots[i];
            var pc := if t.exceeded then Next(end) else Checking(c, end);
            v.slots == u.slots[i := t.(pc := pc, chunks := t.chunks + [c])]
  {
    One(lim, Start(n), u, Read(i, c, end));
    var w := Apply(lim, u, Read(i, c, end));
    One(lim, Start(n), w, Write(i, true));
    v := Apply(lim, w, Write(i, true));
  }

  // ---- A body longer than the buffer is handed over cut short ----

  /** A lone tee that has read `chunks` so far. */
  ghost predicate Lone(u: State, chunks: seq<Bytes>) {
    |u.slots| == 1 && u.fills == [] && u.slots[0].Busy? && u.slots[0].chunks == chunks
  }

  /** It reads one more, buffered or not. */
  lemma TakesIn(lim: Limits, u: State, read: seq<Bytes>, c: Bytes) returns (v: State)
    requires Reaches(lim, Start(1), u) && Lone(u, read) && u.slots[0].pc.Reading? && 0 < |c| <= ChunkSize
    ensures Reaches(lim, Start(1), v) && Lone(v, read + [c]) && v.slots[0].pc.Reading?
  {
    v := Serves(lim, 1, u, 0, c, More);
    if !u.slots[0].exceeded {
      One(lim, Start(1), v, Check(0));
      v := Apply(lim, v, Check(0));
      if v.slots[0].pc.Adding? {
        One(lim, Start(1), v, Add(0));
        v := Apply(lim, v, Add(0));
      }
    }
  }

  lemma {:induction false} ReadsAll(lim: Limits, chunks: seq<Bytes>) returns (u: State)
    requires forall c | c in chunks :: 0 < |c| <= ChunkSize
    ensures Reaches(lim, Start(1), u) && Lone(u, chunks) && u.slots[0].pc.Reading?
  {
    if chunks == [] {
      assert Run(lim, Start(1), []) && After(lim, Start(1), []) == Start(1);
      One(lim, Start(1), Start(1), Open(0));
      u := Apply(lim, Start(1), Open(0));
    } else {
      var last := |chunks| - 1;
      u := ReadsAll(lim, chunks[..last]);
      u := TakesIn(lim, u, chunks[..last], chunks[last]);
      assert chunks[..last] + [chunks[last]] == chunks;
    }
  }

  /** Whatever the limits and the chunks, a body that outgrows the buffer can reach its end and
      is then handed to the followers without its tail. */
  lemma LongBodyIsCutShort(lim: Limits, chunks: seq<Bytes>) returns (es: seq<Event>, f: Fill)
    requires (forall c | c in chunks :: 0 < |c| <= ChunkSize) && |Concat(chunks)| > BufCap(lim)
    ensures Run(lim, Start(1), es) && After(lim, Start(1), es).fills == [f]
    ensures f.chunks == chunks && f.complete && !f.stored && f.body < Concat(chunks)
  {
    var u := ReadsAll(lim, chunks);
    One(lim, Start(1), u, Read(0, [], Eof));
    u := Apply(lim, u, Read(0, [], Eof));
    f := Verdict(lim, u.slots[0]);
    One(lim, Start(1), u, Settle(0));
    u := Apply(lim, u, Settle(0));
    es :| Run(lim, Start(1), es) && After(lim, Start(1), es) == u;
    ReachesOk(lim, 1, u);
    assert FillOk(lim, f);
  }

  // ---- When the bound is met ----

  lemma {:induction false} SumAtLeast(slots: seq<Slot>, f: Slot -> nat, least: nat)
    requires forall t | t in slots :: f(t) >= least
    ensures Sum(slots, f) >= |slots| * least
  {
    if slots != [] {
      SumAtLeast(slots[1..], f, least);
      assert |slots| * least == least + (|slots| - 1) * least;
    }
  }

  /** Ready for another chunk, and with room for a whole one. */
  predicate Ready(lim: Limits, t: Slot) {
    t.Busy? && t.pc.Reading? && !t.exceeded && |t.buf| + ChunkSize <= BufCap(lim)
  }

  /** Checked with a whole chunk in hand. */
  predicate Armed(t: Slot) {
    t.Busy? && t.pc.Adding? && |t.pc.hand| == ChunkSize
  }

  /** The first `full` tees have added their last chunk, those up to `armed` hold theirs. */
  predicate Crowd(lim: Limits, n: nat, u: State, full: nat, armed: nat) {
    && |u.slots| == n
    && (forall i | full <= i < armed && i < n :: Armed(u.slots[i]))
    && (forall i | armed <= i < n :: Ready(lim, u.slots[i]))
  }

  lemma NotStopped(lim: Limits, counter: int, t: Slot, c: Bytes)
    requires SlotOk(lim, t) && Ready(lim, t) && |c| <= ChunkSize && counter < lim.maxStreaming
    ensures !ShouldStop(lim, counter, t.buf, |c|, |Concat(t.chunks + [c])|)
  {
    ConcatLast(t.chunks, c);
  }

  /** While the counter is below the cap a tee with room passes the check. */
  lemma Passes(lim: Limits, n: nat, u: State, i: nat, c: Bytes) returns (v: State)
    requires Reaches(lim, Start(n), u) && i < |u.slots| && Ready(lim, u.slots[i])
    requires 0 < |c| <= ChunkSize && u.counter < lim.maxStreaming
    ensures Reaches(lim, Start(n), v) && v.counter == u.counter
    ensures var t := u.slots[i];
            v.slots == u.slots[i := t.(pc := Adding(c, More), chunks := t.chunks + [c])]
  {
    ReachesOk(lim, n, u);
    var t := u.slots[i];
    v := Serves(lim, n, u, i, c, More);
    NotStopped(lim, u.counter, t, c);
    One(lim, Start(n), v, Check(i));
    v := Apply(lim, v, Check(i));
  }

  lemma AddsUp(lim: Limits, n: nat, u: State, i: nat) returns (v: State)
    requires Reaches(lim, Start(n), u) && i < |u.slots| && u.slots[i].Busy? && u.slots[i].pc.Adding?
    ensures Reaches(lim, Start(n), v) && v.counter == u.counter + |u.slots[i].pc.hand|
    ensures var t := u.slots[i];
            var buf := t.buf + t.pc.hand;
            v.slots == u.slots[i := t.(pc := Next(t.pc.next), buf := buf, lastReported := |buf|)]
  {
    ReachesOk(lim, n, u);
    One(lim, Start(n), u, Add(i));
    v := Apply(lim, u, Add(i));
  }

  lemma {:induction false} AllOpen(lim: Limits, n: nat, k: nat) returns (u: State)
    requires k <= n
    ensures Reaches(lim, Start(n), u) && u.counter == 0 && |u.slots| == n
    ensures forall i | 0 <= i < n :: u.slots[i] == if i < k then Busy(Reading, [], [], 0, false) else Free
  {
    if k == 0 {
      u := Start(n);
      assert Run(lim, Start(n), []) && After(lim, Start(n), []) == u;
    } else {
      var v := AllOpen(lim, n, k - 1);
      One(lim, Start(n), v, Open(k - 1));
      u := Apply(lim, v, Open(k - 1));
    }
  }

  /** As long as the tees have room between them, one of them has. */
  lemma SomeRoom(lim: Limits, n: nat, u: State) returns (i: nat)
    requires Reaches(lim, Start(n), u) && Crowd(lim, n, u, 0, 0) && u.counter < n * (BufCap(lim) - ChunkSize)
    ensures i < n && |u.slots[i].buf| + ChunkSize < BufCap(lim)
  {
    ReachesOk(lim, n, u);
    if forall i | 0 <= i < n :: |u.slots[i].buf| + ChunkSize >= BufCap(lim) {
      SumTooMuch(lim, n, u);
    }
    i :| i < n && |u.slots[i].buf| + ChunkSize < BufCap(lim);
  }

  lemma SumTooMuch(lim: Limits, n: nat, u: State)
    requires Inv(lim, u) && Crowd(lim, n, u, 0, 0) && n > 0
    requires forall i | 0 <= i < n :: |u.slots[i].buf| + ChunkSize >= BufCap(lim)
    ensures u.counter >= n * (BufCap(lim) - ChunkSize)
  {
    assert Ready(lim, u.slots[0]);
    SumAtLeast(u.slots, Reported, BufCap(lim) - ChunkSize);
  }

  /** The tees buffer `m` bytes between them, each keeping room for one more chunk. */
  lemma {:induction false} Preload(lim: Limits, n: nat, m: nat) returns (u: State)
    requires m < lim.maxStreaming && BufCap(lim) >= ChunkSize && m <= n * (BufCap(lim) - ChunkSize)
    ensures Reaches(lim, Start(n), u) && Crowd(lim, n, u, 0, 0) && u.counter == m
  {
    if m == 0 {
      u := AllOpen(lim, n, n);
    } else {
      var v := Preload(lim, n, m - 1);
      var i := SomeRoom(lim, n, v);
      var w := Passes(lim, n, v, i, [0]);
      u := AddsUp(lim, n, w, i);
    }
  }

  lemma {:induction false} Arm(lim: Limits, n: nat, k: nat) returns (u: State)
    requires lim.maxStreaming > 0 && BufCap(lim) >= ChunkSize && k <= n
    requires lim.maxStreaming - 1 <= n * (BufCap(lim) - ChunkSize)
    ensures Reaches(lim, Start(n), u) && Crowd(lim, n, u, 0, k) && u.counter == lim.maxStreaming - 1
    decreases k
  {
    if k == 0 {
      u := Preload(lim, n, lim.maxStreaming - 1);
    } else {
      var v := Arm(lim, n, k - 1);
      u := Passes(lim, n, v, k - 1, seq(ChunkSize, _ => 0));
    }
  }

  lemma {:induction false} Discharge(lim: Limits, n: nat, k: nat) returns (u: State)
    requires lim.maxStreaming > 0 && BufCap(lim) >= ChunkSize && k <= n
    requires lim.maxStreaming - 1 <= n * (BufCap(lim) - ChunkSize)
    ensures Reaches(lim, Start(n), u) && Crowd(lim, n, u, k, n)
    ensures u.counter == lim.maxStreaming - 1 + k * ChunkSize
    decreases k
  {
    if k == 0 {
      u := Arm(lim, n, n);
    } else {
      var v := Discharge(lim, n, k - 1);
      u := AddsUp(lim, n, v, k - 1);
    }
  }

  /** The bound cannot be met by buffers too small for it together. */
  lemma BuffersHoldIt(lim: Limits, n: nat, u: State)
    requires Reaches(lim, Start(n), u)
    ensures u.counter <= n * BufCap(lim)
  {
    ReachesOk(lim, n, u);
    SumAll(u.slots, Reported, BufCap(lim));
  }

  predicate Meets(lim: Limits, n: nat, es: seq<Event>) {
    Run(lim, Start(n), es) && After(lim, Start(n), es).counter == lim.maxStreaming - 1 + n * ChunkSize
  }

  /** Some run meets the bound exactly when the tees' buffers can hold that much between them:
      they fill up to one byte below the cap, all of them pass the check, and then all add. */
  lemma BoundIsMet(lim: Limits, n: nat)
    requires lim.maxStreaming > 0
    ensures (exists es :: Meets(lim, n, es)) <==> lim.maxStreaming - 1 + n * ChunkSize <= n * BufCap(lim)
  {
    if es :| Meets(lim, n, es) {
      BuffersHoldIt(lim, n, After(lim, Start(n), es));
    }
    if lim.maxStreaming - 1 + n * ChunkSize <= n * BufCap(lim) {
      var u := Met(lim, n);
      var es :| Run(lim, Start(n), es) && After(lim, Start(n), es) == u;
      assert Meets(lim, n, es);
    }
  }

  lemma Met(lim: Limits, n: nat) returns (u: State)
    requires lim.maxStreaming > 0 && lim.maxStreaming - 1 + n * ChunkSize <= n * BufCap(lim)
    ensures Reaches(lim, Start(n), u) && u.counter == lim.maxStreaming - 1 + n * ChunkSize
  {
    if n == 0 {
      u := Start(0);
      assert Run(lim, Start(0), []) && After(lim, Start(0), []) == u;
    } else {
      Average(n, ChunkSize, BufCap(lim), lim.maxStreaming - 1);
      u := Discharge(lim, n, n);
    }
  }

  lemma Average(n: nat, a: int, b: int, m: nat)
    requires n > 0 && m + n * a <= n * b
    ensures a <= b && m <= n * (b - a)
  {
    assert n * (b - a) == n * b - n * a;
    if a > b { Negative(n, b - a); }
  }

  lemma Negative(n: nat, d: int)
    requires n > 0 && d < 0
    ensures n * d < 0
  {}
}
