/** Sharing of in-flight origin fetches: the flight table, the leader's
    settlement of its flight, and the two kinds of followers, as a step system
    over every interleaving of the requests. */
module Flights {

  // ---- Flight keys ----

  datatype Key = Key(hi: bv64, lo: bv64)

  const ZeroKey: Key := Key(0, 0)
  const FILL_SUFFIX: bv64 := 0x66696c6c
  const HEAD_SUFFIX: bv64 := 0x68656164

  function FillFlightKey(k: Key): Key {
    k.(hi := k.hi ^ FILL_SUFFIX)
  }

  function HeadFlightKey(k: Key): Key {
    k.(hi := k.hi ^ HEAD_SUFFIX)
  }

  /** Each tag is its own inverse, so tagging never merges two keys, and the two
      tags never send one key to the same place. */
  lemma TagsAreBijections(k: Key)
    ensures FillFlightKey(FillFlightKey(k)) == k
    ensures HeadFlightKey(HeadFlightKey(k)) == k
    ensures FillFlightKey(k) != HeadFlightKey(k)
  {
    Xor(k.hi, FILL_SUFFIX, HEAD_SUFFIX);
    Xor(k.hi, HEAD_SUFFIX, FILL_SUFFIX);
  }

  lemma Xor(x: bv64, c: bv64, d: bv64)
    ensures (x ^ c) ^ c == x
    ensures c != d ==> x ^ c != x ^ d
  {}

  /** The request fields the collapse rules read. `dimensionKey` is the variant key
      over the route's declared dimensions. */
  datatype Request = Request(
    verb: string, verbBytes: string,
    authorization: string, cookie: string,
    primary: Key, dimensionKey: Key)

  /** What the store lookup that preceded the miss found. */
  datatype Probe = Probe(lookup: Key, hasObject: bool)

  const NoProbe := Probe(ZeroKey, false)

  predicate IsInvalidating(m: string) {
    m != "GET" && m != "HEAD" && m != "OPTIONS"
  }

  predicate CollapseDenied(r: Request) {
    || (if r.verb != "" then IsInvalidating(r.verb)
        else |r.verbBytes| > 0 && IsInvalidating(r.verbBytes))
    || r.authorization != ""
    || r.cookie != ""
  }

  predicate IsHeadFlight(r: Request) {
    if r.verb != "" then r.verb == "HEAD" else r.verbBytes == "HEAD"
  }

  /** `collapseFlightKey`; the zero key means "fetch alone". */
  function CollapseFlightKey(dims: bool, r: Request, p: Probe): Key {
    if p.hasObject || r.primary != p.lookup then p.lookup
    else if !dims then ZeroKey
    else r.dimensionKey
  }

  datatype FlightKey = FlightKey(key: Key, fill: bool)

  /** `fetchFlightKey`. */
  function FetchFlightKey(dims: bool, r: Request, p: Probe): FlightKey {
    if CollapseDenied(r) then FlightKey(ZeroKey, false)
    else
      var k := CollapseFlightKey(dims, r, p);
      if k != ZeroKey then FlightKey(if IsHeadFlight(r) then HeadFlightKey(k) else k, false)
      else FlightKey(FillFlightKey(r.primary), true)
  }

  // ---- One miss: what the leader publishes, in order ----

  datatype Error = Shed | Unshareable | Upstream

  /** A published result: an error, or the leader's bytes. `aliased` says the header
      map handed over is the one the store path goes on mutating. */
  datatype Verdict = Failed(err: Error) | Bytes(clientState: bool, aliased: bool)

  /** What the origin answered and what the handler's gates said about it. */
  datatype Outcome =
    | FetchFailed(shed: bool)
    | Answer(
        buffered: bool, eventStream: bool, cacheable: bool, clientState: bool,
        overResponse: bool, overObject: bool, overStreaming: bool,
        slotGranted: bool, bodyComplete: bool, cacheExceeded: bool, headers: bool)

  datatype Action = Publish(err: Error) | PublishBytes(clientState: bool, mutable: bool)
    | CloseDone | CloseStored | StoreObject

  /** The leader's remaining work. An `async` script runs in the body writer, beside
      the handler's return; otherwise the handler returns after it. */
  datatype Script = Script(actions: seq<Action>, async: bool)

  function Fail(err: Error): seq<Action> {
    [Publish(err), CloseDone, CloseStored]
  }

  /** `publishFillVerdict`: client-state bytes are never handed over. */
  function FillVerdict(o: Outcome, mutable: bool): Action
    requires o.Answer?
  {
    if o.clientState then Publish(Unshareable) else PublishBytes(o.clientState, mutable)
  }

  /** Publish, release the hand-off followers, attempt the store, settle. */
  function VerdictThenStore(verdict: Action, store: bool): seq<Action> {
    if store then [verdict, CloseDone, StoreObject, CloseStored] else [verdict, CloseDone, CloseStored]
  }

  predicate StoresBuffered(head: bool, o: Outcome)
    requires o.Answer?
  {
    o.cacheable && !head && !o.overObject && o.slotGranted
  }

  /** `streamMissBuffered`. The header map it publishes is mutated later only if the response is
      stored; a response without any header gets a map of its own. */
  function MissBuffered(head: bool, o: Outcome): seq<Action>
    requires o.Answer?
  {
    if o.overResponse then Fail(Upstream)
    else
      var store := StoresBuffered(head, o);
      VerdictThenStore(FillVerdict(o, store && o.headers), store)
  }

  /** `settleTeeFill`, run by the body writer. */
  function SettleTee(o: Outcome): seq<Action>
    requires o.Answer?
  {
    if !o.bodyComplete then Fail(Unshareable)
    else
      var store := !o.cacheExceeded && !o.overObject;
      VerdictThenStore(FillVerdict(o, false), store)
  }

  /** `streamMiss`: the whole of one miss. */
  function Miss(head: bool, o: Outcome): Script {
    match o
    case FetchFailed(shed) => Script(Fail(if shed then Shed else Upstream), false)
    case Answer(_, _, _, _, _, _, _, _, _, _, _) =>
      if !o.buffered && !head && o.eventStream then Script(Fail(Unshareable), false)
      else if o.buffered || head || !o.cacheable || o.overStreaming then Script(MissBuffered(head, o), false)
      else if !o.slotGranted then Script(Fail(Unshareable), false)
      else Script(SettleTee(o), true)
  }

  // ---- The system ----

  /** `res`, how often each channel was closed, and who was counted in. */
  datatype Flight = Flight(
    key: Key, fill: bool, tabled: bool, leader: nat,
    res: seq<Verdict>, doneCloses: nat, storedCloses: nat, followers: nat)

  datatype Ending = Led(flight: nat) | Handed(flight: nat) | ShedReply | ErrorReply | Served

  datatype Pc =
    | Arrived
    | Fetching(flight: nat)
    | Running(flight: nat, actions: seq<Action>, async: bool, entry: bool)
    | Loaded(flight: nat, key: Key, fill: bool)
    | Parked(flight: nat, key: Key, fill: bool)
    | Finished(outcome: Ending)

  /** `via`: the store lookup behind the request's last miss. */
  datatype Proc = Proc(req: Request, via: Probe, pc: Pc, reentries: nat, parkedOnFill: bool)

  datatype State = State(procs: map<nat, Proc>, flights: seq<Flight>, table: map<Key, nat>)

  /** `dims`: the route declares flight dimensions. `bases` and `primaries` are the
      untagged keys in play. */
  datatype Config = Config(dims: bool, bases: set<Key>, primaries: set<Key>)

  /** The hypothesis on the tagged key spaces: no tagged key meets another space. */
  ghost predicate SpacesDisjoint(c: Config) {
    && (forall a, b | a in c.bases && b in c.bases :: HeadFlightKey(a) != b)
    && (forall p, a | p in c.primaries && a in c.bases :: FillFlightKey(p) != a && FillFlightKey(p) != HeadFlightKey(a))
  }

  predicate KeysInPlay(c: Config, r: Request, p: Probe) {
    && r.primary in c.primaries
    && CollapseFlightKey(c.dims, r, p) in c.bases + {ZeroKey}
  }

  datatype Event =
    | Arrive(id: nat, req: Request)
    | Serve(id: nat)
    | Enter(id: nat, probe: Probe, memo: bool)
    | Count(id: nat)
    | Fetch(id: nat, outcome: Outcome)
    | Act(id: nat)
    | DropEntry(id: nat)
    | Return(id: nat)
    | Wake(id: nat)

  predicate Enabled(c: Config, s: State, e: Event) {
    if e.Arrive? then e.id !in s.procs
    else
      && e.id in s.procs
      && var pc := s.procs[e.id].pc;
         match e
         case Serve(_) => pc.Arrived?
         case Enter(id, probe, _) => pc.Arrived? && KeysInPlay(c, s.procs[id].req, probe)
         case Count(_) => pc.Loaded?
         case Fetch(_, _) => pc.Fetching?
         case Act(_) => pc.Running? && pc.actions != []
         case DropEntry(_) => pc.Running? && pc.entry && (pc.async || pc.actions == [])
         case Return(_) => pc.Running? && !pc.entry && pc.actions == []
         case Wake(_) => pc.Parked? && pc.flight < |s.flights|
                         && (if pc.fill then s.flights[pc.flight].storedCloses > 0
                             else s.flights[pc.flight].doneCloses > 0)
  }

  function SetPc(s: State, id: nat, pc: Pc): State
    requires id in s.procs
  {
    s.(procs := s.procs[id := s.procs[id].(pc := pc)])
  }

  /** Start fetching as the leader of a fresh flight, entered in the table or not. */
  function Lead(s: State, id: nat, k: FlightKey, tabled: bool): State
    requires id in s.procs
  {
    var f := |s.flights|;
    var s1 := SetPc(s, id, Fetching(f));
    s1.(flights := s.flights + [Flight(k.key, k.fill, tabled, id, [], 0, 0, 0)],
        table := if tabled then s.table[k.key := f] else s.table)
  }

  function Solo(s: State, id: nat): State
    requires id in s.procs
  {
    Lead(s, id, FlightKey(ZeroKey, false), false)
  }

  /** `loadOrStore` found a flight under the key. */
  function Join(s: State, id: nat, k: FlightKey): State
    requires id in s.procs && k.key in s.table
  {
    var p := s.procs[id];
    s.(procs := s.procs[id := p.(pc := Loaded(s.table[k.key], k.key, k.fill),
                                 parkedOnFill := p.parkedOnFill || k.fill)])
  }

  /** `followers.Add(1)`, which runs after the shard lock was released; then wait. */
  function CountIn(s: State, id: nat): State
    requires id in s.procs && s.procs[id].pc.Loaded?
  {
    var pc := s.procs[id].pc;
    var f := pc.flight;
    var s1 := SetPc(s, id, Parked(f, pc.key, pc.fill));
    if f < |s.flights| then
      s1.(flights := s.flights[f := s.flights[f].(followers := s.flights[f].followers + 1)])
    else s1
  }

  /** The request notes the lookup it comes from. */
  function Note(s: State, id: nat, probe: Probe): State
    requires id in s.procs
  {
    s.(procs := s.procs[id := s.procs[id].(via := probe)])
  }

  /** `fetchAndStore` up to the point where the request leads, fetches alone or parks. */
  function EnterMiss(c: Config, s: State, id: nat, probe: Probe, memo: bool): State
    requires id in s.procs
  {
    var p, s1 := s.procs[id], Note(s, id, probe);
    var k := FetchFlightKey(c.dims, p.req, probe);
    if p.reentries > 0 || k.key == ZeroKey || (k.fill && memo) then Solo(s1, id)
    else if k.key in s.table then Join(s1, id, k)
    else Lead(s1, id, k, true)
  }

  function Perform(fl: Flight, a: Action): Flight {
    match a
    case Publish(err) => fl.(res := fl.res + [Failed(err)])
    case PublishBytes(cs, mutable) => fl.(res := fl.res + [Bytes(cs, mutable && fl.followers == 0)])
    case CloseDone => fl.(doneCloses := fl.doneCloses + 1)
    case CloseStored => fl.(storedCloses := fl.storedCloses + 1)
    case StoreObject => fl
  }

  /** The last value written to `res`; the zero value reads as bytes. */
  function Result(fl: Flight): Verdict {
    if fl.res == [] then Bytes(false, false) else fl.res[|fl.res| - 1]
  }

  /** A follower released by its channel. */
  function WakeUp(s: State, id: nat): State
    requires id in s.procs && s.procs[id].pc.Parked? && s.procs[id].pc.flight < |s.flights|
  {
    var p := s.procs[id];
    var v := Result(s.flights[p.pc.flight]);
    if v == Failed(Shed) then SetPc(s, id, Finished(ShedReply))
    else if p.pc.fill then s.(procs := s.procs[id := p.(pc := Arrived, reentries := p.reentries + 1)])
    else match v
      case Failed(Unshareable) => Solo(s, id)
      case Failed(_) => SetPc(s, id, Finished(ErrorReply))
      case Bytes(_, _) => SetPc(s, id, Finished(Handed(p.pc.flight)))
  }

  function Apply(c: Config, s: State, e: Event): State
    requires Enabled(c, s, e)
  {
    match e
    case Arrive(id, req) => s.(procs := s.procs[id := Proc(req, NoProbe, Arrived, 0, false)])
    case Serve(id) => SetPc(s, id, Finished(Served))
    case Enter(id, probe, memo) => EnterMiss(c, s, id, probe, memo)
    case Count(id) => CountIn(s, id)
    case Fetch(id, o) =>
      var f := s.procs[id].pc.flight;
      var script := Miss(IsHeadFlight(s.procs[id].req), o);
      SetPc(s, id, Running(f, script.actions, script.async, f < |s.flights| && s.flights[f].tabled))
    case Act(id) =>
      var pc := s.procs[id].pc;
      var s1 := SetPc(s, id, pc.(actions := pc.actions[1..]));
      if pc.flight < |s.flights| then
        s1.(flights := s.flights[pc.flight := Perform(s.flights[pc.flight], pc.actions[0])])
      else s1
    case DropEntry(id) =>
      var pc := s.procs[id].pc;
      var s1 := SetPc(s, id, pc.(entry := false));
      if pc.flight < |s.flights| then s1.(table := s.table - {s.flights[pc.flight].key}) else s1
    case Return(id) => SetPc(s, id, Finished(Led(s.procs[id].pc.flight)))
    case Wake(id) => WakeUp(s, id)
  }

  const Start: State := State(map[], [], map[])

  /** The state after a run of events from the empty handler, if every event was possible. */
  ghost predicate Reaches(c: Config, s: State, events: seq<Event>, t: State)
    decreases |events|
  {
    if events == [] then s == t
    else Enabled(c, s, events[0]) && Reaches(c, Apply(c, s, events[0]), events[1..], t)
  }

  ghost predicate Reachable(c: Config, s: State) {
    exists events :: Reaches(c, Start, events, s)
  }

  // ---- What every reachable state keeps ----

  /** Playing `actions` from here writes `res` once, then closes `done` once, stores at
      most before, and closes `stored` once. */
  ghost predicate Settles(writes: nat, done: nat, stored: nat, actions: seq<Action>)
    decreases |actions|
  {
    if actions == [] then writes == 1 && done == 1 && stored == 1
    else
      var rest := actions[1..];
      match actions[0]
      case Publish(_) => writes == 0 && done == 0 && stored == 0 && Settles(1, done, stored, rest)
      case PublishBytes(cs, mutable) =>
        && !cs && (mutable ==> StoreObject in rest)
        && writes == 0 && done == 0 && stored == 0 && Settles(1, done, stored, rest)
      case CloseDone => writes == 1 && done == 0 && stored == 0 && Settles(writes, 1, stored, rest)
      case StoreObject => writes == 1 && done == 1 && stored == 0 && Settles(writes, done, stored, rest)
      case CloseStored => writes == 1 && done == 1 && stored == 0 && Settles(writes, done, 1, rest)
  }

  /** Every path through a miss settles its flight. */
  lemma MissSettles(head: bool, o: Outcome)
    ensures Settles(0, 0, 0, Miss(head, o).actions)
  {
    match o
    case FetchFailed(shed) => SettlesFail(if shed then Shed else Upstream);
    case Answer(_, _, _, _, _, _, _, _, _, _, _) =>
      SettlesFail(Unshareable);
      SettlesFail(Upstream);
      SettlesVerdict(FillVerdict(o, StoresBuffered(head, o) && o.headers), StoresBuffered(head, o));
      SettlesVerdict(FillVerdict(o, false), !o.cacheExceeded && !o.overObject);
  }

  lemma MissIsShort(head: bool, o: Outcome)
    ensures |Miss(head, o).actions| <= 4
  {}

  lemma SettlesFail(err: Error)
    ensures Settles(0, 0, 0, Fail(err))
  {
    var a := Fail(err);
    assert a[1..] == [CloseDone, CloseStored] && a[1..][1..] == [CloseStored] && a[1..][1..][1..] == [];
    assert Settles(1, 1, 0, [CloseStored]);
    assert Settles(1, 0, 0, [CloseDone, CloseStored]);
  }

  lemma SettlesVerdict(v: Action, store: bool)
    requires v.Publish? || (v.PublishBytes? && !v.clientState && (v.mutable ==> store))
    ensures Settles(0, 0, 0, VerdictThenStore(v, store))
  {
    var a := VerdictThenStore(v, store);
    assert Settles(1, 1, 0, [CloseStored]) by { assert [CloseStored][1..] == []; }
    if store {
      assert [StoreObject, CloseStored][1..] == [CloseStored];
      assert [CloseDone, StoreObject, CloseStored][1..] == [StoreObject, CloseStored];
      assert a[1..] == [CloseDone, StoreObject, CloseStored];
    } else {
      assert [CloseDone, CloseStored][1..] == [CloseStored];
      assert a[1..] == [CloseDone, CloseStored];
    }
  }

  /** The key lies in the space its kind of flight draws from. */
  ghost predicate KeyShape(c: Config, k: Key, fill: bool, head: bool) {
    if fill then exists p | p in c.primaries :: k == FillFlightKey(p)
    else exists a | a in c.bases :: k == if head then HeadFlightKey(a) else a
  }

  /** Two flight keys that agree belong to the same kind of flight and, for byte
      hand-off, to the same HEAD class. */
  lemma SameKeySameKind(c: Config, k: Key, fill1: bool, head1: bool, fill2: bool, head2: bool)
    requires SpacesDisjoint(c)
    requires KeyShape(c, k, fill1, head1) && KeyShape(c, k, fill2, head2)
    ensures fill1 == fill2
    ensures !fill1 ==> head1 == head2
  {}

  /** The flight key of the request's last miss. */
  function KeyOf(c: Config, p: Proc): FlightKey {
    FetchFlightKey(c.dims, p.req, p.via)
  }

  /** That key is `k`. */
  predicate Derives(c: Config, p: Proc, k: FlightKey) {
    KeysInPlay(c, p.req, p.via) && KeyOf(c, p) == k
  }

  predicate EntryPending(f: nat, fl: Flight, leader: Proc) {
    fl.tabled && (leader.pc == Fetching(f) || (leader.pc.Running? && leader.pc.flight == f && leader.pc.entry))
  }

  /** A flight and its leader agree on how far settlement got. */
  ghost predicate FlightOk(c: Config, f: nat, fl: Flight, leader: Proc) {
    && (match leader.pc
        case Fetching(g) => f == g && fl.res == [] && fl.doneCloses == 0 && fl.storedCloses == 0
        case Running(g, actions, async, entry) =>
          f == g && |actions| <= 4 && (entry ==> fl.tabled)
          && Settles(|fl.res|, fl.doneCloses, fl.storedCloses, actions)
        case Finished(o) => o == Led(f) && |fl.res| == 1 && fl.doneCloses == 1 && fl.storedCloses == 1
        case _ => false)
    && (forall v | v in fl.res && v.Bytes? :: !v.clientState)
    && (fl.tabled ==> fl.key != ZeroKey && Derives(c, leader, FlightKey(fl.key, fl.fill)))
  }

  /** A follower waits on a flight of its own key and kind. */
  ghost predicate ProcOk(c: Config, id: nat, p: Proc, flights: seq<Flight>) {
    && p.reentries <= 1
    && (p.reentries == 1 ==> p.parkedOnFill)
    && (match p.pc
        case Arrived => p.parkedOnFill ==> p.reentries == 1
        case Fetching(f) => f < |flights| && flights[f].leader == id
        case Running(f, _, _, _) => f < |flights| && flights[f].leader == id
        case Loaded(f, k, fill) =>
          && f < |flights| && flights[f].tabled && flights[f].key == k
          && Derives(c, p, FlightKey(k, fill))
          && p.reentries == 0 && p.parkedOnFill == fill
        case Parked(f, k, fill) =>
          && f < |flights| && flights[f].tabled && flights[f].key == k && flights[f].followers > 0
          && Derives(c, p, FlightKey(k, fill))
          && p.reentries == 0 && p.parkedOnFill == fill
        case Finished(o) =>
          && (o.Led? ==> o.flight < |flights| && flights[o.flight].leader == id)
          && (o.Handed? ==>
                && o.flight < |flights| && flights[o.flight].tabled
                && flights[o.flight].doneCloses > 0 && Result(flights[o.flight]).Bytes?
                && Derives(c, p, FlightKey(flights[o.flight].key, false))
                && !p.parkedOnFill))
  }

  ghost predicate FlightsOk(c: Config, procs: map<nat, Proc>, flights: seq<Flight>) {
    forall f | 0 <= f < |flights| :: flights[f].leader in procs && FlightOk(c, f, flights[f], procs[flights[f].leader])
  }

  ghost predicate ProcsOk(c: Config, procs: map<nat, Proc>, flights: seq<Flight>) {
    forall id | id in procs :: ProcOk(c, id, procs[id], flights)
  }

  /** Flight `f` still has its entry to delete. */
  ghost predicate Pending(procs: map<nat, Proc>, flights: seq<Flight>, f: nat) {
    f < |flights| && flights[f].leader in procs && EntryPending(f, flights[f], procs[flights[f].leader])
  }

  /** The table holds exactly the pending entries. */
  ghost predicate TableOk(procs: map<nat, Proc>, flights: seq<Flight>, table: map<Key, nat>) {
    && (forall k | k in table :: Pending(procs, flights, table[k]) && flights[table[k]].key == k)
    && (forall f: nat | Pending(procs, flights, f) :: flights[f].key in table && table[flights[f].key] == f)
  }

  ghost predicate Inv(c: Config, s: State) {
    && FlightsOk(c, s.procs, s.flights)
    && ProcsOk(c, s.procs, s.flights)
    && TableOk(s.procs, s.flights, s.table)
  }

  // ---- Each event keeps the invariant ----

  /** How a flight may change under its followers: never its identity, and never its
      result once `done` is closed. */
  ghost predicate Grows(a: Flight, b: Flight) {
    && b.leader == a.leader && b.key == a.key && b.fill == a.fill && b.tabled == a.tabled
    && b.doneCloses >= a.doneCloses && b.storedCloses >= a.storedCloses
    && (a.doneCloses > 0 ==> b.res == a.res)
    && b.followers >= a.followers
  }

  ghost predicate AllGrow(a: seq<Flight>, b: seq<Flight>) {
    |a| <= |b| && forall f | 0 <= f < |a| :: Grows(a[f], b[f])
  }

  lemma ProcStable(c: Config, id: nat, p: Proc, a: seq<Flight>, b: seq<Flight>)
    requires ProcOk(c, id, p, a) && AllGrow(a, b)
    ensures ProcOk(c, id, p, b)
  {}

  /** Requests keep their facts when one of them moves and the flights grow. */
  lemma ProcsFrame(c: Config, procs: map<nat, Proc>, a: seq<Flight>, b: seq<Flight>, id: nat, p: Proc)
    requires ProcsOk(c, procs, a) && AllGrow(a, b) && ProcOk(c, id, p, b)
    ensures ProcsOk(c, procs[id := p], b)
  {
    forall i | i in procs && i != id ensures ProcOk(c, i, procs[i], b) {
      ProcStable(c, i, procs[i], a, b);
    }
  }

  /** Flights keep their facts when the request that moves leads at most `f`. */
  lemma FlightsFrame(c: Config, procs: map<nat, Proc>, flights: seq<Flight>, id: nat, p: Proc, f: nat, fl: Flight)
    requires FlightsOk(c, procs, flights)
    requires f < |flights| && fl.leader in procs[id := p] && FlightOk(c, f, fl, procs[id := p][fl.leader])
    requires forall g | 0 <= g < |flights| && g != f :: flights[g].leader != id
    ensures FlightsOk(c, procs[id := p], flights[f := fl])
  {}

  /** The table is right as long as the same entries are pending under the same keys. */
  lemma TableFrame(procs: map<nat, Proc>, flights: seq<Flight>,
          table: map<Key, nat>, procs': map<nat, Proc>, flights': seq<Flight>)
    requires TableOk(procs, flights, table)
    requires forall g: nat :: Pending(procs', flights', g) <==> Pending(procs, flights, g)
    requires |flights| <= |flights'| && forall g | 0 <= g < |flights| :: flights'[g].key == flights[g].key
    ensures TableOk(procs', flights', table)
  {}

  lemma KeepArrive(c: Config, s: State, id: nat, req: Request)
    requires Inv(c, s) && id !in s.procs
    ensures Inv(c, Apply(c, s, Arrive(id, req)))
  {
    var p := Proc(req, NoProbe, Arrived, 0, false);
    ProcsFrame(c, s.procs, s.flights, s.flights, id, p);
    TableFrame(s.procs, s.flights, s.table, s.procs[id := p], s.flights);
  }

  predicate LeadsNothing(pc: Pc) {
    pc.Arrived? || pc.Loaded? || pc.Parked?
  }

  /** A request outside a fetch leads no flight. */
  lemma LeadsNone(c: Config, s: State, id: nat)
    requires FlightsOk(c, s.procs, s.flights) && id in s.procs && LeadsNothing(s.procs[id].pc)
    ensures forall f | 0 <= f < |s.flights| :: s.flights[f].leader != id
  {
    forall f | 0 <= f < |s.flights| ensures s.flights[f].leader != id {
      assert FlightOk(c, f, s.flights[f], s.procs[s.flights[f].leader]);
    }
  }

  /** A request leads at most the one flight its program counter names. */
  lemma LeadsOne(c: Config, s: State, id: nat)
    requires FlightsOk(c, s.procs, s.flights) && id in s.procs && (s.procs[id].pc.Fetching? || s.procs[id].pc.Running?)
    ensures forall g | 0 <= g < |s.flights| && s.flights[g].leader == id :: g == s.procs[id].pc.flight
  {
    forall g | 0 <= g < |s.flights| && s.flights[g].leader == id ensures g == s.procs[id].pc.flight {
      assert FlightOk(c, g, s.flights[g], s.procs[s.flights[g].leader]);
    }
  }

  /** A request that leads nothing may move to another state that leads nothing. */
  lemma KeepMove(c: Config, s: State, id: nat, p: Proc)
    requires Inv(c, s) && id in s.procs
    requires LeadsNothing(s.procs[id].pc)
    requires ProcOk(c, id, p, s.flights)
    ensures Inv(c, s.(procs := s.procs[id := p]))
  {
    LeadsNone(c, s, id);
    ProcsFrame(c, s.procs, s.flights, s.flights, id, p);
    TableFrame(s.procs, s.flights, s.table, s.procs[id := p], s.flights);
  }

  /** Leading a fresh flight. */
  lemma KeepLead(c: Config, s: State, id: nat, k: FlightKey, tabled: bool)
    requires Inv(c, s) && id in s.procs
    requires LeadsNothing(s.procs[id].pc)
    requires tabled ==> k.key !in s.table && k.key != ZeroKey && Derives(c, s.procs[id], k)
    ensures Inv(c, Lead(s, id, k, tabled))
  {
    var t := Lead(s, id, k, tabled);
    LeadsNone(c, s, id);
    assert ProcOk(c, id, s.procs[id], s.flights);
    ProcsFrame(c, s.procs, s.flights, t.flights, id, t.procs[id]);
    LeadTable(c, s, id, k, tabled);
  }

  lemma LeadTable(c: Config, s: State, id: nat, k: FlightKey, tabled: bool)
    requires TableOk(s.procs, s.flights, s.table) && id in s.procs
    requires forall f | 0 <= f < |s.flights| :: s.flights[f].leader != id
    requires tabled ==> k.key !in s.table
    ensures var t := Lead(s, id, k, tabled); TableOk(t.procs, t.flights, t.table)
  {
    var t := Lead(s, id, k, tabled);
    forall g: nat
      ensures Pending(t.procs, t.flights, g) <==> Pending(s.procs, s.flights, g) || (tabled && g == |s.flights|)
    {
      if g < |s.flights| { assert t.flights[g] == s.flights[g]; }
    }
  }

  lemma CountFlights(c: Config, procs: map<nat, Proc>, flights: seq<Flight>, f: nat, fl: Flight)
    requires FlightsOk(c, procs, flights) && f < |flights| && fl == flights[f].(followers := fl.followers)
    ensures FlightsOk(c, procs, flights[f := fl])
    ensures forall g: nat :: Pending(procs, flights[f := fl], g) <==> Pending(procs, flights, g)
  {
    assert FlightOk(c, f, flights[f], procs[flights[f].leader]);
    assert FlightOk(c, f, fl, procs[fl.leader]);
  }

  /** One more follower counted in. */
  lemma KeepCount(c: Config, s: State, f: nat)
    requires Inv(c, s) && f < |s.flights|
    ensures Inv(c, s.(flights := s.flights[f := s.flights[f].(followers := s.flights[f].followers + 1)]))
  {
    var fl := s.flights[f].(followers := s.flights[f].followers + 1);
    var flights := s.flights[f := fl];
    CountFlights(c, s.procs, s.flights, f, fl);
    forall id | id in s.procs ensures ProcOk(c, id, s.procs[id], flights) {
      ProcStable(c, id, s.procs[id], s.flights, flights);
    }
    TableFrame(s.procs, s.flights, s.table, s.procs, flights);
  }

  /** Joining a flight already in the table. */
  lemma KeepJoin(c: Config, s: State, id: nat, k: FlightKey)
    requires Inv(c, s) && id in s.procs && s.procs[id].pc.Arrived? && s.procs[id].reentries == 0
    requires k.key in s.table && Derives(c, s.procs[id], k)
    ensures Inv(c, Join(s, id, k))
  {
    var f := s.table[k.key];
    assert ProcOk(c, id, s.procs[id], s.flights);
    assert Pending(s.procs, s.flights, f);
    KeepMove(c, s, id, Join(s, id, k).procs[id]);
  }

  lemma KeepCountIn(c: Config, s: State, id: nat)
    requires Inv(c, s) && Enabled(c, s, Count(id))
    ensures Inv(c, CountIn(s, id))
  {
    var f := s.procs[id].pc.flight;
    assert ProcOk(c, id, s.procs[id], s.flights);
    KeepCount(c, s, f);
    ParksOk(c, id, s.procs[id], s.flights);
    KeepMove(c, s.(flights := CountIn(s, id).flights), id, CountIn(s, id).procs[id]);
  }

  /** Counted in, a loaded request may park. */
  lemma ParksOk(c: Config, id: nat, p: Proc, flights: seq<Flight>)
    requires p.pc.Loaded? && ProcOk(c, id, p, flights)
    ensures var f := p.pc.flight;
            ProcOk(c, id, p.(pc := Parked(f, p.pc.key, p.pc.fill)),
                   flights[f := flights[f].(followers := flights[f].followers + 1)])
  {}

  lemma KeepEnter(c: Config, s: State, id: nat, probe: Probe, memo: bool)
    requires Inv(c, s) && Enabled(c, s, Enter(id, probe, memo))
    ensures Inv(c, EnterMiss(c, s, id, probe, memo))
  {
    var p := s.procs[id];
    var k := FetchFlightKey(c.dims, p.req, probe);
    assert ProcOk(c, id, p, s.flights);
    KeepMove(c, s, id, p.(via := probe));
    var s1 := Note(s, id, probe);
    if p.reentries > 0 || k.key == ZeroKey || (k.fill && memo) {
      KeepLead(c, s1, id, FlightKey(ZeroKey, false), false);
    } else if k.key in s.table {
      KeepJoin(c, s1, id, k);
    } else {
      KeepLead(c, s1, id, k, true);
    }
  }

  /** The leader's step: its flight advances, nobody else moves, and whatever a
      follower could already read stays. */
  lemma KeepLeader(c: Config, s: State, id: nat, p: Proc, fl: Flight)
    requires Inv(c, s) && id in s.procs && (s.procs[id].pc.Fetching? || s.procs[id].pc.Running?)
    requires var f := s.procs[id].pc.flight;
             && f < |s.flights| && s.flights[f].leader == id && Grows(s.flights[f], fl)
             && FlightOk(c, f, fl, p) && ProcOk(c, id, p, s.flights[f := fl])
             && EntryPending(f, fl, p) == EntryPending(f, s.flights[f], s.procs[id])
    ensures Inv(c, s.(procs := s.procs[id := p], flights := s.flights[s.procs[id].pc.flight := fl]))
  {
    var f := s.procs[id].pc.flight;
    LeadsOne(c, s, id);
    FlightsFrame(c, s.procs, s.flights, id, p, f, fl);
    ProcsFrame(c, s.procs, s.flights, s.flights[f := fl], id, p);
    forall g: nat ensures Pending(s.procs[id := p], s.flights[f := fl], g) <==> Pending(s.procs, s.flights, g) {}
    TableFrame(s.procs, s.flights, s.table, s.procs[id := p], s.flights[f := fl]);
  }

  /** What the leader knows of its own flight. */
  lemma LeaderFacts(c: Config, s: State, id: nat)
    requires Inv(c, s) && id in s.procs && (s.procs[id].pc.Fetching? || s.procs[id].pc.Running?)
    ensures var f := s.procs[id].pc.flight;
            f < |s.flights| && s.flights[f].leader == id && FlightOk(c, f, s.flights[f], s.procs[id])
    ensures ProcOk(c, id, s.procs[id], s.flights)
  {
    assert ProcOk(c, id, s.procs[id], s.flights);
    var f := s.procs[id].pc.flight;
    assert FlightOk(c, f, s.flights[f], s.procs[s.flights[f].leader]);
  }

  lemma KeepFetch(c: Config, s: State, id: nat, o: Outcome)
    requires Inv(c, s) && Enabled(c, s, Fetch(id, o))
    ensures Inv(c, Apply(c, s, Fetch(id, o)))
  {
    var f := s.procs[id].pc.flight;
    LeaderFacts(c, s, id);
    MissSettles(IsHeadFlight(s.procs[id].req), o);
    MissIsShort(IsHeadFlight(s.procs[id].req), o);
    var t := Apply(c, s, Fetch(id, o));
    assert s.flights[f := s.flights[f]] == s.flights;
    KeepLeader(c, s, id, t.procs[id], s.flights[f]);
  }

  /** One action keeps the flight on its way to settlement. */
  lemma PerformOk(c: Config, f: nat, fl: Flight, p: Proc)
    requires p.pc.Running? && p.pc.actions != [] && FlightOk(c, f, fl, p)
    ensures var fl' := Perform(fl, p.pc.actions[0]);
            && FlightOk(c, f, fl', p.(pc := p.pc.(actions := p.pc.actions[1..])))
            && Grows(fl, fl')
  {}

  lemma KeepAct(c: Config, s: State, id: nat)
    requires Inv(c, s) && Enabled(c, s, Act(id))
    ensures Inv(c, Apply(c, s, Act(id)))
  {
    var f := s.procs[id].pc.flight;
    LeaderFacts(c, s, id);
    PerformOk(c, f, s.flights[f], s.procs[id]);
    var t := Apply(c, s, Act(id));
    KeepLeader(c, s, id, t.procs[id], t.flights[f]);
  }

  lemma KeepDrop(c: Config, s: State, id: nat)
    requires Inv(c, s) && Enabled(c, s, DropEntry(id))
    ensures Inv(c, Apply(c, s, DropEntry(id)))
  {
    LeaderFacts(c, s, id);
    LeadsOne(c, s, id);
    DropRest(c, s.procs, s.flights, id);
    DropTable(s, Apply(c, s, DropEntry(id)), id);
  }

  /** Deleting the entry changes neither flights nor requests beyond the note that it is gone. */
  lemma DropRest(c: Config, procs: map<nat, Proc>, flights: seq<Flight>, id: nat)
    requires FlightsOk(c, procs, flights) && ProcsOk(c, procs, flights) && id in procs && procs[id].pc.Running?
    requires var f := procs[id].pc.flight;
             && f < |flights| && flights[f].leader == id
             && (forall g | 0 <= g < |flights| && flights[g].leader == id :: g == f)
    ensures var procs' := procs[id := procs[id].(pc := procs[id].pc.(entry := false))];
            FlightsOk(c, procs', flights) && ProcsOk(c, procs', flights)
  {
    var f := procs[id].pc.flight;
    var p := procs[id].(pc := procs[id].pc.(entry := false));
    assert FlightOk(c, f, flights[f], procs[flights[f].leader]);
    assert flights[f := flights[f]] == flights;
    FlightsFrame(c, procs, flights, id, p, f, flights[f]);
    assert ProcOk(c, id, procs[id], flights);
    ProcsFrame(c, procs, flights, flights, id, p);
  }

  lemma DropTable(s: State, t: State, id: nat)
    requires TableOk(s.procs, s.flights, s.table)
    requires id in s.procs && s.procs[id].pc.Running? && s.procs[id].pc.entry
    requires var f := s.procs[id].pc.flight;
             && f < |s.flights| && s.flights[f].leader == id && s.flights[f].tabled
             && (forall g | 0 <= g < |s.flights| && s.flights[g].leader == id :: g == f)
             && t == State(s.procs[id := s.procs[id].(pc := s.procs[id].pc.(entry := false))], s.flights,
                           s.table - {s.flights[f].key})
    ensures TableOk(t.procs, t.flights, t.table)
  {
    var f := s.procs[id].pc.flight;
    assert Pending(s.procs, s.flights, f);
    forall g: nat ensures Pending(t.procs, t.flights, g) <==> Pending(s.procs, s.flights, g) && g != f {}
  }

  lemma KeepReturn(c: Config, s: State, id: nat)
    requires Inv(c, s) && Enabled(c, s, Return(id))
    ensures Inv(c, Apply(c, s, Return(id)))
  {
    var f := s.procs[id].pc.flight;
    LeaderFacts(c, s, id);
    var t := Apply(c, s, Return(id));
    assert s.flights[f := s.flights[f]] == s.flights;
    KeepLeader(c, s, id, t.procs[id], s.flights[f]);
  }

  lemma KeepWake(c: Config, s: State, id: nat)
    requires Inv(c, s) && Enabled(c, s, Wake(id))
    ensures Inv(c, WakeUp(s, id))
  {
    var p := s.procs[id];
    assert ProcOk(c, id, p, s.flights);
    if Result(s.flights[p.pc.flight]) == Failed(Unshareable) && !p.pc.fill {
      KeepLead(c, s, id, FlightKey(ZeroKey, false), false);
    } else {
      WakeOk(c, s, id);
      KeepMove(c, s, id, WakeUp(s, id).procs[id]);
    }
  }

  lemma WakeOk(c: Config, s: State, id: nat)
    requires id in s.procs && ProcOk(c, id, s.procs[id], s.flights) && Enabled(c, s, Wake(id))
    ensures var v := Result(s.flights[s.procs[id].pc.flight]);
            s.procs[id].pc.fill || v != Failed(Unshareable) ==>
            && WakeUp(s, id) == s.(procs := s.procs[id := WakeUp(s, id).procs[id]])
            && ProcOk(c, id, WakeUp(s, id).procs[id], s.flights)
  {}

  lemma KeepsInv(c: Config, s: State, e: Event)
    requires Inv(c, s) && Enabled(c, s, e)
    ensures Inv(c, Apply(c, s, e))
  {
    match e
    case Arrive(id, req) => KeepArrive(c, s, id, req);
    case Serve(id) =>
      assert ProcOk(c, id, s.procs[id], s.flights);
      KeepMove(c, s, id, s.procs[id].(pc := Finished(Served)));
    case Enter(id, probe, memo) => KeepEnter(c, s, id, probe, memo);
    case Count(id) => KeepCountIn(c, s, id);
    case Fetch(id, o) => KeepFetch(c, s, id, o);
    case Act(id) => KeepAct(c, s, id);
    case DropEntry(id) => KeepDrop(c, s, id);
    case Return(id) => KeepReturn(c, s, id);
    case Wake(id) => KeepWake(c, s, id);
  }

  lemma {:induction false} RunKeepsInv(c: Config, s: State, events: seq<Event>, t: State)
    requires Inv(c, s) && Reaches(c, s, events, t)
    ensures Inv(c, t)
    decreases |events|
  {
    if events != [] {
      KeepsInv(c, s, events[0]);
      RunKeepsInv(c, Apply(c, s, events[0]), events[1..], t);
    }
  }

  lemma StartOk(c: Config)
    ensures Inv(c, Start)
  {}

  lemma ReachableOk(c: Config, s: State)
    requires Reachable(c, s)
    ensures Inv(c, s)
  {
    var events :| Reaches(c, Start, events, s);
    StartOk(c);
    RunKeepsInv(c, Start, events, s);
  }

  // ---- Main results ----

  /** A key to share under comes only from an eligible request, out of its own space. */
  lemma SharedKeyShape(c: Config, r: Request, probe: Probe)
    requires KeysInPlay(c, r, probe)
    ensures var k := FetchFlightKey(c.dims, r, probe);
            k.key != ZeroKey ==> !CollapseDenied(r) && KeyShape(c, k.key, k.fill, IsHeadFlight(r))
  {}

  /** What a request handed another request's bytes is owed. */
  predicate FairShare(c: Config, a: Proc, b: Proc, k: Key) {
    && KeyOf(c, a) == KeyOf(c, b) == FlightKey(k, false)
    && CollapseFlightKey(c.dims, a.req, a.via) == CollapseFlightKey(c.dims, b.req, b.via)
    && IsHeadFlight(a.req) == IsHeadFlight(b.req)
    && !CollapseDenied(a.req) && !CollapseDenied(b.req)
    && a.req.authorization == b.req.authorization == "" && a.req.cookie == b.req.cookie == ""
  }

  /** The deferred delete removes the leader's own entry and no other. */
  lemma DeleteRemovesOwnEntry(c: Config, s: State, id: nat)
    requires Reachable(c, s) && Enabled(c, s, DropEntry(id))
    ensures var f := s.procs[id].pc.flight;
            && f < |s.flights| && s.flights[f].leader == id
            && s.flights[f].key in s.table && s.table[s.flights[f].key] == f
            && Apply(c, s, DropEntry(id)).table == s.table - {s.flights[f].key}
  {
    ReachableOk(c, s);
    LeaderFacts(c, s, id);
    assert Pending(s.procs, s.flights, s.procs[id].pc.flight);
  }

  /** In every reachable state, whoever was handed bytes got them from a leader whose
      lookup gave the same flight key as its own, of its own HEAD class, with no credentials on
      either side, and the bytes set no client state. The flight was not a fill flight. */
  lemma HandedBytesAreShareable(c: Config, s: State, id: nat)
    requires SpacesDisjoint(c) && Reachable(c, s)
    requires id in s.procs && s.procs[id].pc.Finished? && s.procs[id].pc.outcome.Handed?
    ensures var f := s.procs[id].pc.outcome.flight;
            && f < |s.flights| && s.flights[f].leader in s.procs
            && FairShare(c, s.procs[id], s.procs[s.flights[f].leader], s.flights[f].key)
            && !s.flights[f].fill
            && |s.flights[f].res| == 1 && s.flights[f].res[0].Bytes? && !s.flights[f].res[0].clientState
  {
    ReachableOk(c, s);
    var p := s.procs[id];
    var f := p.pc.outcome.flight;
    assert ProcOk(c, id, p, s.flights);
    var fl := s.flights[f];
    var leader := s.procs[fl.leader];
    assert FlightOk(c, f, fl, leader);
    OnceEach(c, s, f);
    DerivedKind(c, p, leader, FlightKey(fl.key, false), FlightKey(fl.key, fl.fill));
    SameBase(c, p, leader);
  }

  /** Two requests that park under one key are both eligible and of one kind. */
  lemma DerivedKind(c: Config, a: Proc, b: Proc, k: FlightKey, l: FlightKey)
    requires SpacesDisjoint(c) && k.key == l.key != ZeroKey
    requires Derives(c, a, k) && Derives(c, b, l)
    ensures k.fill == l.fill && !CollapseDenied(a.req) && !CollapseDenied(b.req)
    ensures !k.fill ==> IsHeadFlight(a.req) == IsHeadFlight(b.req)
  {
    SharedKeyShape(c, a.req, a.via);
    SharedKeyShape(c, b.req, b.via);
    SameKeySameKind(c, k.key, k.fill, IsHeadFlight(a.req), l.fill, IsHeadFlight(b.req));
  }

  /** Equal hand-off keys of one HEAD class come from equal untagged keys. */
  lemma SameBase(c: Config, a: Proc, b: Proc)
    requires KeyOf(c, a) == KeyOf(c, b) && !KeyOf(c, a).fill && KeyOf(c, a).key != ZeroKey
    requires IsHeadFlight(a.req) == IsHeadFlight(b.req)
    ensures CollapseFlightKey(c.dims, a.req, a.via) == CollapseFlightKey(c.dims, b.req, b.via)
  {
    TagsAreBijections(CollapseFlightKey(c.dims, a.req, a.via));
    TagsAreBijections(CollapseFlightKey(c.dims, b.req, b.via));
  }

  function ViaOf(s: State, id: nat): Probe {
    if id in s.procs then s.procs[id].via else NoProbe
  }

  /** The lookup of the last miss of `id` in the run. */
  function LastLookup(events: seq<Event>, id: nat, before: Probe): Probe {
    if events == [] then before
    else
      var e := events[0];
      LastLookup(events[1..], id, if e.Enter? && e.id == id then e.probe else before)
  }

  lemma LookupStep(c: Config, s: State, e: Event, id: nat)
    requires Enabled(c, s, e)
    ensures ViaOf(Apply(c, s, e), id) == if e.Enter? && e.id == id then e.probe else ViaOf(s, id)
  {}

  /** What a request notes is the lookup it last entered the miss path with, in every run. */
  lemma {:induction false} ViaIsLastLookup(c: Config, s: State, events: seq<Event>, t: State, id: nat)
    requires Reaches(c, s, events, t)
    ensures ViaOf(t, id) == LastLookup(events, id, ViaOf(s, id))
    decreases |events|
  {
    if events != [] {
      LookupStep(c, s, events[0], id);
      ViaIsLastLookup(c, Apply(c, s, events[0]), events[1..], t, id);
    }
  }

  /** A fill-flight follower is never handed bytes, re-enters at most once and never
      parks again afterwards. */
  lemma FillFollowersReenterOnce(c: Config, s: State, id: nat)
    requires Reachable(c, s) && id in s.procs
    ensures s.procs[id].reentries <= 1
    ensures s.procs[id].parkedOnFill ==> !(s.procs[id].pc.Finished? && s.procs[id].pc.outcome.Handed?)
    ensures s.procs[id].pc.Loaded? || s.procs[id].pc.Parked? ==>
              s.procs[id].reentries == 0 && s.procs[id].parkedOnFill == s.procs[id].pc.fill
  {
    ReachableOk(c, s);
    assert ProcOk(c, id, s.procs[id], s.flights);
  }

  lemma SettlesBounds(writes: nat, done: nat, stored: nat, actions: seq<Action>)
    requires Settles(writes, done, stored, actions)
    ensures writes <= 1 && done <= writes && stored <= done
    ensures stored == 1 ==> actions == []
  {}

  /** Each channel is closed at most once, after the one write of the result; a leader
      that has returned closed both exactly once; and nothing is stored after `stored`
      closes. */
  lemma OnceEach(c: Config, s: State, f: nat)
    requires Inv(c, s) && f < |s.flights|
    ensures var fl := s.flights[f];
            && |fl.res| <= 1 && fl.doneCloses <= |fl.res| && fl.storedCloses <= fl.doneCloses
            && fl.leader in s.procs
            && (s.procs[fl.leader].pc.Finished? ==> fl.doneCloses == 1 && fl.storedCloses == 1)
            && (s.procs[fl.leader].pc.Running? && fl.storedCloses == 1
                ==> StoreObject !in s.procs[fl.leader].pc.actions)
  {
    var fl := s.flights[f];
    var p := s.procs[fl.leader];
    assert FlightOk(c, f, fl, p);
    if p.pc.Running? { SettlesBounds(|fl.res|, fl.doneCloses, fl.storedCloses, p.pc.actions); }
  }

  lemma EveryFlightSettlesOnce(c: Config, s: State, f: nat)
    requires Reachable(c, s) && f < |s.flights|
    ensures var fl := s.flights[f];
            && |fl.res| <= 1 && fl.doneCloses <= |fl.res| && fl.storedCloses <= fl.doneCloses
            && fl.leader in s.procs
            && (s.procs[fl.leader].pc.Finished? ==> fl.doneCloses == 1 && fl.storedCloses == 1)
            && (s.procs[fl.leader].pc.Running? && fl.storedCloses == 1
                ==> StoreObject !in s.procs[fl.leader].pc.actions)
  {
    ReachableOk(c, s);
    OnceEach(c, s, f);
  }

  // ---- Release: no follower waits for ever ----

  /** Actions the leader still owes before its flight is settled. */
  ghost function Owed(s: State, f: nat): nat
    requires f < |s.flights| && s.flights[f].leader in s.procs
  {
    match s.procs[s.flights[f].leader].pc
    case Fetching(_) => 5
    case Running(_, actions, _, _) => |actions|
    case _ => 0
  }

  predicate Works(e: Event, leader: nat) {
    (e.Fetch? || e.Act?) && e.id == leader
  }

  ghost function WorkCount(events: seq<Event>, leader: nat): nat {
    if events == [] then 0
    else (if Works(events[0], leader) then 1 else 0) + WorkCount(events[1..], leader)
  }

  /** Nobody but the leader delays settlement, and each of its own steps brings it closer. */
  lemma OwedStep(c: Config, s: State, e: Event, f: nat)
    requires Inv(c, s) && Enabled(c, s, e) && f < |s.flights|
    ensures var t := Apply(c, s, e);
            && AllGrow(s.flights, t.flights) && t.flights[f].leader in t.procs
            && Owed(t, f) <= Owed(s, f)
            && (Works(e, s.flights[f].leader) ==> Owed(t, f) < Owed(s, f))
  {
    EventGrows(c, s, e);
    var leader := s.flights[f].leader;
    assert FlightOk(c, f, s.flights[f], s.procs[leader]);
    if e.id == leader {
      if e.Fetch? { MissIsShort(IsHeadFlight(s.procs[e.id].req), e.outcome); }
    } else {
      OthersStay(c, s, e, leader);
    }
  }

  /** An event moves only its own request. */
  lemma OthersStay(c: Config, s: State, e: Event, id: nat)
    requires Enabled(c, s, e) && id in s.procs && id != e.id
    ensures id in Apply(c, s, e).procs && Apply(c, s, e).procs[id] == s.procs[id]
  {}

  /** No event undoes what a flight already shows. */
  lemma EventGrows(c: Config, s: State, e: Event)
    requires Inv(c, s) && Enabled(c, s, e)
    ensures AllGrow(s.flights, Apply(c, s, e).flights)
  {
    match e
    case Act(id) => ActGrows(c, s, id);
    case Enter(id, probe, memo) => EnterGrows(c, s, id, probe, memo);
    case Count(id) => CountGrows(s, id);
    case Wake(id) => WakeGrows(s, id);
    case _ =>
  }

  lemma ActGrows(c: Config, s: State, id: nat)
    requires Inv(c, s) && Enabled(c, s, Act(id))
    ensures AllGrow(s.flights, Apply(c, s, Act(id)).flights)
  {
    LeaderFacts(c, s, id);
    PerformOk(c, s.procs[id].pc.flight, s.flights[s.procs[id].pc.flight], s.procs[id]);
  }

  lemma CountGrows(s: State, id: nat)
    requires id in s.procs && s.procs[id].pc.Loaded?
    ensures AllGrow(s.flights, CountIn(s, id).flights)
  {}

  lemma WakeGrows(s: State, id: nat)
    requires id in s.procs && s.procs[id].pc.Parked? && s.procs[id].pc.flight < |s.flights|
    ensures AllGrow(s.flights, WakeUp(s, id).flights)
  {}

  lemma EnterGrows(c: Config, s: State, id: nat, probe: Probe, memo: bool)
    requires id in s.procs
    ensures AllGrow(s.flights, EnterMiss(c, s, id, probe, memo).flights)
  {}

  /** An unsettled flight's leader can always take its next step, whatever the others do. */
  lemma LeaderNeverBlocks(c: Config, s: State, f: nat, o: Outcome)
    requires Reachable(c, s) && f < |s.flights|
    requires s.flights[f].doneCloses == 0 || s.flights[f].storedCloses == 0
    ensures var leader := s.flights[f].leader;
            Enabled(c, s, Fetch(leader, o)) || Enabled(c, s, Act(leader))
  {
    ReachableOk(c, s);
    assert FlightOk(c, f, s.flights[f], s.procs[s.flights[f].leader]);
  }

  lemma {:induction false} RunOwed(c: Config, s: State, events: seq<Event>, t: State, f: nat)
    requires Inv(c, s) && Reaches(c, s, events, t) && f < |s.flights|
    ensures Inv(c, t) && AllGrow(s.flights, t.flights)
    ensures Owed(t, f) + WorkCount(events, s.flights[f].leader) <= Owed(s, f)
    decreases |events|
  {
    if events != [] {
      var s1 := Apply(c, s, events[0]);
      KeepsInv(c, s, events[0]);
      OwedStep(c, s, events[0], f);
      RunOwed(c, s1, events[1..], t, f);
      AllGrowTransitive(s.flights, s1.flights, t.flights);
    }
  }

  lemma AllGrowTransitive(a: seq<Flight>, b: seq<Flight>, d: seq<Flight>)
    requires AllGrow(a, b) && AllGrow(b, d)
    ensures AllGrow(a, d)
  {}

  /** Both channels closed, and every follower still parked on the flight can wake. */
  ghost predicate Released(c: Config, t: State, f: nat) {
    && f < |t.flights| && t.flights[f].doneCloses == 1 && t.flights[f].storedCloses == 1
    && forall id | id in t.procs && t.procs[id].pc.Parked? && t.procs[id].pc.flight == f :: Enabled(c, t, Wake(id))
  }

  /** Every run, whatever the verdict, either releases the flight's followers, or its leader has
      taken fewer steps than it owed at the start, at most five, and its next one is enabled. */
  lemma FollowersAreReleased(c: Config, s: State, events: seq<Event>, t: State, f: nat, o: Outcome)
    requires Reachable(c, s) && Reaches(c, s, events, t) && f < |s.flights|
    ensures s.flights[f].leader in s.procs
    ensures var leader := s.flights[f].leader;
            || Released(c, t, f)
            || (WorkCount(events, leader) < Owed(s, f) <= 5
                && (Enabled(c, t, Fetch(leader, o)) || Enabled(c, t, Act(leader))))
  {
    ReachableOk(c, s);
    RunOwed(c, s, events, t, f);
    OwedAtMostFive(c, s, f);
    ReleasedOrBusy(c, t, f, o);
  }

  lemma ReleasedOrBusy(c: Config, t: State, f: nat, o: Outcome)
    requires Inv(c, t) && f < |t.flights|
    ensures Owed(t, f) == 0 ==> Released(c, t, f)
    ensures var leader := t.flights[f].leader;
            Owed(t, f) > 0 ==> Enabled(c, t, Fetch(leader, o)) || Enabled(c, t, Act(leader))
  {
    assert FlightOk(c, f, t.flights[f], t.procs[t.flights[f].leader]);
    if Owed(t, f) == 0 { SettledWhenNothingOwed(c, t, f); }
  }

  /** What the leader owes once the origin has answered is the length of its script, so as many
      steps of its own release the followers of a failed, refused or stored fetch alike. */
  lemma ScriptReleases(c: Config, s: State, o: Outcome, events: seq<Event>, t: State, f: nat)
    requires Reachable(c, s) && f < |s.flights| && s.flights[f].leader in s.procs
    requires var leader := s.flights[f].leader;
             && Enabled(c, s, Fetch(leader, o)) && Reaches(c, Apply(c, s, Fetch(leader, o)), events, t)
             && WorkCount(events, leader) >= |Miss(IsHeadFlight(s.procs[leader].req), o).actions|
    ensures Released(c, t, f)
  {
    var leader := s.flights[f].leader;
    var s1 := Apply(c, s, Fetch(leader, o));
    ReachableThen(c, s, Fetch(leader, o));
    FollowersAreReleased(c, s1, events, t, f, o);
  }

  lemma OwedAtMostFive(c: Config, s: State, f: nat)
    requires Inv(c, s) && f < |s.flights|
    ensures Owed(s, f) <= 5
  {
    assert FlightOk(c, f, s.flights[f], s.procs[s.flights[f].leader]);
  }

  lemma SettledWhenNothingOwed(c: Config, t: State, f: nat)
    requires Inv(c, t) && f < |t.flights| && Owed(t, f) == 0
    ensures t.flights[f].doneCloses == 1 && t.flights[f].storedCloses == 1
  {
    assert FlightOk(c, f, t.flights[f], t.procs[t.flights[f].leader]);
  }

  /** Every follower of one flight reads the same verdict: once `done` is closed the
      result is final. */
  lemma VerdictIsFinal(c: Config, s: State, events: seq<Event>, t: State, f: nat)
    requires Reachable(c, s) && Reaches(c, s, events, t) && f < |s.flights| && s.flights[f].doneCloses > 0
    ensures f < |t.flights| && t.flights[f].res == s.flights[f].res
  {
    ReachableOk(c, s);
    RunOwed(c, s, events, t, f);
  }

  // ---- The header map a follower reads ----

  /** The result hands out the very map the store path goes on mutating. */
  predicate Aliased(fl: Flight) {
    fl.res != [] && Result(fl).Bytes? && Result(fl).aliased
  }

  /** The leader of `f` is about to publish its bytes. */
  predicate Publishes(s: State, id: nat, cs: bool, mutable: bool) {
    && id in s.procs && s.procs[id].pc.Running? && s.procs[id].pc.actions != []
    && s.procs[id].pc.actions[0] == PublishBytes(cs, mutable)
  }

  /** The request was counted in on flight `f` and not sent elsewhere since. */
  predicate Counted(s: State, id: nat, f: nat) {
    && id in s.procs
    && ((s.procs[id].pc.Parked? && s.procs[id].pc.flight == f) || s.procs[id].pc == Finished(Handed(f)))
  }

  /** The published map is the one the store path goes on mutating exactly when it is a mutable
      one and nobody was counted in at the moment of publication. */
  lemma SharedMapExactlyWhenLate(c: Config, s: State, id: nat, cs: bool, mutable: bool, events: seq<Event>, t: State)
    requires Reachable(c, s) && Publishes(s, id, cs, mutable) && Reaches(c, Apply(c, s, Act(id)), events, t)
    ensures var f := s.procs[id].pc.flight;
            && f < |s.flights| && f < |t.flights|
            && (mutable ==> StoreObject in s.procs[id].pc.actions)
            && (Aliased(t.flights[f]) <==> mutable && s.flights[f].followers == 0)
  {
    ReachableOk(c, s);
    LeaderFacts(c, s, id);
    var f := s.procs[id].pc.flight;
    PublishedOnce(c, s, id, cs, mutable);
    KeepsInv(c, s, Act(id));
    ResultStays(c, Apply(c, s, Act(id)), events, t, f);
  }

  /** A follower handed that map was counted in after the publication; and a flight's only
      follower is handed it exactly then. */
  lemma SharedMapMeansCountedLater(c: Config, s: State, id: nat, cs: bool, mutable: bool, events: seq<Event>,
          t: State, who: nat)
    requires Reachable(c, s) && Publishes(s, id, cs, mutable) && Reaches(c, Apply(c, s, Act(id)), events, t)
    requires Counted(t, who, s.procs[id].pc.flight)
    ensures var f := s.procs[id].pc.flight;
            && f < |s.flights| && f < |t.flights|
            && (Aliased(t.flights[f]) ==> !Counted(s, who, f))
            && (t.flights[f].followers == 1 ==> (Aliased(t.flights[f]) <==> mutable && !Counted(s, who, f)))
  {
    SharedMapExactlyWhenLate(c, s, id, cs, mutable, events, t);
    var f := s.procs[id].pc.flight;
    ReachableOk(c, s);
    LeaderFacts(c, s, id);
    PublishedOnce(c, s, id, cs, mutable);
    assert who in s.procs ==> ProcOk(c, who, s.procs[who], s.flights);
    assert Counted(s, who, f) ==> s.flights[f].followers > 0;
    KeepsInv(c, s, Act(id));
    CountsAdd(c, Apply(c, s, Act(id)), events, t, who, f);
  }

  /** Nothing was published before, and followers are as they were. */
  lemma PublishedOnce(c: Config, s: State, id: nat, cs: bool, mutable: bool)
    requires Inv(c, s) && Publishes(s, id, cs, mutable)
    requires s.procs[id].pc.flight < |s.flights|
    requires FlightOk(c, s.procs[id].pc.flight, s.flights[s.procs[id].pc.flight], s.procs[id])
    ensures var f, t := s.procs[id].pc.flight, Apply(c, s, Act(id));
            && s.flights[f].res == [] && s.flights[f].doneCloses == 0
            && t.flights[f].res == [Bytes(cs, mutable && s.flights[f].followers == 0)]
            && t.flights[f].followers == s.flights[f].followers
            && forall who :: Counted(t, who, f) <==> Counted(s, who, f)
  {
    var fl := s.flights[s.procs[id].pc.flight];
    assert [] + [Bytes(cs, mutable && fl.followers == 0)] == [Bytes(cs, mutable && fl.followers == 0)];
  }

  lemma OnlyActPublishes(c: Config, s: State, e: Event, f: nat)
    requires Enabled(c, s, e) && !e.Act? && f < |s.flights|
    ensures f < |Apply(c, s, e).flights| && Apply(c, s, e).flights[f].res == s.flights[f].res
  {}

  lemma ResultStep(c: Config, s: State, e: Event, f: nat)
    requires Inv(c, s) && Enabled(c, s, e) && f < |s.flights| && s.flights[f].res != []
    ensures f < |Apply(c, s, e).flights| && Apply(c, s, e).flights[f].res == s.flights[f].res
  {
    if e.Act? {
      LeaderFacts(c, s, e.id);
    } else {
      OnlyActPublishes(c, s, e, f);
    }
  }

  lemma {:induction false} ResultStays(c: Config, s: State, events: seq<Event>, t: State, f: nat)
    requires Inv(c, s) && Reaches(c, s, events, t) && f < |s.flights| && s.flights[f].res != []
    ensures f < |t.flights| && t.flights[f].res == s.flights[f].res
    decreases |events|
  {
    if events != [] {
      KeepsInv(c, s, events[0]);
      ResultStep(c, s, events[0], f);
      ResultStays(c, Apply(c, s, events[0]), events[1..], t, f);
    }
  }

  /** Being counted in shows in the follower count. */
  lemma CountStep(c: Config, s: State, e: Event, who: nat, f: nat)
    requires Inv(c, s) && Enabled(c, s, e) && f < |s.flights|
    ensures var t := Apply(c, s, e);
            && f < |t.flights| && t.flights[f].followers >= s.flights[f].followers
            && (Counted(t, who, f) && !Counted(s, who, f) ==> t.flights[f].followers > s.flights[f].followers)
  {
    EventGrows(c, s, e);
    if e.id != who {
      OthersUncounted(c, s, e, who, f);
    } else if !Counted(s, who, f) {
      OwnStepCounts(c, s, e, f);
    }
  }

  lemma OthersUncounted(c: Config, s: State, e: Event, who: nat, f: nat)
    requires Enabled(c, s, e) && e.id != who
    ensures Counted(Apply(c, s, e), who, f) ==> Counted(s, who, f)
  {
    if who in s.procs { OthersStay(c, s, e, who); }
  }

  lemma OwnStepCounts(c: Config, s: State, e: Event, f: nat)
    requires Enabled(c, s, e) && f < |s.flights| && !Counted(s, e.id, f)
    ensures var t := Apply(c, s, e);
            Counted(t, e.id, f) ==> f < |t.flights| && t.flights[f].followers > s.flights[f].followers
  {}

  lemma {:induction false} CountsAdd(c: Config, s: State, events: seq<Event>, t: State, who: nat, f: nat)
    requires Inv(c, s) && Reaches(c, s, events, t) && f < |s.flights|
    ensures f < |t.flights| && t.flights[f].followers >= s.flights[f].followers
    ensures Counted(t, who, f) && !Counted(s, who, f) ==> t.flights[f].followers > s.flights[f].followers
    decreases |events|
  {
    if events != [] {
      KeepsInv(c, s, events[0]);
      CountStep(c, s, events[0], who, f);
      CountsAdd(c, Apply(c, s, events[0]), events[1..], t, who, f);
    }
  }

  lemma {:induction false} ReachesThen(c: Config, s: State, events: seq<Event>, t: State, e: Event)
    requires Reaches(c, s, events, t) && Enabled(c, t, e)
    ensures Reaches(c, s, events + [e], Apply(c, t, e))
    decreases |events|
  {
    if events == [] {
      assert [e][1..] == [];
    } else {
      ReachesThen(c, Apply(c, s, events[0]), events[1..], t, e);
      assert (events + [e])[1..] == events[1..] + [e];
    }
  }

  lemma ReachableThen(c: Config, s: State, e: Event)
    requires Reachable(c, s) && Enabled(c, s, e)
    ensures Reachable(c, Apply(c, s, e))
  {
    var events :| Reaches(c, Start, events, s);
    ReachesThen(c, Start, events, s, e);
  }

  /** The promise that a follower never reads a map under mutation fails: a follower that found
      the flight before its bytes were published, but was counted in only after the shard lock
      was released and the bytes published, is handed the aliased map while the leader's store is
      still to run. */
  lemma LateFollowerReadsTheStoreMap() returns (c: Config, before: State, events: seq<Event>, s: State)
    ensures SpacesDisjoint(c) && Reachable(c, before) && Reaches(c, before, events, s)
    ensures Publishes(before, 0, false, true) && 1 in before.procs && before.procs[1].pc.Loaded?
    ensures 0 in s.procs && 1 in s.procs && |s.flights| == 1
    ensures s.procs[1].pc == Finished(Handed(0)) && Aliased(s.flights[0])
    ensures s.procs[0].pc.Running? && StoreObject in s.procs[0].pc.actions
  {
    var base := Key(0, 2);
    c := Config(true, {base}, {Key(0, 1)});
    Xor(base.hi, HEAD_SUFFIX, 0);
    assert SpacesDisjoint(c);
    var r, cold := Request("GET", "", "", "", Key(0, 1), base), Probe(Key(0, 1), false);
    before := BothInFlight(c, r, cold);
    events := [Act(0), Act(0), Count(1), Wake(1)];
    s := FollowerIsLate(c, r, cold, before);
  }

  const Storing := [PublishBytes(false, true), CloseDone, StoreObject, CloseStored]

  /** A leader, a follower and their flight. */
  function Pair(r: Request, via: Probe, actions: seq<Action>, follower: Pc, fl: Flight): State {
    State(map[0 := Proc(r, via, Running(0, actions, false, true), 0, false), 1 := Proc(r, via, follower, 0, false)],
          [fl], map[fl.key := 0])
  }

  function FreshFlight(k: Key): Flight {
    Flight(k, false, true, 0, [], 0, 0, 0)
  }

  /** The leader has its answer, the follower has found the flight and is not counted yet. */
  lemma BothInFlight(c: Config, r: Request, probe: Probe) returns (s: State)
    requires !CollapseDenied(r) && !IsHeadFlight(r) && KeysInPlay(c, r, probe) && !FetchFlightKey(c.dims, r, probe).fill
    requires FetchFlightKey(c.dims, r, probe).key != ZeroKey
    ensures Reachable(c, s)
    ensures var k := FetchFlightKey(c.dims, r, probe).key;
            s == Pair(r, probe, Storing, Loaded(0, k, false), FreshFlight(k))
  {
    var s1 := LeaderFetches(c, r, probe);
    ReachableThen(c, s1, Arrive(1, r));
    var s2 := Apply(c, s1, Arrive(1, r));
    ReachableThen(c, s2, Enter(1, probe, false));
    s := Apply(c, s2, Enter(1, probe, false));
  }

  lemma LeaderFetches(c: Config, r: Request, probe: Probe) returns (s: State)
    requires !CollapseDenied(r) && !IsHeadFlight(r) && KeysInPlay(c, r, probe) && !FetchFlightKey(c.dims, r, probe).fill
    requires FetchFlightKey(c.dims, r, probe).key != ZeroKey
    ensures Reachable(c, s)
    ensures var k := FetchFlightKey(c.dims, r, probe).key;
            s == State(map[0 := Proc(r, probe, Running(0, Storing, false, true), 0, false)],
                       [FreshFlight(k)], map[k := 0])
  {
    var o := Answer(true, false, true, false, false, false, false, true, true, false, true);
    assert Reaches(c, Start, [], Start);
    ReachableThen(c, Start, Arrive(0, r));
    var s1 := Apply(c, Start, Arrive(0, r));
    ReachableThen(c, s1, Enter(0, probe, false));
    var s2 := Apply(c, s1, Enter(0, probe, false));
    assert s2.flights == [FreshFlight(FetchFlightKey(c.dims, r, probe).key)];
    ReachableThen(c, s2, Fetch(0, o));
    s := Apply(c, s2, Fetch(0, o));
    assert Miss(false, o).actions == Storing;
  }

  /** The leader publishes and closes `done`; only then is the follower counted in and woken. */
  lemma FollowerIsLate(c: Config, r: Request, via: Probe, before: State) returns (s: State)
    requires |before.flights| == 1 && before.flights[0].res == [] && before.flights[0].followers == 0
    requires var fl := before.flights[0];
             before == Pair(r, via, Storing, Loaded(0, fl.key, false), fl) && fl.doneCloses == 0
    ensures Reaches(c, before, [Act(0), Act(0), Count(1), Wake(1)], s)
    ensures s.procs.Keys == {0, 1} && |s.flights| == 1 && s.procs[1].pc == Finished(Handed(0)) && Aliased(s.flights[0])
    ensures s.procs[0].pc.Running? && StoreObject in s.procs[0].pc.actions
  {
    var fl := before.flights[0];
    var fl1 := fl.(res := [Bytes(false, true)]);
    var pc := Loaded(0, fl.key, false);
    PairActs(c, r, via, Storing, pc, fl);
    assert Perform(fl, Storing[0]) == fl1 by { assert [] + [Bytes(false, true)] == [Bytes(false, true)]; }
    PairActs(c, r, via, Storing[1..], pc, fl1);
    assert Storing[1..][1..] == [StoreObject, CloseStored];
    s := CountAndWake(c, r, via, Pair(r, via, [StoreObject, CloseStored], pc, fl1.(doneCloses := 1)));
    assert [Act(0), Act(0), Count(1), Wake(1)][1..] == [Act(0), Count(1), Wake(1)];
    assert [Act(0), Count(1), Wake(1)][1..] == [Count(1), Wake(1)];
  }

  lemma PairActs(c: Config, r: Request, via: Probe, actions: seq<Action>, pc: Pc, fl: Flight)
    requires actions != []
    ensures var s := Pair(r, via, actions, pc, fl);
            Enabled(c, s, Act(0)) && Apply(c, s, Act(0)) == Pair(r, via, actions[1..], pc, Perform(fl, actions[0]))
  {}

  lemma CountAndWake(c: Config, r: Request, via: Probe, s0: State) returns (s: State)
    requires |s0.flights| == 1 && s0.flights[0].res == [Bytes(false, true)] && s0.flights[0].doneCloses == 1
    requires var fl := s0.flights[0];
             s0 == Pair(r, via, [StoreObject, CloseStored], Loaded(0, fl.key, false), fl)
    ensures Reaches(c, s0, [Count(1), Wake(1)], s)
    ensures s.procs == s0.procs[1 := Proc(r, via, Finished(Handed(0)), 0, false)]
    ensures |s.flights| == 1 && Aliased(s.flights[0])
  {
    var s1 := Apply(c, s0, Count(1));
    s := Apply(c, s1, Wake(1));
    var es := [Count(1), Wake(1)];
    assert es[1..] == [Wake(1)] && [Wake(1)][1..] == [];
    assert Reaches(c, s1, [Wake(1)], s);
  }
}
