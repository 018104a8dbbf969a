/**
  The outgoing side of a connection: identifiers in flight, the order in which their
  acknowledgements are expected, and senders waiting for credit (src/v3/shared.rs,
  src/v3/sink.rs, src/v5/shared.rs, src/v5/sink.rs).
 */
module Sink {
  import opened Wrappers
  import opened Words
  import opened PacketIds

  datatype Kind = PublishKind | SubscribeKind | UnsubscribeKind

  datatype Ack =
    | PublishAck(id: PacketId)
    | SubscribeAck(id: PacketId, status: seq<nat>)
    | UnsubscribeAck(id: PacketId)

  function KindOf(ack: Ack): Kind {
    match ack
    case PublishAck(_) => PublishKind
    case SubscribeAck(_, _) => SubscribeKind
    case UnsubscribeAck(_) => UnsubscribeKind
  }

  /** A packet to send; identifier 0 asks for a generated one. */
  datatype Request = Request(kind: Kind, id: u16)

  /** An identifier in flight: who waits for its acknowledgement, and for which type. */
  datatype Entry = Entry(sender: nat, kind: Kind)

  datatype SendError = Disconnected | PacketIdInUse(id: PacketId)

  datatype Outcome =
    | Failed(error: SendError)
    | Waits(waiter: nat)
    | Sends(id: PacketId, kind: Kind)

  datatype ProtocolError = PacketIdMismatch | Unexpected(got: Kind, expected: Kind)

  datatype Version = V3 | V5

  datatype Registration = Registration(id: PacketId, kind: Kind)

  datatype Delivery = Delivery(sender: nat, ack: Ack)

  /**
    The sink between two atomic steps. A waiter is a future parked for credit; it can still
    be reached through its channel exactly while it is in `parked`, and it is in `woken`
    from the moment its channel was used until it runs again. The last five fields are
    history: senders are numbered in the order they registered an identifier.
   */
  datatype State = State(
    open: bool,
    cap: usize,
    counter: Counter,
    inflight: map<u16, Entry>,
    order: seq<u16>,
    waiters: seq<nat>,
    parked: map<nat, Request>,
    woken: set<nat>,
    nextWaiter: nat,
    registered: seq<Registration>,
    delivered: seq<Delivery>,
    failed: bool,
    generated: nat)

  function Init(cap: usize): State {
    State(true, cap, 0, map[], [], [], map[], {}, 0, [], [], false, 0)
  }

  // ----- Sending

  /** `cap - inflight.len() > 0` on unsigned words. */
  predicate HasCredit(s: State)
    requires |s.inflight| < USIZE
  {
    WrapSub(s.cap, |s.inflight|) > 0
  }

  /** The identifier a request will use. */
  function IdFor(s: State, req: Request): PacketId {
    if req.id == 0 then NextId(s.counter).0 else req.id
  }

  /** Allocates the identifier, registers the sender and hands the packet to the writer. */
  function Register(s: State, req: Request): (State, Outcome) {
    var id := IdFor(s, req);
    var s1 := if req.id == 0 then s.(counter := NextId(s.counter).1, generated := s.generated + 1) else s;
    if id in s.inflight then
      (s1, Failed(PacketIdInUse(id)))
    else
      (s1.(inflight := s.inflight[id := Entry(|s.registered|, req.kind)],
           order := s.order + [id],
           registered := s.registered + [Registration(id, req.kind)]),
       Sends(id, req.kind))
  }

  /** A send that starts now. */
  function Fresh(s: State, req: Request): (State, Outcome)
    requires |s.inflight| < USIZE
  {
    if !s.open then (s, Failed(Disconnected))
    else if !HasCredit(s) then
      (s.(waiters := s.waiters + [s.nextWaiter],
          parked := s.parked[s.nextWaiter := req],
          nextWaiter := s.nextWaiter + 1),
       Waits(s.nextWaiter))
    else Register(s, req)
  }

  /** A woken sender that goes on. */
  function Resume(s: State, w: nat): (State, Outcome)
    requires w in s.woken && w in s.parked
  {
    Register(s.(parked := s.parked - {w}, woken := s.woken - {w}), s.parked[w])
  }

  /** A waiting or woken sender whose future is dropped. */
  function Drop(s: State, w: nat): State {
    s.(parked := s.parked - {w}, woken := s.woken - {w})
  }

  // ----- Acknowledgements

  /** The waiter queue after waking the first waiter that is still reachable. */
  function Wake(waiters: seq<nat>, alive: set<nat>): (r: (seq<nat>, Option<nat>))
    ensures r.1.Some? ==> r.1.value in alive && r.1.value in waiters
  {
    if waiters == [] then ([], None)
    else if waiters[0] in alive then (waiters[1..], Some(waiters[0]))
    else Wake(waiters[1..], alive)
  }

  function WakeOne(s: State): State {
    var (rest, w) := Wake(s.waiters, s.parked.Keys);
    s.(waiters := rest, woken := if w.Some? then s.woken + {w.value} else s.woken)
  }

  /** Every sender still in flight or queued sees its channel closed. */
  function Close(s: State): State {
    s.(open := false,
       inflight := map[],
       waiters := [],
       parked := map w | w in s.parked && w in s.woken :: s.parked[w])
  }

  /** Hands an acknowledgement of the expected identifier to its sender. */
  function Settle(s: State, ack: Ack): (State, Result<(), ProtocolError>)
    requires s.order != [] && s.order[0] == ack.id
  {
    var s1 := s.(order := s.order[1..]);
    if ack.id !in s.inflight then
      (s1, Err(PacketIdMismatch))
    else
      var e := s.inflight[ack.id];
      var s2 := s1.(inflight := s.inflight - {ack.id});
      if KindOf(ack) == e.kind then
        (WakeOne(s2.(delivered := s.delivered + [Delivery(e.sender, ack)])), Ok(()))
      else
        (s2, Err(Unexpected(KindOf(ack), e.kind)))
  }

  /** The version 3 sink checks the order and closes the connection on any error. */
  function AckV3(s: State, ack: Ack): (State, Result<(), ProtocolError>) {
    var (s1, r) :=
      if s.order == [] then (s, Err(PacketIdMismatch))
      else if s.order[0] != ack.id then (s.(order := s.order[1..]), Err(PacketIdMismatch))
      else Settle(s, ack);
    if r.Ok? then (s1, r) else (Close(s1).(failed := true), r)
  }

  /** The version 5 sink skips zeros in the order and reports errors without closing. */
  function AckV5(s: State, ack: Ack): (State, Result<(), ProtocolError>)
    decreases |s.order|
  {
    if s.order == [] then (s.(failed := true), Err(PacketIdMismatch))
    else if s.order[0] == 0 then AckV5(s.(order := s.order[1..]), ack)
    else if s.order[0] != ack.id then (s.(order := s.order[1..], failed := true), Err(PacketIdMismatch))
    else
      var (s1, r) := Settle(s, ack);
      if r.Ok? then (s1, r) else (s1.(failed := true), r)
  }

  function AckIn(v: Version, s: State, ack: Ack): (State, Result<(), ProtocolError>) {
    if v == V3 then AckV3(s, ack) else AckV5(s, ack)
  }

  // ----- Runs

  datatype Event =
    | FreshSend(req: Request)
    | ResumeSend(waiter: nat)
    | DropSend(waiter: nat)
    | AckArrives(ack: Ack)
    | CloseSink

  predicate Enabled(s: State, e: Event) {
    match e
    case FreshSend(_) => |s.inflight| < USIZE
    case ResumeSend(w) => w in s.woken && w in s.parked
    case DropSend(w) => w in s.parked
    case AckArrives(_) => true
    case CloseSink => true
  }

  function Next(v: Version, s: State, e: Event): State
    requires Enabled(s, e)
  {
    match e
    case FreshSend(req) => Fresh(s, req).0
    case ResumeSend(w) => Resume(s, w).0
    case DropSend(w) => Drop(s, w)
    case AckArrives(ack) => AckIn(v, s, ack).0
    case CloseSink => Close(s)
  }

  function Run(v: Version, cap: usize, es: seq<Event>): Option<State> {
    if es == [] then Some(Init(cap))
    else
      var s := Run(v, cap, es[..|es| - 1]);
      var e := es[|es| - 1];
      if s.Some? && Enabled(s.value, e) then Some(Next(v, s.value, e)) else None
  }
}
