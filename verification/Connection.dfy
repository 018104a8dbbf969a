/**
  A client sink, the two directions of a connection, the server's inbound dispatcher and its
  reorder buffer, as one transition system (src/v3/sink.rs, src/v3/client/dispatcher.rs,
  src/v3/dispatcher.rs, src/io.rs; with a receive maximum also src/v5/sink.rs and
  src/v5/dispatcher.rs). Packets are encoded successfully, handlers answer every request,
  and nobody closes the connection.
 */
module Connection {
  import opened Wrappers
  import opened Words
  import opened PacketIds
  import opened Sink
  import Reorder
  import FlowControl

  /** A packet on its way to the server: one that is acknowledged, or any other. */
  datatype Packet = Tracked(id: PacketId, kind: Kind) | Untracked

  datatype Config = Config(version: Version, cap: usize, maxReceive: nat)

  datatype Net = Net(
    client: State,
    forward: seq<Packet>,
    seen: set<u16>,                              // identifiers in flight at the server
    server: Reorder.Dispatch<Option<Ack>>,
    requests: seq<Packet>,                       // history: the packets in the order of the calls
    back: seq<Ack>)

  function Init(cfg: Config): Net {
    Net(Sink.Init(cfg.cap), [], {}, Reorder.Init(), [], [])
  }

  datatype Admission = Accepted | Duplicate | ReceiveMaximumExceeded

  /** What the server does with a packet before it calls a handler. */
  function Admit(cfg: Config, seen: set<u16>, p: Packet): Admission {
    match p
    case Untracked => Accepted
    case Tracked(id, kind) =>
      if kind == PublishKind && cfg.maxReceive != 0 && |seen| >= cfg.maxReceive then ReceiveMaximumExceeded
      else if id in seen then Duplicate
      else Accepted
  }

  /** The replies a handler may give to a request. */
  predicate Answers(p: Packet, reply: Option<Ack>) {
    match p
    case Untracked => reply.None?
    case Tracked(id, kind) => reply.Some? && reply.value.id == id && KindOf(reply.value) == kind
  }

  datatype Event =
    | Client(send: Sink.Event)                        // a send starts, goes on or is dropped
    | SendUntracked
    | Receive(inline: Option<Option<Ack>>)            // the server dispatches the next packet
    | Finish(done: Reorder.Event<Option<Ack>>)        // a handler that was pending answers
    | AckReceived                                     // the client dispatches the next acknowledgement

  /** The unanswered call that a completion event answers. */
  function CallOf(s: Reorder.Dispatch<Option<Ack>>, e: Reorder.Event<Option<Ack>>): nat
    requires (e.CompleteSlot? && s.slot.Some?) || e.CompleteSpawned?
  {
    if e.CompleteSlot? then s.slot.value else e.call
  }

  predicate Enabled(cfg: Config, n: Net, e: Event) {
    match e
    case Client(ce) => !ce.AckArrives? && !ce.CloseSink? && Sink.Enabled(n.client, ce)
    case SendUntracked => true
    case Receive(inline) =>
      && n.forward != [] && Admit(cfg, n.seen, n.forward[0]) == Accepted
      && (inline.Some? ==> Answers(n.forward[0], inline.value))
      && Reorder.Enabled(n.server, if inline.Some? then Reorder.CallInline(inline.value) else Reorder.CallPending)
    case Finish(se) =>
      && (se.CompleteSlot? || se.CompleteSpawned?) && Reorder.Enabled(n.server, se)
      && CallOf(n.server, se) < |n.requests|
      && Answers(n.requests[CallOf(n.server, se)], se.res)
    case AckReceived => n.back != []
  }

  /** The acknowledgements among the replies handed to the writer. */
  function Acks(out: seq<Option<Ack>>): seq<Ack> {
    if out == [] then []
    else (if out[0].Some? then [out[0].value] else []) + Acks(out[1..])
  }

  function Id(p: Packet): set<u16> {
    if p.Tracked? then {p.id} else {}
  }

  function SentBy(o: Outcome): seq<Packet> {
    if o.Sends? then [Tracked(o.id, o.kind)] else []
  }

  function ServerStep(n: Net, e: Reorder.Event<Option<Ack>>): Net
    requires Reorder.Enabled(n.server, e)
  {
    var s := Reorder.Next(n.server, e);
    var out := if |n.server.written| <= |s.written| then s.written[|n.server.written|..] else [];
    n.(server := s, back := n.back + Acks(out))
  }

  function Next(cfg: Config, n: Net, e: Event): Net
    requires Enabled(cfg, n, e)
  {
    match e
    case Client(ce) =>
      var sent := match ce
                  case FreshSend(req) => SentBy(Sink.Fresh(n.client, req).1)
                  case ResumeSend(w) => SentBy(Sink.Resume(n.client, w).1)
                  case _ => [];
      n.(client := Sink.Next(cfg.version, n.client, ce), forward := n.forward + sent)
    case SendUntracked => n.(forward := n.forward + [Untracked])
    case Receive(inline) =>
      var p := n.forward[0];
      var n1 := n.(forward := n.forward[1..], requests := n.requests + [p]);
      if inline.Some? then
        ServerStep(n1, Reorder.CallInline(inline.value))
      else
        ServerStep(n1.(seen := n.seen + Id(p)), Reorder.CallPending)
    case Finish(se) =>
      ServerStep(n.(seen := n.seen - Id(n.requests[CallOf(n.server, se)])), se)
    case AckReceived =>
      n.(client := Sink.AckIn(cfg.version, n.client, n.back[0]).0, back := n.back[1..])
  }

  function Run(cfg: Config, es: seq<Event>): Option<Net> {
    if es == [] then Some(Init(cfg))
    else
      var n := Run(cfg, es[..|es| - 1]);
      var e := es[|es| - 1];
      if n.Some? && Enabled(cfg, n.value, e) then Some(Next(cfg, n.value, e)) else None
  }

  ghost predicate Reachable(cfg: Config, n: Net) {
    exists es :: Run(cfg, es) == Some(n)
  }

  /** No fresh send of the run takes the credit of a woken sender. */
  ghost predicate Polite(cfg: Config, es: seq<Event>)
    requires Run(cfg, es).Some?
  {
    es != [] ==>
      var p := es[..|es| - 1];
      && Polite(cfg, p)
      && (es[|es| - 1].Client? ==> !FlowControl.Overcommits(Run(cfg, p).value.client, es[|es| - 1].send))
  }

  /** Every fresh send of the run finds all woken senders gone on. */
  ghost predicate ResumesFirst(cfg: Config, es: seq<Event>)
    requires Run(cfg, es).Some?
  {
    es != [] ==>
      var p := es[..|es| - 1];
      && ResumesFirst(cfg, p)
      && (es[|es| - 1].Client? && es[|es| - 1].send.FreshSend? ==> Run(cfg, p).value.client.woken == {})
  }
}
