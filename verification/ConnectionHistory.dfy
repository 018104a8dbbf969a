/**
  What a run of a connection is made of: a run of the client's sink, a run of the server's reorder
  buffer, and two links that lose, add and reorder nothing.
 */
module ConnectionHistory {
  import opened Wrappers
  import opened Words
  import opened Sink
  import opened Connection
  import opened ConnectionSafety
  import Reorder
  import SinkRuns

  function AsPackets(rs: seq<Registration>): seq<Packet> {
    seq(|rs|, i requires 0 <= i < |rs| => Tracked(rs[i].id, rs[i].kind))
  }

  function AcksOf(ds: seq<Delivery>): seq<Ack> {
    seq(|ds|, i requires 0 <= i < |ds| => ds[i].ack)
  }

  /** What `now` has more than `before`. */
  function Newer<T>(before: seq<T>, now: seq<T>): seq<T> {
    if |before| <= |now| then now[|before|..] else []
  }

  /** Everything that was sent, in order: each registration of the client as it was made, and untracked packets. */
  ghost function Sent(cfg: Config, es: seq<Connection.Event>): seq<Packet>
    requires Connection.Run(cfg, es).Some?
  {
    if es == [] then []
    else
      var before, e := es[..|es| - 1], es[|es| - 1];
      Sent(cfg, before) +
        match e
        case Client(_) =>
          AsPackets(Newer(Connection.Run(cfg, before).value.client.registered,
                          Connection.Run(cfg, es).value.client.registered))
        case SendUntracked => [Untracked]
        case _ => []
  }

  /** The events of the client's sink: its own, and the acknowledgements in the order they come back. */
  ghost function ClientEvents(cfg: Config, es: seq<Connection.Event>): seq<Sink.Event>
    requires Connection.Run(cfg, es).Some?
  {
    if es == [] then []
    else
      var before, e := es[..|es| - 1], es[|es| - 1];
      ClientEvents(cfg, before) +
        match e
        case Client(ce) => [ce]
        case AckReceived => [AckArrives(Connection.Run(cfg, before).value.back[0])]
        case _ => []
  }

  /** The events of the server's reorder buffer: one call for each packet received, and the completions. */
  function ServerEvents(es: seq<Connection.Event>): seq<Reorder.Event<Option<Ack>>> {
    if es == [] then []
    else
      ServerEvents(es[..|es| - 1]) +
        match es[|es| - 1]
        case Receive(inline) => [if inline.Some? then Reorder.CallInline(inline.value) else Reorder.CallPending]
        case Finish(se) => [se]
        case _ => []
  }

  /** The two ends are what their own runs make of them, and the links hold what was sent and did not arrive. */
  ghost predicate Joined(cfg: Config, ces: seq<Sink.Event>, ses: seq<Reorder.Event<Option<Ack>>>, sent: seq<Packet>,
                         n: Net) {
    && Sink.Run(cfg.version, cfg.cap, ces) == Some(n.client)
    && Reorder.Run(ses) == Some(n.server)
    && n.requests + n.forward == sent
    && AcksOf(n.client.delivered) + n.back == Acks(n.server.written)
  }

  // ----- One event

  lemma SinkStep(v: Version, cap: usize, es: seq<Sink.Event>, e: Sink.Event)
    requires Sink.Run(v, cap, es).Some? && Sink.Enabled(Sink.Run(v, cap, es).value, e)
    ensures Sink.Run(v, cap, es + [e]) == Some(Sink.Next(v, Sink.Run(v, cap, es).value, e))
  {
    hide Sink.Next, Sink.Enabled;
    assert (es + [e])[..|es + [e]| - 1] == es;
  }

  lemma ReorderStep<T>(es: seq<Reorder.Event<T>>, e: Reorder.Event<T>)
    requires Reorder.Run(es).Some? && Reorder.Enabled(Reorder.Run(es).value, e)
    ensures Reorder.Run(es + [e]) == Some(Reorder.Next(Reorder.Run(es).value, e))
  {
    hide Reorder.Next, Reorder.Enabled;
    assert (es + [e])[..|es + [e]| - 1] == es;
  }

  lemma {:induction false} AcksConcat(a: seq<Option<Ack>>, b: seq<Option<Ack>>)
    ensures Acks(a + b) == Acks(a) + Acks(b)
  {
    if a == [] {
      assert a + b == b;
    } else {
      assert (a + b)[1..] == a[1..] + b;
      AcksConcat(a[1..], b);
    }
  }

  /** A client event sends exactly what it registers, and delivers nothing. */
  lemma RegisterLogs(s: State, req: Request)
    ensures var (s', o) := Register(s, req);
            && s.registered <= s'.registered && s'.delivered == s.delivered
            && SentBy(o) == AsPackets(Newer(s.registered, s'.registered))
  {
  }

  lemma ClientLogs(cfg: Config, n: Net, ce: Sink.Event)
    requires Connection.Enabled(cfg, n, Client(ce))
    ensures var n' := Connection.Next(cfg, n, Client(ce));
            && n'.client == Sink.Next(cfg.version, n.client, ce)
            && n' == n.(client := n'.client, forward := n'.forward)
            && n'.forward == n.forward + AsPackets(Newer(n.client.registered, n'.client.registered))
            && n'.client.delivered == n.client.delivered
  {
    hide Register, SentBy;
    match ce
    case FreshSend(req) =>
      RegisterLogs(n.client, req);
      NotSent(n.client.nextWaiter);
    case ResumeSend(w) => RegisterLogs(Drop(n.client, w), n.client.parked[w]);
    case DropSend(w) =>
  }

  lemma NotSent(w: nat)
    ensures SentBy(Failed(Disconnected)) == SentBy(Waits(w)) == []
  {
  }

  /** A server event puts on the way back exactly the acknowledgements that it writes. */
  lemma ServerLogs(n: Net, e: Reorder.Event<Option<Ack>>)
    requires Reorder.Enabled(n.server, e)
    ensures var n' := ServerStep(n, e);
            && n'.server == Reorder.Next(n.server, e)
            && n' == n.(server := n'.server, back := n'.back)
            && n.server.written <= n'.server.written
            && n'.back == n.back + Acks(n'.server.written[|n.server.written|..])
            && (AcksOf(n.client.delivered) + n.back == Acks(n.server.written) ==>
                  AcksOf(n'.client.delivered) + n'.back == Acks(n'.server.written))
  {
    hide Reorder.Next, Acks;
    Reorder.WrittenGrows(n.server, e);
    var w := Reorder.Next(n.server, e).written;
    AcksConcat(n.server.written, w[|n.server.written|..]);
    assert n.server.written + w[|n.server.written|..] == w;
  }

  /** An acknowledgement that comes back is delivered. */
  lemma AckLogs(cfg: Config, n: Net)
    requires Inv(n) && n.back != []
    ensures var n' := Connection.Next(cfg, n, AckReceived);
            && n'.client == Sink.Next(cfg.version, n.client, AckArrives(n.back[0]))
            && n' == n.(client := n'.client, back := n.back[1..])
            && AcksOf(n'.client.delivered) + n'.back == AcksOf(n.client.delivered) + n.back
  {
    hide Reorder.Inv, Answered, Seen, TrackedOf, AckKeys;
    AckIsExpected(cfg, n);
    AckDelivered(cfg.version, n.client, n.back[0]);
    assert n.back == [n.back[0]] + n.back[1..];
  }

  lemma AckDelivered(v: Version, c: State, ack: Ack)
    requires ClientSound(c) && c.order != [] && c.order[0] == ack.id && ack.id in c.inflight
    requires c.inflight[ack.id].kind == KindOf(ack)
    ensures AcksOf(AckIn(v, c, ack).0.delivered) == AcksOf(c.delivered) + [ack]
  {
    hide SinkRuns.Inv;
    assert AckIn(v, c, ack) == Settle(c, ack);
    var d := Delivery(c.inflight[ack.id].sender, ack);
    assert Settle(c, ack).0.delivered == c.delivered + [d];
    assert AcksOf(c.delivered + [d]) == AcksOf(c.delivered) + [ack];
  }

  // ----- Runs

  lemma RunStep(cfg: Config, es: seq<Connection.Event>, e: Connection.Event)
    requires Connection.Run(cfg, es + [e]).Some?
    ensures Connection.Run(cfg, es).Some? && Connection.Enabled(cfg, Connection.Run(cfg, es).value, e)
    ensures Connection.Run(cfg, es + [e]).value == Connection.Next(cfg, Connection.Run(cfg, es).value, e)
    ensures ServerEvents(es + [e]) ==
            ServerEvents(es) +
              match e
              case Receive(inline) => [if inline.Some? then Reorder.CallInline(inline.value) else Reorder.CallPending]
              case Finish(se) => [se]
              case _ => []
    ensures ClientEvents(cfg, es + [e]) ==
            ClientEvents(cfg, es) +
              match e
              case Client(ce) => [ce]
              case AckReceived => [AckArrives(Connection.Run(cfg, es).value.back[0])]
              case _ => []
    ensures Sent(cfg, es + [e]) ==
            Sent(cfg, es) +
              match e
              case Client(_) => AsPackets(Newer(Connection.Run(cfg, es).value.client.registered,
                                                Connection.Run(cfg, es + [e]).value.client.registered))
              case SendUntracked => [Untracked]
              case _ => []
  {
    hide Connection.Next, AsPackets, Newer;
    assert (es + [e])[..|es + [e]| - 1] == es;
  }

  lemma ClientJoins(cfg: Config, ces: seq<Sink.Event>, ses: seq<Reorder.Event<Option<Ack>>>, sent: seq<Packet>, n: Net,
                    ce: Sink.Event)
    requires Joined(cfg, ces, ses, sent, n) && Connection.Enabled(cfg, n, Client(ce))
    ensures var n' := Connection.Next(cfg, n, Client(ce));
            Joined(cfg, ces + [ce], ses, sent + AsPackets(Newer(n.client.registered, n'.client.registered)), n')
  {
    hide Connection.Next, Sink.Next, Sink.Run, Reorder.Run, Acks, AcksOf, AsPackets, Newer;
    ClientLogs(cfg, n, ce);
    SinkStep(cfg.version, cfg.cap, ces, ce);
    var n' := Connection.Next(cfg, n, Client(ce));
    var more := AsPackets(Newer(n.client.registered, n'.client.registered));
    assert n.requests + (n.forward + more) == n.requests + n.forward + more;
  }

  lemma UntrackedJoins(cfg: Config, ces: seq<Sink.Event>, ses: seq<Reorder.Event<Option<Ack>>>, sent: seq<Packet>,
                       n: Net)
    requires Joined(cfg, ces, ses, sent, n)
    ensures Joined(cfg, ces, ses, sent + [Untracked], Connection.Next(cfg, n, SendUntracked))
  {
    hide Sink.Run, Reorder.Run, Acks, AcksOf;
    assert n.requests + (n.forward + [Untracked]) == n.requests + n.forward + [Untracked];
  }

  lemma ReceiveJoins(cfg: Config, ces: seq<Sink.Event>, ses: seq<Reorder.Event<Option<Ack>>>, sent: seq<Packet>, n: Net,
                     inline: Option<Option<Ack>>)
    requires Joined(cfg, ces, ses, sent, n) && Connection.Enabled(cfg, n, Receive(inline))
    ensures var se := if inline.Some? then Reorder.CallInline(inline.value) else Reorder.CallPending;
            Joined(cfg, ces, ses + [se], sent, Connection.Next(cfg, n, Receive(inline)))
  {
    hide Reorder.Next, Sink.Run, Reorder.Run, Acks, AcksOf, ServerStep, Answers, Admit;
    var se := if inline.Some? then Reorder.CallInline(inline.value) else Reorder.CallPending;
    ReorderStep(ses, se);
    var p := n.forward[0];
    var n1 := n.(forward := n.forward[1..], requests := n.requests + [p]);
    assert n1.requests + n1.forward == n.requests + n.forward;
    ServerLogs(if inline.Some? then n1 else n1.(seen := n.seen + Id(p)), se);
  }

  lemma FinishJoins(cfg: Config, ces: seq<Sink.Event>, ses: seq<Reorder.Event<Option<Ack>>>, sent: seq<Packet>, n: Net,
                    se: Reorder.Event<Option<Ack>>)
    requires Joined(cfg, ces, ses, sent, n) && Connection.Enabled(cfg, n, Finish(se))
    ensures Joined(cfg, ces, ses + [se], sent, Connection.Next(cfg, n, Finish(se)))
  {
    hide Reorder.Next, Sink.Run, Reorder.Run, Acks, AcksOf, ServerStep, Answers;
    ReorderStep(ses, se);
    ServerLogs(n.(seen := n.seen - Id(n.requests[CallOf(n.server, se)])), se);
  }

  lemma AckJoins(cfg: Config, ces: seq<Sink.Event>, ses: seq<Reorder.Event<Option<Ack>>>, sent: seq<Packet>, n: Net)
    requires Joined(cfg, ces, ses, sent, n) && Inv(n) && n.back != []
    ensures Joined(cfg, ces + [AckArrives(n.back[0])], ses, sent, Connection.Next(cfg, n, AckReceived))
  {
    hide Inv, Connection.Next, Sink.Next, Sink.Run, Reorder.Run, Acks, AcksOf;
    AckLogs(cfg, n);
    SinkStep(cfg.version, cfg.cap, ces, AckArrives(n.back[0]));
  }

  lemma StepComposed(cfg: Config, es: seq<Connection.Event>, e: Connection.Event)
    requires Connection.Run(cfg, es + [e]).Some? && Connection.Run(cfg, es).Some?
    requires Joined(cfg, ClientEvents(cfg, es), ServerEvents(es), Sent(cfg, es), Connection.Run(cfg, es).value)
    requires Inv(Connection.Run(cfg, es).value)
    ensures Joined(cfg, ClientEvents(cfg, es + [e]), ServerEvents(es + [e]), Sent(cfg, es + [e]),
                   Connection.Run(cfg, es + [e]).value)
  {
    hide Connection.Run, Connection.Next, Sent, ClientEvents, ServerEvents, Joined, Inv, AsPackets, Newer;
    hide Sink.Enabled, Reorder.Enabled, Answers, Admit;
    RunStep(cfg, es, e);
    var n, ces, ses, sent := Connection.Run(cfg, es).value, ClientEvents(cfg, es), ServerEvents(es), Sent(cfg, es);
    assert ces + [] == ces && ses + [] == ses && sent + [] == sent;
    match e
    case Client(ce) => ClientJoins(cfg, ces, ses, sent, n, ce);
    case SendUntracked => UntrackedJoins(cfg, ces, ses, sent, n);
    case Receive(inline) => ReceiveJoins(cfg, ces, ses, sent, n, inline);
    case Finish(se) => FinishJoins(cfg, ces, ses, sent, n, se);
    case AckReceived => AckJoins(cfg, ces, ses, sent, n);
  }

  /**
    Composition: in every run the client is what its sink's own run makes of its events, the server what the reorder
    buffer makes of its calls and completions; the packets dispatched, then those on the way, are all
    packets sent, in order; and the acknowledgements delivered, then those on the way back, are all
    that the server wrote, in order.
   */
  lemma {:induction false} RunComposed(cfg: Config, es: seq<Connection.Event>)
    requires Connection.Run(cfg, es).Some?
    ensures Joined(cfg, ClientEvents(cfg, es), ServerEvents(es), Sent(cfg, es), Connection.Run(cfg, es).value)
  {
    hide Joined, Inv;
    if es == [] {
      NothingYet(cfg);
    } else {
      var before, e := es[..|es| - 1], es[|es| - 1];
      assert es == before + [e];
      RunComposed(cfg, before);
      RunKeeps(cfg, before);
      StepComposed(cfg, before, e);
    }
  }

  lemma NothingYet(cfg: Config)
    ensures Joined(cfg, [], [], [], Connection.Init(cfg))
  {
  }

  /** An identifier is in flight at the server exactly if a request with it has not been answered by its handler. */
  lemma SeenIsUnanswered(cfg: Config, n: Net, id: u16)
    requires Reachable(cfg, n)
    ensures id in n.seen <==>
            exists k :: k in n.server.Outstanding() && k < |n.requests|
                        && n.requests[k].Tracked? && n.requests[k].id == id
  {
    ReachableInv(cfg, n);
    if id in n.seen { assert HasOwner(id, n.server.Outstanding(), n.requests); }
  }
}
