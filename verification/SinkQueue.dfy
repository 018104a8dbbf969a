/**
  The simple form of an open sink: one first-in first-out queue of expected acknowledgements instead
  of a table and an order, one queue of the senders that still wait instead of a queue of channels
  some of which are dead, and a running number instead of the generator's cell.
 */
module SinkQueue {
  import opened Wrappers
  import opened Words
  import opened PacketIds
  import opened Collections
  import opened Sink
  import opened SinkRuns
  import SinkClosing

  datatype Expected = Expected(id: PacketId, kind: Kind, sender: nat)

  datatype Waiting = Waiting(waiter: nat, req: Request)

  /** `leaked` are the identifiers that a wrong MQTT 5.0 acknowledgement took from the queue. */
  datatype Queue = Queue(
    cap: usize,
    expected: seq<Expected>,
    leaked: set<u16>,
    waiting: seq<Waiting>,
    woken: map<nat, Request>,
    nextWaiter: nat,
    generated: nat,
    registered: seq<Registration>,
    delivered: seq<Delivery>)

  predicate InUse(q: Queue, id: PacketId) {
    id in q.leaked || exists i :: 0 <= i < |q.expected| && q.expected[i].id == id
  }

  /** Takes the identifier asked for, or the next of the cyclic sequence, unless it is in use. */
  function Register(q: Queue, req: Request): (Queue, Outcome) {
    var id := if req.id == 0 then Generated(q.generated) else req.id;
    var q1 := if req.id == 0 then q.(generated := q.generated + 1) else q;
    if InUse(q, id) then (q1, Failed(PacketIdInUse(id)))
    else
      (q1.(expected := q.expected + [Expected(id, req.kind, |q.registered|)],
           registered := q.registered + [Registration(id, req.kind)]),
       Sends(id, req.kind))
  }

  /** A send waits exactly if the cap is used up to the last identifier. */
  function Fresh(q: Queue, req: Request): (Queue, Outcome) {
    if |q.expected| + |q.leaked| == q.cap then
      (q.(waiting := q.waiting + [Waiting(q.nextWaiter, req)], nextWaiter := q.nextWaiter + 1), Waits(q.nextWaiter))
    else Register(q, req)
  }

  function Resume(q: Queue, w: nat): (Queue, Outcome)
    requires w in q.woken
  {
    Register(q.(woken := q.woken - {w}), q.woken[w])
  }

  function Without(ws: seq<Waiting>, w: nat): seq<Waiting> {
    if ws == [] then []
    else if ws[0].waiter == w then Without(ws[1..], w)
    else [ws[0]] + Without(ws[1..], w)
  }

  function Drop(q: Queue, w: nat): Queue {
    q.(waiting := Without(q.waiting, w), woken := q.woken - {w})
  }

  /** An acknowledgement; None if it closes the connection. */
  function Ack(v: Version, q: Queue, ack: Sink.Ack): (Option<Queue>, Result<(), ProtocolError>) {
    if q.expected == [] then (if v == V3 then None else Some(q), Err(PacketIdMismatch))
    else
      var first := q.expected[0];
      var q1 := q.(expected := q.expected[1..]);
      if first.id != ack.id then
        (if v == V3 then None else Some(q1.(leaked := q.leaked + {first.id})), Err(PacketIdMismatch))
      else if first.kind != KindOf(ack) then
        (if v == V3 then None else Some(q1), Err(Unexpected(KindOf(ack), first.kind)))
      else
        var q2 := q1.(delivered := q.delivered + [Delivery(first.sender, ack)]);
        (Some(if q.waiting == [] then q2
              else q2.(waiting := q.waiting[1..], woken := q.woken[q.waiting[0].waiter := q.waiting[0].req])),
         Ok(()))
  }

  predicate Awaits(ws: seq<Waiting>, w: nat) {
    exists i :: 0 <= i < |ws| && ws[i].waiter == w
  }

  predicate Enabled(q: Queue, e: Event) {
    match e
    case FreshSend(_) => |q.expected| + |q.leaked| < USIZE
    case ResumeSend(w) => w in q.woken
    case DropSend(w) => w in q.woken || Awaits(q.waiting, w)
    case _ => true
  }

  /** None once the sink is closed. */
  function Next(v: Version, q: Queue, e: Event): Option<Queue>
    requires Enabled(q, e)
  {
    match e
    case FreshSend(req) => Some(Fresh(q, req).0)
    case ResumeSend(w) => Some(Resume(q, w).0)
    case DropSend(w) => Some(Drop(q, w))
    case AckArrives(ack) => Ack(v, q, ack).0
    case CloseSink => None
  }

  // ----- What an open sink stands for

  function Live(waiters: seq<nat>, parked: map<nat, Request>): seq<Waiting> {
    if waiters == [] then []
    else if waiters[0] in parked then [Waiting(waiters[0], parked[waiters[0]])] + Live(waiters[1..], parked)
    else Live(waiters[1..], parked)
  }

  ghost function ExpectedOf(order: seq<u16>, inflight: map<u16, Entry>): (r: seq<Expected>)
    requires forall i :: 0 <= i < |order| ==> order[i] != 0 && order[i] in inflight
    ensures |r| == |order|
    ensures forall i :: 0 <= i < |r| ==>
              r[i] == Expected(order[i], inflight[order[i]].kind, inflight[order[i]].sender)
  {
    seq(|order|, i requires 0 <= i < |order| =>
      Expected(order[i], inflight[order[i]].kind, inflight[order[i]].sender))
  }

  function Resumable(woken: set<nat>, parked: map<nat, Request>): map<nat, Request> {
    map w | w in woken && w in parked :: parked[w]
  }

  ghost function Meaning(s: State): Queue
    requires OrderSafe(s)
  {
    Queue(s.cap, ExpectedOf(s.order, s.inflight), s.inflight.Keys - Elements(s.order), Live(s.waiters, s.parked),
          Resumable(s.woken, s.parked),
          s.nextWaiter, s.generated, s.registered, s.delivered)
  }

  /** Who has a channel waits or was woken. */
  ghost predicate Placed(s: State) {
    forall w :: w in s.parked ==> w in s.woken || w in s.waiters
  }

  lemma AwaitsCons(x: Waiting, ws: seq<Waiting>, w: nat)
    ensures Awaits([x] + ws, w) <==> x.waiter == w || Awaits(ws, w)
  {
    var all := [x] + ws;
    assert all[0] == x && all[1..] == ws;
    if Awaits(ws, w) {
      var i :| 0 <= i < |ws| && ws[i].waiter == w;
      assert all[i + 1].waiter == w;
    }
  }

  lemma {:induction false} LiveHas(waiters: seq<nat>, parked: map<nat, Request>, w: nat)
    ensures Awaits(Live(waiters, parked), w) <==> w in waiters && w in parked
  {
    if waiters != [] {
      LiveHas(waiters[1..], parked, w);
      if waiters[0] in parked {
        AwaitsCons(Waiting(waiters[0], parked[waiters[0]]), Live(waiters[1..], parked), w);
      }
    }
  }

  lemma {:induction false} LiveAppend(waiters: seq<nat>, parked: map<nat, Request>, w: nat, req: Request)
    requires w !in waiters && w !in parked
    ensures Live(waiters + [w], parked[w := req]) == Live(waiters, parked) + [Waiting(w, req)]
  {
    if waiters == [] {
      assert [w][1..] == [];
    } else {
      assert (waiters + [w])[1..] == waiters[1..] + [w];
      LiveAppend(waiters[1..], parked, w, req);
    }
  }

  lemma {:induction false} LiveDrop(waiters: seq<nat>, parked: map<nat, Request>, w: nat)
    ensures Live(waiters, parked - {w}) == Without(Live(waiters, parked), w)
  {
    if waiters != [] {
      LiveDrop(waiters[1..], parked, w);
      var rest := Live(waiters[1..], parked);
      if waiters[0] in parked {
        assert ([Waiting(waiters[0], parked[waiters[0]])] + rest)[1..] == rest;
      }
    }
  }

  /** The waiter that is woken is the first that still waits. */
  lemma {:induction false} LiveWake(waiters: seq<nat>, parked: map<nat, Request>)
    ensures var live, (rest, w) := Live(waiters, parked), Wake(waiters, parked.Keys);
            if live == [] then w.None? && rest == [] && Live(rest, parked) == []
            else w == Some(live[0].waiter) && live[0].waiter in parked && live[0].req == parked[live[0].waiter]
                 && Live(rest, parked) == live[1..]
  {
    if waiters != [] && waiters[0] !in parked {
      LiveWake(waiters[1..], parked);
    }
  }

  lemma Scalars(s: State)
    requires OrderSafe(s)
    ensures Meaning(s).cap == s.cap && Meaning(s).nextWaiter == s.nextWaiter
  {
  }

  lemma CreditMeans(s: State)
    requires OrderSafe(s) && |s.inflight| < USIZE
    ensures var q := Meaning(s);
            |q.expected| + |q.leaked| == |s.inflight| && (HasCredit(s) <==> |q.expected| + |q.leaked| != q.cap)
  {
    CountMeans(s);
  }

  lemma CountMeans(s: State)
    requires OrderSafe(s)
    ensures |Meaning(s).expected| + |Meaning(s).leaked| == |s.inflight|
  {
    NoDupSize(s.order);
    assert Elements(s.order) <= s.inflight.Keys;
    assert s.inflight.Keys == Elements(s.order) + Meaning(s).leaked;
    assert |s.inflight| == |s.inflight.Keys|;
  }

  lemma InUseMeans(s: State, id: PacketId)
    requires OrderSafe(s)
    ensures InUse(Meaning(s), id) <==> id in s.inflight
  {
    if id in s.order {
      var i :| 0 <= i < |s.order| && s.order[i] == id;
      assert Meaning(s).expected[i].id == id;
    }
  }

  // ----- Refinement, event by event

  lemma EnabledMeans(s: State, e: Event)
    requires Inv(s) && s.open && Placed(s)
    ensures Sink.Enabled(s, e) <==> Enabled(Meaning(s), e)
  {
    CountMeans(s);
    if e.DropSend? { LiveHas(s.waiters, s.parked, e.waiter); }
  }

  lemma EnteredMeans(s: State, id: PacketId, kind: Kind)
    requires OrderSafe(s) && id !in s.inflight
    ensures var s' := s.(inflight := s.inflight[id := Entry(|s.registered|, kind)], order := s.order + [id],
                         registered := s.registered + [Registration(id, kind)]);
            && OrderSafe(s')
            && Meaning(s') == Meaning(s).(expected := Meaning(s).expected + [Expected(id, kind, |s.registered|)],
                                          registered := s.registered + [Registration(id, kind)])
  {
    hide Live;
    var s' := s.(inflight := s.inflight[id := Entry(|s.registered|, kind)], order := s.order + [id],
                 registered := s.registered + [Registration(id, kind)]);
    assert OrderSafe(s');
    assert Elements(s'.order) == Elements(s.order) + {id};
  }

  lemma RegisterMeans(s: State, req: Request)
    requires Inv(s) && OrderSafe(s)
    ensures var (s', r) := Sink.Register(s, req);
            && OrderSafe(s') && Register(Meaning(s), req) == (Meaning(s'), r)
  {
    hide Live, ExpectedOf, InUse;
    NextIdGenerates(s.generated);
    var id := IdFor(s, req);
    InUseMeans(s, id);
    if id !in s.inflight {
      EnteredMeans(if req.id == 0 then s.(counter := NextId(s.counter).1, generated := s.generated + 1) else s,
                   id, req.kind);
    }
  }

  lemma WaitMeans(s: State, req: Request)
    requires Inv(s) && OrderSafe(s)
    ensures var w := s.nextWaiter;
            var s' := s.(waiters := s.waiters + [w], parked := s.parked[w := req], nextWaiter := w + 1);
            && OrderSafe(s')
            && Meaning(s') == Meaning(s).(waiting := Meaning(s).waiting + [Waiting(w, req)], nextWaiter := w + 1)
  {
    hide ExpectedOf, Live;
    LiveAppend(s.waiters, s.parked, s.nextWaiter, req);
    assert Resumable(s.woken, s.parked[s.nextWaiter := req]) == Resumable(s.woken, s.parked);
  }

  lemma FreshMeans(s: State, req: Request)
    requires Inv(s) && s.open && |s.inflight| < USIZE
    ensures var (s', r) := Sink.Fresh(s, req);
            && OrderSafe(s') && Fresh(Meaning(s), req) == (Meaning(s'), r)
  {
    hide Register, Sink.Register, Meaning, HasCredit, EntriesRegistered, Delivered, Numbered, OrderExact;
    CreditMeans(s);
    WaitMeans(s, req);
    if HasCredit(s) { RegisterMeans(s, req); }
    assert Meaning(s).cap == s.cap && Meaning(s).nextWaiter == s.nextWaiter by { Scalars(s); }
  }

  lemma DropMeans(s: State, w: nat)
    requires Inv(s) && OrderSafe(s)
    ensures OrderSafe(Sink.Drop(s, w)) && Drop(Meaning(s), w) == Meaning(Sink.Drop(s, w))
  {
    hide ExpectedOf, Live;
    LiveDrop(s.waiters, s.parked, w);
  }

  lemma ResumeMeans(s: State, w: nat)
    requires Inv(s) && s.open && w in s.woken && w in s.parked
    ensures var (s', r) := Sink.Resume(s, w);
            && OrderSafe(s') && Resume(Meaning(s), w) == (Meaning(s'), r)
  {
    hide Register, Sink.Register, ExpectedOf;
    DropKeeps(s, w);
    DropMeans(s, w);
    RegisterMeans(Sink.Drop(s, w), s.parked[w]);
    LiveHas(s.waiters, s.parked, w);
    NotAwaited(Live(s.waiters, s.parked), w);
  }

  lemma {:induction false} NotAwaited(ws: seq<Waiting>, w: nat)
    requires !Awaits(ws, w)
    ensures Without(ws, w) == ws
  {
    if ws != [] {
      assert ws == [ws[0]] + ws[1..];
      AwaitsCons(ws[0], ws[1..], w);
      NotAwaited(ws[1..], w);
    }
  }

  // ----- Acknowledgements

  /** The queue after its front is gone from the order, and from the table unless it leaks. */
  lemma FrontGone(s: State, leaks: bool)
    requires OrderSafe(s) && s.order != []
    ensures var id := s.order[0];
            var s' := s.(order := s.order[1..], inflight := if leaks then s.inflight else s.inflight - {id});
            && OrderSafe(s')
            && Meaning(s') == Meaning(s).(expected := Meaning(s).expected[1..],
                                          leaked := Meaning(s).leaked + if leaks then {id} else {})
  {
    hide Live, Resumable;
    var id := s.order[0];
    var s' := s.(order := s.order[1..], inflight := if leaks then s.inflight else s.inflight - {id});
    assert id !in s.order[1..];
    assert Elements(s.order) == Elements(s.order[1..]) + {id};
    assert forall i :: 0 <= i < |s'.order| ==> s'.order[i] == s.order[i + 1];
    assert OrderSafe(s');
    assert Meaning(s').leaked == Meaning(s).leaked + if leaks then {id} else {};
    assert Meaning(s').expected == Meaning(s).expected[1..];
  }

  lemma WakeMeans(s: State)
    requires OrderSafe(s)
    ensures var s', q := WakeOne(s), Meaning(s);
            && OrderSafe(s')
            && Meaning(s') == if q.waiting == [] then q
                              else q.(waiting := q.waiting[1..],
                                      woken := q.woken[q.waiting[0].waiter := q.waiting[0].req])
  {
    hide ExpectedOf, Live;
    LiveWake(s.waiters, s.parked);
    var live := Live(s.waiters, s.parked);
    if live != [] {
      assert Resumable(s.woken + {live[0].waiter}, s.parked)
          == Resumable(s.woken, s.parked)[live[0].waiter := live[0].req];
    }
  }

  lemma SettleMeans(s: State, ack: Sink.Ack)
    requires Inv(s) && s.open && s.order != [] && s.order[0] == ack.id
    ensures var (s', r) := Settle(s, ack);
            && s'.open && OrderSafe(s') && OrderSafe(s'.(failed := true))
            && Meaning(s'.(failed := true)) == Meaning(s')
            && Ack(V5, Meaning(s), ack) == (Some(Meaning(s')), r)
  {
    hide ExpectedOf, Live, Resumable, Wake, EntriesRegistered, Numbered, OrderExact, Delivered;
    FrontGone(s, false);
    var none: set<u16> := {};
    assert Meaning(s).leaked + none == Meaning(s).leaked;
    var e := s.inflight[ack.id];
    assert Meaning(s).expected[0] == Expected(ack.id, e.kind, e.sender);
    var s1 := s.(order := s.order[1..], inflight := s.inflight - {ack.id});
    if e.kind == KindOf(ack) {
      var s2 := s1.(delivered := s.delivered + [Delivery(e.sender, ack)]);
      WakeMeans(s2);
      assert Meaning(s2) == Meaning(s).(expected := Meaning(s).expected[1..], delivered := s2.delivered);
    }
  }

  lemma AckMeans(v: Version, s: State, ack: Sink.Ack)
    requires Inv(s) && s.open
    ensures var (s', r) := AckIn(v, s, ack);
            var (q', r') := Ack(v, Meaning(s), ack);
            && r' == r && (s'.open <==> q'.Some?)
            && (s'.open ==> OrderSafe(s') && q' == Some(Meaning(s')))
  {
    hide ExpectedOf, Live, Resumable, Settle, EntriesRegistered, Numbered, OrderExact, Delivered;
    if s.order != [] {
      FrontGone(s, true);
      if s.order[0] == ack.id { SettleMeans(s, ack); }
    }
  }

  // ----- Runs

  lemma NextPlaced(v: Version, s: State, e: Event)
    requires Placed(s) && Sink.Enabled(s, e)
    ensures Placed(Sink.Next(v, s, e))
  {
    match e
    case AckArrives(ack) => AckPlaced(v, s, ack);
    case _ =>
  }

  lemma {:induction false} WakePlaced(waiters: seq<nat>, parked: set<nat>, w: nat)
    requires w in waiters && w in parked
    ensures var (rest, x) := Wake(waiters, parked); w in rest || x == Some(w)
  {
    if waiters[0] !in parked { WakePlaced(waiters[1..], parked, w); }
  }

  lemma SettlePlaced(s: State, ack: Sink.Ack)
    requires Placed(s) && s.order != [] && s.order[0] == ack.id
    ensures Placed(Settle(s, ack).0)
  {
    hide Wake;
    forall w | w in s.parked && w in s.waiters ensures w in WakeOne(s).waiters || w in WakeOne(s).woken {
      WakePlaced(s.waiters, s.parked.Keys, w);
    }
  }

  lemma {:induction false} AckPlaced(v: Version, s: State, ack: Sink.Ack)
    requires Placed(s)
    ensures Placed(AckIn(v, s, ack).0)
    decreases |s.order|
  {
    hide Settle;
    if s.order != [] && s.order[0] == ack.id { SettlePlaced(s, ack); }
    if v == V5 && s.order != [] && s.order[0] == 0 { AckPlaced(v, s.(order := s.order[1..]), ack); }
  }

  lemma {:induction false} RunPlaced(v: Version, cap: usize, es: seq<Event>)
    ensures Sink.Run(v, cap, es).Some? ==> Placed(Sink.Run(v, cap, es).value)
  {
    hide Sink.Next, Sink.Enabled;
    if es != [] && Sink.Run(v, cap, es).Some? {
      RunPlaced(v, cap, es[..|es| - 1]);
      NextPlaced(v, Sink.Run(v, cap, es[..|es| - 1]).value, es[|es| - 1]);
    }
  }

  lemma InvOrder(s: State)
    requires Inv(s) && s.open
    ensures OrderSafe(s)
  {
  }

  lemma StepMeans(v: Version, s: State, e: Event)
    requires Inv(s) && s.open && Sink.Enabled(s, e) && Enabled(Meaning(s), e)
    ensures var s' := Sink.Next(v, s, e);
            && (s'.open <==> Next(v, Meaning(s), e).Some?)
            && (s'.open ==> OrderSafe(s') && Next(v, Meaning(s), e) == Some(Meaning(s')))
  {
    hide Inv, Fresh, Drop, AckIn, Ack, Meaning, Enabled;
    match e
    case FreshSend(req) => FreshMeans(s, req);
    case ResumeSend(w) => ResumeMeans(s, w);
    case DropSend(w) => InvOrder(s); DropMeans(s, w);
    case AckArrives(ack) => AckMeans(v, s, ack);
    case CloseSink =>
  }

  function New(cap: usize): Queue {
    Queue(cap, [], {}, [], map[], 0, 0, [], [])
  }

  lemma InitMeans(cap: usize)
    ensures OrderSafe(Init(cap)) && Meaning(Init(cap)) == New(cap)
  {
  }

  /** The queue after a sequence of events; None if one could not happen or closed it. */
  function Run(v: Version, cap: usize, es: seq<Event>): Option<Queue> {
    if es == [] then Some(New(cap))
    else
      var q := Run(v, cap, es[..|es| - 1]);
      var e := es[|es| - 1];
      if q.Some? && Enabled(q.value, e) then Next(v, q.value, e) else None
  }

  /**
    Refinement: the sink is open after exactly the runs that the queue survives, and is then what the queue
    has become: the same expected acknowledgements in the same order, the same waiting and woken
    senders, the same registrations and deliveries.
   */
  lemma {:induction false} Refines(v: Version, cap: usize, es: seq<Event>)
    ensures Run(v, cap, es).Some? <==> Sink.Run(v, cap, es).Some? && Sink.Run(v, cap, es).value.open
    ensures Run(v, cap, es).Some? ==>
              var s := Sink.Run(v, cap, es).value; OrderSafe(s) && Run(v, cap, es).value == Meaning(s)
  {
    hide Inv, Sink.Next, Next, Sink.Enabled, Enabled, Meaning, OrderSafe;
    if es == [] {
      InitMeans(cap);
    } else {
      var before, e := es[..|es| - 1], es[|es| - 1];
      Refines(v, cap, before);
      RunKeeps(v, cap, before);
      RunPlaced(v, cap, before);
      if Sink.Run(v, cap, before).Some? {
        var s := Sink.Run(v, cap, before).value;
        if s.open { EnabledMeans(s, e); }
        if Sink.Enabled(s, e) {
          SinkClosing.OpenIff(v, s, e);
          if s.open { StepMeans(v, s, e); }
        }
      }
    }
  }

  /** Every call on an open sink answers as the queue does. */
  lemma AnswersAgree(v: Version, cap: usize, s: State, req: Request, w: nat, ack: Sink.Ack)
    requires Reachable(v, cap, s) && s.open
    ensures OrderSafe(s)
    ensures |s.inflight| < USIZE ==> Sink.Fresh(s, req).1 == Fresh(Meaning(s), req).1
    ensures w in s.woken && w in s.parked ==> Sink.Resume(s, w).1 == Resume(Meaning(s), w).1
    ensures AckIn(v, s, ack).1 == Ack(v, Meaning(s), ack).1
  {
    hide Inv, Sink.Fresh, Fresh, Sink.Resume, AckIn, Ack;
    ReachableInv(v, cap, s);
    InvOrder(s);
    if |s.inflight| < USIZE { FreshMeans(s, req); }
    if w in s.woken && w in s.parked { ResumeMeans(s, w); }
    AckMeans(v, s, ack);
  }
}
