/** Two-party safety of a connection, over all its runs. */
module ConnectionSafety {
  import opened Wrappers
  import opened Words
  import opened PacketIds
  import opened Collections
  import opened Sink
  import opened Connection
  import Reorder
  import SinkRuns
  import FlowControl
  import Bytes
  import V5Inbound

  // ----- The conserved sequence

  /** The registrations that a sequence of packets stands for. */
  function TrackedOf(ps: seq<Packet>): seq<Registration> {
    if ps == [] then []
    else (if ps[0].Tracked? then [Registration(ps[0].id, ps[0].kind)] else []) + TrackedOf(ps[1..])
  }

  function AckKeys(acks: seq<Ack>): seq<Registration> {
    seq(|acks|, i requires 0 <= i < |acks| => Registration(acks[i].id, KindOf(acks[i])))
  }

  /** The registrations whose acknowledgements the client still expects, oldest first. */
  ghost function Expected(c: State): seq<Registration>
    requires |c.delivered| <= |c.registered|
  {
    c.registered[|c.delivered|..]
  }

  /** The requests that the server has dispatched and whose replies it has not written yet. */
  ghost function Unwritten(n: Net): seq<Packet>
    requires |n.server.written| <= |n.requests|
  {
    n.requests[|n.server.written|..]
  }

  ghost predicate Answered(n: Net) {
    && |n.requests| == n.server.calls
    && (forall k :: k in n.server.results && k < |n.requests| ==> Answers(n.requests[k], n.server.results[k]))
  }

  ghost predicate HasOwner(id: u16, out: set<nat>, requests: seq<Packet>) {
    exists k :: k in out && k < |requests| && id in Id(requests[k])
  }

  /** The identifiers in flight at the server are those of the unanswered requests. */
  ghost predicate Seen(seen: set<u16>, out: set<nat>, requests: seq<Packet>) {
    && (forall k :: k in out ==> k < |requests| && Id(requests[k]) <= seen)
    && (forall id {:trigger HasOwner(id, out, requests)} :: id in seen ==> HasOwner(id, out, requests))
  }

  ghost predicate ClientSound(c: State) {
    SinkRuns.Inv(c) && c.open && !c.failed
  }

  ghost predicate Inv(n: Net) {
    && ClientSound(n.client)
    && Reorder.Inv(n.server)
    && Answered(n)
    && Seen(n.seen, n.server.Outstanding(), n.requests)
    && Expected(n.client) == AckKeys(n.back) + TrackedOf(Unwritten(n)) + TrackedOf(n.forward)
  }

  lemma {:induction false} TrackedConcat(a: seq<Packet>, b: seq<Packet>)
    ensures TrackedOf(a + b) == TrackedOf(a) + TrackedOf(b)
  {
    hide TrackedOf;
    if a == [] {
      TrackedNone();
      assert a + b == b && [] + TrackedOf(b) == TrackedOf(b);
    } else {
      TrackedConcat(a[1..], b);
      assert (a + b)[1..] == a[1..] + b && (a + b)[0] == a[0];
      TrackedStep(a);
      TrackedStep(a + b);
      var h := if a[0].Tracked? then [Registration(a[0].id, a[0].kind)] else [];
      var x, y := TrackedOf(a[1..]), TrackedOf(b);
      assert h + (x + y) == h + x + y;
    }
  }

  lemma TrackedNone()
    ensures TrackedOf([]) == []
  {
  }

  lemma TrackedStep(ps: seq<Packet>)
    requires ps != []
    ensures TrackedOf(ps)
         == (if ps[0].Tracked? then [Registration(ps[0].id, ps[0].kind)] else []) + TrackedOf(ps[1..])
  {
  }

  lemma {:induction false} TrackedMember(ps: seq<Packet>, k: nat)
    requires k < |ps| && ps[k].Tracked?
    ensures Registration(ps[k].id, ps[k].kind) in TrackedOf(ps)
  {
    if k > 0 {
      TrackedMember(ps[1..], k - 1);
    }
  }

  /** The replies written for a stretch of calls are the acknowledgements of their requests. */
  lemma {:induction false} AcksAnswer(ps: seq<Packet>, out: seq<Option<Ack>>)
    requires |ps| == |out| && forall i :: 0 <= i < |ps| ==> Answers(ps[i], out[i])
    ensures AckKeys(Acks(out)) == TrackedOf(ps)
  {
    if ps != [] {
      assert Answers(ps[0], out[0]);
      AcksAnswer(ps[1..], out[1..]);
    }
  }

  lemma AckKeysConcat(a: seq<Ack>, b: seq<Ack>)
    ensures AckKeys(a + b) == AckKeys(a) + AckKeys(b)
  {
  }

  lemma Regroup<T>(a: seq<T>, p: seq<T>, u: seq<T>, f: seq<T>)
    ensures a + (p + u) + f == (a + p) + u + f
    ensures (a + p) + u + f == (a + p) + (u + f)
    ensures a + p + (u + f) == a + (p + u) + f
  {
  }

  // ----- The expected identifiers are pairwise different

  ghost predicate DistinctIds(e: seq<Registration>) {
    forall i, j :: 0 <= i < j < |e| ==> e[i].id != e[j].id
  }

  lemma SplitDistinct(a: seq<Registration>, b: seq<Registration>, x: Registration, y: Registration)
    requires DistinctIds(a + b) && x in a && y in b
    ensures x.id != y.id
  {
    var i :| 0 <= i < |a| && a[i] == x;
    var j :| 0 <= j < |b| && b[j] == y;
    assert (a + b)[i] == x && (a + b)[|a| + j] == y;
  }

  lemma PositionsDistinct(a: seq<Registration>, us: seq<Packet>, f: seq<Registration>, j: nat, k: nat)
    requires DistinctIds(a + TrackedOf(us) + f) && j < k < |us| && us[j].Tracked? && us[k].Tracked?
    ensures us[j].id != us[k].id
  {
    var l, r := us[..k], us[k..];
    assert us == l + r && l[j] == us[j] && r[0] == us[k];
    TrackedConcat(l, r);
    TrackedMember(l, j);
    TrackedMember(r, 0);
    Regroup(a, TrackedOf(l), TrackedOf(r), f);
    SplitDistinct(a + TrackedOf(l), TrackedOf(r) + f,
                  Registration(us[j].id, us[j].kind), Registration(us[k].id, us[k].kind));
  }

  lemma QueuedNotForward(a: seq<Registration>, us: seq<Packet>, fwd: seq<Packet>, k: nat)
    requires DistinctIds(a + TrackedOf(us) + TrackedOf(fwd)) && k < |us| && us[k].Tracked?
    requires fwd != [] && fwd[0].Tracked?
    ensures us[k].id != fwd[0].id
  {
    TrackedMember(us, k);
    TrackedMember(fwd, 0);
    SplitDistinct(a + TrackedOf(us), TrackedOf(fwd),
                  Registration(us[k].id, us[k].kind), Registration(fwd[0].id, fwd[0].kind));
  }

  lemma ExpectedIsOrder(c: State)
    requires ClientSound(c)
    ensures |c.registered| == |c.delivered| + |c.order|
    ensures forall i :: 0 <= i < |c.order| ==> Expected(c)[i].id == c.order[i]
    ensures forall i :: 0 <= i < |c.order| ==> Expected(c)[i].kind == c.inflight[c.order[i]].kind
    ensures forall r :: r in Expected(c) ==> r.id in c.inflight
    ensures DistinctIds(Expected(c))
  {
  }

  // ----- Client steps

  lemma RegisterSends(c: State, req: Request)
    requires ClientSound(c)
    ensures var (c', o) := Register(c, req);
            && ClientSound(c')
            && |c'.delivered| <= |c'.registered| && |c.delivered| <= |c.registered|
            && Expected(c') == Expected(c) + TrackedOf(SentBy(o))
  {
    hide SinkRuns.Inv, TrackedOf, NextId;
    SinkRuns.RegisterKeeps(c, req);
    var (c', o) := Register(c, req);
    DeliveredBound(c);
    if o.Sends? {
      TrackedOne(o.id, o.kind);
    } else {
      TrackedNone();
      assert c'.registered == c.registered;
    }
  }

  lemma DeliveredBound(c: State)
    requires ClientSound(c)
    ensures |c.delivered| <= |c.registered|
  {
  }

  lemma TrackedOne(id: PacketId, kind: Kind)
    ensures TrackedOf([Tracked(id, kind)]) == [Registration(id, kind)]
  {
    assert [Tracked(id, kind)][1..] == [];
  }

  lemma ClientSends(n: Net, c: State, sent: seq<Packet>)
    requires Inv(n) && ClientSound(c)
    requires Expected(c) == Expected(n.client) + TrackedOf(sent)
    ensures Inv(n.(client := c, forward := n.forward + sent))
  {
    TrackedConcat(n.forward, sent);
    AppendLast(AckKeys(n.back) + TrackedOf(Unwritten(n)), TrackedOf(n.forward), TrackedOf(sent));
    assert Expected(c) == AckKeys(n.back) + TrackedOf(Unwritten(n)) + TrackedOf(n.forward + sent);
  }

  lemma AppendLast<T>(a: seq<T>, f: seq<T>, s: seq<T>)
    ensures a + f + s == a + (f + s)
  {
  }

  lemma FreshSends(c: State, req: Request)
    requires ClientSound(c) && |c.inflight| < USIZE
    ensures var (c', o) := Fresh(c, req);
            && ClientSound(c')
            && |c'.delivered| <= |c'.registered| && |c.delivered| <= |c.registered|
            && Expected(c') == Expected(c) + TrackedOf(SentBy(o))
  {
    hide SinkRuns.Inv, TrackedOf, Register;
    DeliveredBound(c);
    RegisterSends(c, req);
    SinkRuns.FreshKeeps(c, req);
    TrackedNone();
  }

  lemma ClientKeeps(cfg: Config, n: Net, ce: Sink.Event)
    requires Inv(n) && Connection.Enabled(cfg, n, Client(ce))
    ensures Inv(Connection.Next(cfg, n, Client(ce)))
  {
    if ce.FreshSend? {
      FreshSends(n.client, ce.req);
      ClientSends(n, Fresh(n.client, ce.req).0, SentBy(Fresh(n.client, ce.req).1));
    } else if ce.ResumeSend? {
      SinkRuns.DropKeeps(n.client, ce.waiter);
      RegisterSends(Drop(n.client, ce.waiter), n.client.parked[ce.waiter]);
      ClientSends(n, Resume(n.client, ce.waiter).0, SentBy(Resume(n.client, ce.waiter).1));
    } else {
      SinkRuns.DropKeeps(n.client, ce.waiter);
      assert TrackedOf([]) == [];
      ClientSends(n, Drop(n.client, ce.waiter), []);
    }
  }

  /** The next acknowledgement on the way back is the one the client's oldest sender waits for. */
  lemma AckIsExpected(cfg: Config, n: Net)
    requires Inv(n) && n.back != []
    ensures n.client.order != [] && n.client.order[0] == n.back[0].id && n.back[0].id in n.client.inflight
    ensures n.client.inflight[n.back[0].id].kind == KindOf(n.back[0])
  {
  }

  lemma AckTaken(v: Version, c: State, ack: Ack)
    requires ClientSound(c) && c.order != [] && c.order[0] == ack.id && ack.id in c.inflight
    requires c.inflight[ack.id].kind == KindOf(ack)
    ensures var (c', r) := AckIn(v, c, ack);
            && r == Ok(()) && ClientSound(c')
            && |c'.delivered| <= |c'.registered| && |c.delivered| < |c.registered|
            && Expected(c') == Expected(c)[1..]
  {
    SinkRuns.AckV3Keeps(c, ack);
    SinkRuns.AckV5Keeps(c, ack);
    ExpectedIsOrder(c);
    assert AckIn(v, c, ack) == Settle(c, ack);
  }

  lemma ClientReceives(n: Net, c: State)
    requires Inv(n) && n.back != [] && ClientSound(c)
    requires Expected(n.client) != [] && Expected(c) == Expected(n.client)[1..]
    ensures Inv(n.(client := c, back := n.back[1..]))
  {
    var f := TrackedOf(n.forward);
    var u := TrackedOf(Unwritten(n));
    assert AckKeys(n.back[1..]) == AckKeys(n.back)[1..];
    DropFirst(AckKeys(n.back), u, f);
  }

  lemma DropFirst<T>(a: seq<T>, b: seq<T>, c: seq<T>)
    requires a != []
    ensures (a + b + c)[1..] == a[1..] + b + c
  {
  }

  lemma AckReceivedKeeps(cfg: Config, n: Net)
    requires Inv(n) && n.back != []
    ensures Inv(Connection.Next(cfg, n, AckReceived))
  {
    AckIsExpected(cfg, n);
    AckTaken(cfg.version, n.client, n.back[0]);
    var c := AckIn(cfg.version, n.client, n.back[0]).0;
    assert Connection.Next(cfg, n, AckReceived) == n.(client := c, back := n.back[1..]);
    ClientReceives(n, c);
  }

  // ----- Server steps

  ghost predicate WrittenAnswer(n: Net) {
    && |n.server.written| <= |n.requests|
    && (forall k :: 0 <= k < |n.server.written| ==> Answers(n.requests[k], n.server.written[k]))
  }

  /** Whatever was written in a step moves from the queue to the way back. */
  lemma WritingConserves(n: Net, n': Net)
    requires WrittenAnswer(n')
    requires n.server.written <= n'.server.written
    requires n'.back == n.back + Acks(n'.server.written[|n.server.written|..])
    ensures AckKeys(n.back) + TrackedOf(n'.requests[|n.server.written|..]) + TrackedOf(n'.forward)
         == AckKeys(n'.back) + TrackedOf(Unwritten(n')) + TrackedOf(n'.forward)
  {
    var w, w' := |n.server.written|, |n'.server.written|;
    var out := n'.server.written[w..];
    var ps := n'.requests[w..w'];
    AcksAnswer(ps, out);
    TrackedConcat(ps, Unwritten(n'));
    assert n'.requests[w..] == ps + Unwritten(n');
    AckKeysConcat(n.back, Acks(out));
    Regroup(AckKeys(n.back), TrackedOf(ps), TrackedOf(Unwritten(n')), TrackedOf(n'.forward));
  }

  /** Distinct unanswered tracked requests have distinct identifiers. */
  lemma UnansweredDistinct(n: Net, j: nat, k: nat)
    requires Inv(n) && |n.server.written| <= j < k < |n.requests|
    requires n.requests[j].Tracked? && n.requests[k].Tracked?
    ensures n.requests[j].id != n.requests[k].id
  {
    hide SinkRuns.Inv, TrackedOf, AckKeys, Seen;
    var w := |n.server.written|;
    ExpectedIsOrder(n.client);
    PositionsDistinct(AckKeys(n.back), Unwritten(n), TrackedOf(n.forward), j - w, k - w);
  }

  /** The unanswered request that an identifier in flight at the server belongs to. */
  lemma OwnerOf(n: Net, id: u16) returns (k: nat)
    requires Inv(n) && id in n.seen
    ensures |n.server.written| <= k < |n.requests| && id in Id(n.requests[k])
  {
    assert HasOwner(id, n.server.Outstanding(), n.requests);
    hide Inv, Seen;
    k :| k in n.server.Outstanding() && k < |n.requests| && id in Id(n.requests[k]);
    assert |n.server.written| <= k by { OutstandingUnwritten(n, k); }
  }

  lemma OutstandingUnwritten(n: Net, k: nat)
    requires Inv(n) && k in n.server.Outstanding()
    ensures |n.server.written| <= k
  {
  }

  /** A queued request's identifier is in flight at the client, and not that of the next packet. */
  lemma QueuedIsOlder(n: Net, k: nat)
    requires Inv(n) && |n.server.written| <= k < |n.requests| && n.requests[k].Tracked?
    ensures n.requests[k].id in n.client.inflight
    ensures n.forward != [] && n.forward[0].Tracked? ==> n.forward[0].id != n.requests[k].id
  {
    hide SinkRuns.Inv, Reorder.Inv, TrackedOf, AckKeys, Seen, Answered, DistinctIds;
    var w := |n.server.written|;
    assert Unwritten(n)[k - w] == n.requests[k];
    DeliveredBound(n.client);
    TrackedMember(Unwritten(n), k - w);
    ExpectedInflight(n.client, Registration(n.requests[k].id, n.requests[k].kind));
    if n.forward != [] && n.forward[0].Tracked? {
      QueuedNotForward(AckKeys(n.back), Unwritten(n), n.forward, k - w);
    }
  }

  /** An identifier in flight at the server is not the one of the next packet, and is in flight at the client. */
  lemma SeenIsOlder(n: Net, id: u16)
    requires Inv(n) && id in n.seen
    ensures id in n.client.inflight
    ensures n.forward != [] && n.forward[0].Tracked? ==> n.forward[0].id != id
  {
    hide Inv;
    var k := OwnerOf(n, id);
    QueuedIsOlder(n, k);
  }

  lemma ExpectedInflight(c: State, r: Registration)
    requires ClientSound(c) && |c.delivered| <= |c.registered|
    ensures DistinctIds(Expected(c))
    ensures r in Expected(c) ==> r.id in c.inflight
  {
    ExpectedIsOrder(c);
  }

  /** Dispatching moves a request from the link to the queue. */
  lemma DispatchConserves(n: Net)
    requires Inv(n) && n.forward != []
    ensures Expected(n.client)
         == AckKeys(n.back) + TrackedOf((n.requests + [n.forward[0]])[|n.server.written|..]) + TrackedOf(n.forward[1..])
  {
    var w := |n.server.written|;
    var p := n.forward[0];
    assert (n.requests + [p])[w..] == Unwritten(n) + [p];
    TrackedConcat(Unwritten(n), [p]);
    TrackedConcat([p], n.forward[1..]);
    assert n.forward == [p] + n.forward[1..];
    Regroup(AckKeys(n.back), TrackedOf(Unwritten(n)), TrackedOf([p]), TrackedOf(n.forward[1..]));
  }

  lemma SeenGrows(seen: set<u16>, out: set<nat>, requests: seq<Packet>, p: Packet)
    requires Seen(seen, out, requests)
    ensures Seen(seen, out, requests + [p])
    ensures Seen(seen + Id(p), out + {|requests|}, requests + [p])
  {
    var rs := requests + [p];
    forall id | id in seen ensures HasOwner(id, out, rs) && HasOwner(id, out + {|requests|}, rs) {
      assert HasOwner(id, out, requests);
      var k :| k in out && k < |requests| && id in Id(requests[k]);
      assert rs[k] == requests[k] && k in out + {|requests|};
    }
    forall id | id in Id(p) ensures HasOwner(id, out + {|requests|}, rs) {
      assert rs[|requests|] == p && |requests| in out + {|requests|};
    }
  }

  lemma SeenShrinks(seen: set<u16>, out: set<nat>, requests: seq<Packet>, k: nat)
    requires Seen(seen, out, requests) && k in out
    requires forall j :: j in out && j != k ==> Id(requests[j]) !! Id(requests[k])
    ensures Seen(seen - Id(requests[k]), out - {k}, requests)
  {
    forall id | id in seen - Id(requests[k]) ensures HasOwner(id, out - {k}, requests) {
      assert HasOwner(id, out, requests);
      var j :| j in out && j < |requests| && id in Id(requests[j]);
      assert j in out - {k};
    }
  }

  lemma CallOutstanding<T>(s: Reorder.Dispatch<T>, e: Reorder.Event<T>)
    requires Reorder.Enabled(s, e) && (e.CallPending? || e.CallInline?)
    ensures Reorder.Next(s, e).Outstanding() == s.Outstanding() + if e.CallPending? then {s.calls} else {}
    ensures Reorder.Next(s, e).calls == s.calls + 1
    ensures Reorder.Next(s, e).results == if e.CallPending? then s.results else s.results[s.calls := e.res]
  {
  }

  lemma ReceiveAnswered(n: Net, n': Net, e: Reorder.Event<Option<Ack>>, p: Packet)
    requires Reorder.Counted(n.server) && Reorder.Kept(n.server) && Answered(n) && Reorder.Enabled(n.server, e)
    requires e.CallPending? || (e.CallInline? && Answers(p, e.res))
    requires n'.server == Reorder.Next(n.server, e) && n'.requests == n.requests + [p]
    ensures Answered(n')
  {
  }

  /** A step of the reorder buffer, once the packet and the identifiers are accounted for. */
  lemma ServerKeeps(n: Net, e: Reorder.Event<Option<Ack>>)
    requires ClientSound(n.client) && Reorder.Inv(n.server) && Reorder.Enabled(n.server, e)
    requires |n.server.written| <= |n.requests| && |n.client.delivered| <= |n.client.registered|
    requires Expected(n.client) == AckKeys(n.back) + TrackedOf(Unwritten(n)) + TrackedOf(n.forward)
    requires Answered(ServerStep(n, e))
    requires Seen(n.seen, Reorder.Next(n.server, e).Outstanding(), n.requests)
    ensures Inv(ServerStep(n, e))
  {
    Reorder.NextKeeps(n.server, e);
    Reorder.WrittenGrows(n.server, e);
    WritingConserves(n, ServerStep(n, e));
  }

  lemma ReceiveKeeps(cfg: Config, n: Net, inline: Option<Option<Ack>>)
    requires Inv(n) && Connection.Enabled(cfg, n, Receive(inline))
    ensures Inv(Connection.Next(cfg, n, Receive(inline)))
  {
    hide SinkRuns.Inv, TrackedOf, AckKeys, Seen, Answered, Admit, Answers, Reorder.Next;
    hide Reorder.Owned, Reorder.Indexed, Reorder.Kept, Reorder.FrontPending, DistinctIds;
    var p := n.forward[0];
    var e := if inline.Some? then Reorder.CallInline(inline.value) else Reorder.CallPending;
    var n1 := n.(forward := n.forward[1..], requests := n.requests + [p],
                 seen := if inline.Some? then n.seen else n.seen + Id(p));
    assert Connection.Next(cfg, n, Receive(inline)) == ServerStep(n1, e);
    DeliveredBound(n.client);
    CallOutstanding(n.server, e);
    SeenGrows(n.seen, n.server.Outstanding(), n.requests, p);
    assert n.server.Outstanding() + {} == n.server.Outstanding();
    DispatchConserves(n);
    ReceiveAnswered(n, ServerStep(n1, e), e, p);
    ServerKeeps(n1, e);
  }

  lemma FinishOutstanding(s: Reorder.Dispatch<Option<Ack>>, e: Reorder.Event<Option<Ack>>)
    requires Reorder.Counted(s) && Reorder.Enabled(s, e) && (e.CompleteSlot? || e.CompleteSpawned?)
    ensures CallOf(s, e) in s.Outstanding()
    ensures Reorder.Next(s, e).Outstanding() == s.Outstanding() - {CallOf(s, e)}
    ensures Reorder.Next(s, e).calls == s.calls
    ensures Reorder.Next(s, e).results == s.results[CallOf(s, e) := e.res]
  {
  }

  lemma OthersDiffer(n: Net, k: nat)
    requires Inv(n) && k in n.server.Outstanding()
    ensures forall j :: j in n.server.Outstanding() && j != k ==> Id(n.requests[j]) !! Id(n.requests[k])
  {
    forall j | j in n.server.Outstanding() && j != k ensures Id(n.requests[j]) !! Id(n.requests[k]) {
      if n.requests[j].Tracked? && n.requests[k].Tracked? {
        if j < k { UnansweredDistinct(n, j, k); } else { UnansweredDistinct(n, k, j); }
      }
    }
  }

  lemma FinishKeeps(cfg: Config, n: Net, e: Reorder.Event<Option<Ack>>)
    requires Inv(n) && Connection.Enabled(cfg, n, Finish(e))
    ensures Inv(Connection.Next(cfg, n, Finish(e)))
  {
    hide SinkRuns.Inv, TrackedOf, AckKeys, Seen, Answers, Reorder.Next;
    var k := CallOf(n.server, e);
    var n1 := n.(seen := n.seen - Id(n.requests[k]));
    assert Connection.Next(cfg, n, Finish(e)) == ServerStep(n1, e);
    ExpectedIsOrder(n.client);
    FinishOutstanding(n.server, e);
    OthersDiffer(n, k);
    SeenShrinks(n.seen, n.server.Outstanding(), n.requests, k);
    ServerKeeps(n1, e);
  }

  lemma NextKeeps(cfg: Config, n: Net, e: Connection.Event)
    requires Inv(n) && Connection.Enabled(cfg, n, e)
    ensures Inv(Connection.Next(cfg, n, e))
  {
    match e
    case Client(ce) => ClientKeeps(cfg, n, ce);
    case SendUntracked =>
      assert TrackedOf([Untracked]) == [] by { assert [Untracked][1..] == []; }
      ExpectedIsOrder(n.client);
      ClientSends(n, n.client, [Untracked]);
    case Receive(inline) => ReceiveKeeps(cfg, n, inline);
    case Finish(se) => FinishKeeps(cfg, n, se);
    case AckReceived => AckReceivedKeeps(cfg, n);
  }

  lemma {:induction false} RunKeeps(cfg: Config, es: seq<Connection.Event>)
    ensures Connection.Run(cfg, es).Some? ==> Inv(Connection.Run(cfg, es).value)
  {
    if es == [] {
      assert AckKeys([]) == [];
    } else if Connection.Run(cfg, es).Some? {
      RunKeeps(cfg, es[..|es| - 1]);
      NextKeeps(cfg, Connection.Run(cfg, es[..|es| - 1]).value, es[|es| - 1]);
    }
  }

  lemma ReachableInv(cfg: Config, n: Net)
    requires Connection.Reachable(cfg, n)
    ensures Inv(n)
  {
    var es :| Connection.Run(cfg, es) == Some(n);
    RunKeeps(cfg, es);
  }

  // ----- The theorems

  /**
    Conservation: what the client expects, in order and with types, is what is on the way
    back, then what the server has not answered on the wire, then what is on the way forward.
   */
  lemma ExpectedIsInTransit(cfg: Config, n: Net)
    requires Connection.Reachable(cfg, n)
    ensures n.client.open && |n.client.registered| == |n.client.delivered| + |n.client.order|
    ensures |n.server.written| <= |n.requests|
    ensures Expected(n.client) == AckKeys(n.back) + TrackedOf(Unwritten(n)) + TrackedOf(n.forward)
    ensures forall i :: 0 <= i < |n.client.order| ==>
              n.client.order[i] in n.client.inflight
              && Expected(n.client)[i].id == n.client.order[i]
              && Expected(n.client)[i].kind == n.client.inflight[n.client.order[i]].kind
  {
    ReachableInv(cfg, n);
    ExpectedIsOrder(n.client);
  }

  /** The client's strict order check never fails. */
  lemma AckNeverRejected(cfg: Config, n: Net)
    requires Connection.Reachable(cfg, n) && n.back != []
    ensures AckIn(cfg.version, n.client, n.back[0]).1 == Ok(())
  {
    ReachableInv(cfg, n);
    AckIsExpected(cfg, n);
    AckTaken(cfg.version, n.client, n.back[0]);
  }

  /** The server never finds a packet identifier it already has in flight. */
  lemma NeverDuplicate(cfg: Config, n: Net)
    requires Connection.Reachable(cfg, n) && n.forward != []
    ensures Admit(cfg, n.seen, n.forward[0]) != Duplicate
  {
    ReachableInv(cfg, n);
    if n.forward[0].Tracked? && n.forward[0].id as u16 in n.seen {
      SeenIsOlder(n, n.forward[0].id);
    }
  }

  /** A packet on the way forward takes the server to at most as many identifiers as the client has in flight. */
  lemma SeenBelowInflight(n: Net)
    requires Inv(n) && n.forward != [] && n.forward[0].Tracked?
    ensures |n.seen| < |n.client.inflight|
  {
    hide SinkRuns.Inv, TrackedOf, AckKeys, Seen, Reorder.Inv;
    var id: u16 := n.forward[0].id;
    ExpectedIsOrder(n.client);
    TrackedMember(n.forward, 0);
    assert Registration(n.forward[0].id, n.forward[0].kind) in Expected(n.client);
    forall x | x in n.seen + {id} ensures x in n.client.inflight.Keys {
      if x in n.seen { SeenIsOlder(n, x); }
    }
    if id in n.seen { SeenIsOlder(n, id); }
    SubsetSize(n.seen + {id}, n.client.inflight.Keys);
  }

  lemma {:induction false} PoliteWithinCap(cfg: Config, es: seq<Connection.Event>)
    requires Connection.Run(cfg, es).Some? && Polite(cfg, es)
    ensures var c := Connection.Run(cfg, es).value.client;
            c.cap == cfg.cap && FlowControl.Committed(c) <= cfg.cap
  {
    hide SinkRuns.Inv, Reorder.Inv, Reorder.Next, TrackedOf, AckKeys, Seen, Answered, AckIn, Fresh, Resume;
    if es != [] {
      var p := es[..|es| - 1];
      PoliteWithinCap(cfg, p);
      RunKeeps(cfg, p);
      var n, e := Connection.Run(cfg, p).value, es[|es| - 1];
      if e.Client? {
        FlowControl.StepWithinCap(cfg.version, n.client, e.send);
      } else if e.AckReceived? {
        FlowControl.StepWithinCap(cfg.version, n.client, AckArrives(n.back[0]));
      }
    }
  }

  /**
    Receive maximum: if the client's cap is the server's maximum, or below it, and the run
    is polite, the server never reports that the receive maximum is exceeded.
   */
  lemma NeverExceedsReceiveMaximum(cfg: Config, es: seq<Connection.Event>)
    requires Connection.Run(cfg, es).Some? && Polite(cfg, es)
    requires cfg.maxReceive == 0 || cfg.cap <= cfg.maxReceive
    ensures var n := Connection.Run(cfg, es).value;
            n.forward != [] ==> Admit(cfg, n.seen, n.forward[0]) == Accepted
  {
    var n := Connection.Run(cfg, es).value;
    RunKeeps(cfg, es);
    PoliteWithinCap(cfg, es);
    if n.forward != [] {
      assert Connection.Reachable(cfg, n);
      NeverDuplicate(cfg, n);
      if n.forward[0].Tracked? { SeenBelowInflight(n); }
    }
  }

  /** A run in which woken senders go on before fresh sends start is polite. */
  lemma {:induction false} ResumingFirstIsPolite(cfg: Config, es: seq<Connection.Event>)
    requires Connection.Run(cfg, es).Some? && Connection.ResumesFirst(cfg, es)
    ensures Polite(cfg, es)
  {
    if es != [] {
      var p := es[..|es| - 1];
      ResumingFirstIsPolite(cfg, p);
      PoliteWithinCap(cfg, p);
      var c := Connection.Run(cfg, p).value.client;
      if es[|es| - 1].Client? && es[|es| - 1].send.FreshSend? {
        assert FlowControl.Committed(c) == |c.inflight| <= c.cap;
      }
    }
  }

  /** Nothing is in transit and every request has been answered. */
  predicate Quiescent(n: Net) {
    n.forward == [] && n.back == [] && n.server.Outstanding() == {}
  }

  /** When nothing is in transit or unanswered, every registered sender has got its acknowledgement. */
  lemma QuiescentMeansAcknowledged(cfg: Config, n: Net)
    requires Connection.Reachable(cfg, n) && Quiescent(n)
    ensures n.client.order == [] && n.client.inflight == map[]
    ensures |n.client.delivered| == |n.client.registered|
    ensures forall i :: 0 <= i < |n.client.registered| ==>
              && n.client.delivered[i].sender == i
              && n.client.delivered[i].ack.id == n.client.registered[i].id
              && KindOf(n.client.delivered[i].ack) == n.client.registered[i].kind
  {
    ReachableInv(cfg, n);
    var w := |n.server.written|;
    Reorder.NoneOutstanding(n.server);
    assert Unwritten(n) == [];
    ExpectedIsOrder(n.client);
    forall i | 0 <= i < |n.client.registered|
      ensures n.client.delivered[i].sender == i
      ensures n.client.delivered[i].ack.id == n.client.registered[i].id
      ensures KindOf(n.client.delivered[i].ack) == n.client.registered[i].kind
    {
      assert SinkRuns.DeliveryMatches(n.client, n.client.delivered[i]);
    }
  }

  // ----- Quiescence can always be reached

  /** What is left to deliver, weighted by how far it still has to go. */
  ghost function Work(n: Net): nat
    requires |n.server.written| <= n.server.calls
  {
    4 * |n.forward| + 2 * (n.server.calls - |n.server.written|) + |n.server.Outstanding()| + |n.back|
  }

  /** Neither end sends anything new. */
  predicate Delivers(e: Connection.Event) {
    e.Receive? || e.Finish? || e.AckReceived?
  }

  lemma {:induction false} AcksFewer(out: seq<Option<Ack>>)
    ensures |Acks(out)| <= |out|
  {
    if out != [] { AcksFewer(out[1..]); }
  }

  /** Writing an answer moves it one step on. */
  lemma ServerWork(n: Net, e: Reorder.Event<Option<Ack>>)
    requires Reorder.Inv(n.server) && Reorder.Enabled(n.server, e)
    ensures var s' := Reorder.Next(n.server, e);
            var n' := ServerStep(n, e);
            && |s'.written| <= s'.calls
            && |n'.back| + |n.server.written| <= |n.back| + |s'.written| && |n.server.written| <= |s'.written|
  {
    hide Reorder.Owned, Reorder.Indexed, Reorder.Kept, Reorder.FrontPending, Reorder.Next;
    Reorder.NextKeeps(n.server, e);
    Reorder.WrittenGrows(n.server, e);
    AcksFewer(Reorder.Next(n.server, e).written[|n.server.written|..]);
  }

  lemma ReceiveWork(cfg: Config, n: Net, inline: Option<Option<Ack>>)
    requires Inv(n) && Connection.Enabled(cfg, n, Receive(inline))
    ensures var n' := Connection.Next(cfg, n, Receive(inline));
            |n.server.written| <= n.server.calls && |n'.server.written| <= n'.server.calls && Work(n') < Work(n)
  {
    hide SinkRuns.Inv, TrackedOf, AckKeys, Seen, Answered, Admit, Answers, Reorder.Next;
    hide Reorder.Owned, Reorder.Indexed, Reorder.Kept, Reorder.FrontPending;
    var p := n.forward[0];
    var e := if inline.Some? then Reorder.CallInline(inline.value) else Reorder.CallPending;
    var n1 := n.(forward := n.forward[1..], requests := n.requests + [p],
                 seen := if inline.Some? then n.seen else n.seen + Id(p));
    CallOutstanding(n.server, e);
    ServerWork(n1, e);
    OneMore(n.server.Outstanding(), if e.CallPending? then {n.server.calls} else {});
  }

  lemma OneMore(a: set<nat>, b: set<nat>)
    requires |b| <= 1
    ensures |a + b| <= |a| + 1
  {
    SubsetSize(b - a, b);
    assert a + b == a + (b - a);
  }

  lemma FinishWork(cfg: Config, n: Net, e: Reorder.Event<Option<Ack>>)
    requires Inv(n) && Connection.Enabled(cfg, n, Finish(e))
    ensures var n' := Connection.Next(cfg, n, Finish(e));
            |n.server.written| <= n.server.calls && |n'.server.written| <= n'.server.calls && Work(n') < Work(n)
  {
    hide SinkRuns.Inv, TrackedOf, AckKeys, Seen, Answered, Answers, Reorder.Next;
    hide Reorder.Owned, Reorder.Indexed, Reorder.Kept, Reorder.FrontPending;
    var k := CallOf(n.server, e);
    FinishOutstanding(n.server, e);
    ServerWork(n.(seen := n.seen - Id(n.requests[k])), e);
  }

  /** Every delivery is a step towards quiescence. */
  lemma DeliveryWorks(cfg: Config, n: Net, e: Connection.Event)
    requires Inv(n) && Connection.Enabled(cfg, n, e) && Delivers(e)
    ensures var n' := Connection.Next(cfg, n, e);
            |n.server.written| <= n.server.calls && |n'.server.written| <= n'.server.calls && Work(n') < Work(n)
  {
    hide SinkRuns.Inv, TrackedOf, AckKeys, Seen, Answered, Admit, Answers, Reorder.Next, AckIn;
    hide Reorder.Owned, Reorder.Indexed, Reorder.Kept, Reorder.FrontPending;
    match e
    case Receive(inline) => ReceiveWork(cfg, n, inline);
    case Finish(se) => FinishWork(cfg, n, se);
    case AckReceived =>
  }

  /** The reply that a handler gives. */
  function ReplyTo(p: Packet): (r: Option<Ack>)
    ensures Answers(p, r)
  {
    match p
    case Untracked => None
    case Tracked(id, kind) =>
      (match kind
       case PublishKind => Some(PublishAck(id))
       case SubscribeKind => Some(SubscribeAck(id, []))
       case UnsubscribeKind => Some(UnsubscribeAck(id)))
  }

  lemma FinishEnabled(cfg: Config, n: Net, k: nat) returns (e: Connection.Event)
    requires Inv(n) && k in n.server.Outstanding()
    ensures Delivers(e) && Connection.Enabled(cfg, n, e)
  {
    hide SinkRuns.Inv, TrackedOf, AckKeys, Seen, Answers;
    hide Reorder.Owned, Reorder.Indexed, Reorder.Kept, Reorder.FrontPending, Reorder.Addresses;
    Reorder.IndexReachesCell(n.server, k);
    var reply := ReplyTo(n.requests[k]);
    e := Finish(if k in n.server.spawned then Reorder.CompleteSpawned(k, reply) else Reorder.CompleteSlot(reply));
  }

  /** In a polite run within the receive maximum, some delivery is possible unless the connection is quiescent. */
  lemma DeliveryPossible(cfg: Config, es: seq<Connection.Event>) returns (e: Connection.Event)
    requires Connection.Run(cfg, es).Some? && Polite(cfg, es) && !Quiescent(Connection.Run(cfg, es).value)
    requires cfg.maxReceive == 0 || cfg.cap <= cfg.maxReceive
    ensures Delivers(e) && Connection.Enabled(cfg, Connection.Run(cfg, es).value, e)
  {
    hide SinkRuns.Inv, TrackedOf, AckKeys, Seen, Admit, Polite, Connection.Run;
    hide Reorder.Owned, Reorder.Indexed, Reorder.Kept, Reorder.FrontPending;
    var n := Connection.Run(cfg, es).value;
    RunKeeps(cfg, es);
    if n.back != [] {
      e := AckReceived;
    } else if n.server.Outstanding() != {} {
      var k :| k in n.server.Outstanding();
      e := FinishEnabled(cfg, n, k);
    } else {
      NeverExceedsReceiveMaximum(cfg, es);
      Reorder.NoneOutstanding(n.server);
      e := Receive(None);
    }
  }

  lemma DeliveryStaysPolite(cfg: Config, es: seq<Connection.Event>, e: Connection.Event)
    requires Connection.Run(cfg, es).Some? && Polite(cfg, es) && Delivers(e)
    requires Connection.Enabled(cfg, Connection.Run(cfg, es).value, e)
    ensures Connection.Run(cfg, es + [e]) == Some(Connection.Next(cfg, Connection.Run(cfg, es).value, e))
    ensures Polite(cfg, es + [e])
  {
    hide Connection.Next, Connection.Enabled;
    assert (es + [e])[..|es|] == es;
  }

  /**
    From every state of a polite run within the receive maximum, deliveries alone lead to a state
    in which every registered sender has got its acknowledgement; any order of them does, since
    each makes the remaining work smaller.
   */
  lemma {:induction false} QuiescenceReachable(cfg: Config, es: seq<Connection.Event>)
    returns (more: seq<Connection.Event>)
    requires Connection.Run(cfg, es).Some? && Polite(cfg, es)
    requires cfg.maxReceive == 0 || cfg.cap <= cfg.maxReceive
    ensures forall i :: 0 <= i < |more| ==> Delivers(more[i])
    ensures Connection.Run(cfg, es + more).Some? && Quiescent(Connection.Run(cfg, es + more).value)
    ensures var c := Connection.Run(cfg, es + more).value.client;
            c.inflight == map[] && |c.delivered| == |c.registered|
    decreases WorkAfter(cfg, es)
  {
    hide Connection.Run, Connection.Next, Connection.Enabled, Polite, Inv, Quiescent, Work, Delivers;
    var n := Connection.Run(cfg, es).value;
    RunKeeps(cfg, es);
    if Quiescent(n) {
      more := [];
      assert es + more == es;
      assert Connection.Reachable(cfg, n);
      QuiescentMeansAcknowledged(cfg, n);
    } else {
      var e := DeliveryPossible(cfg, es);
      DeliveryStaysPolite(cfg, es, e);
      DeliveryWorks(cfg, n, e);
      var rest := QuiescenceReachable(cfg, es + [e]);
      more := [e] + rest;
      assert es + more == es + [e] + rest;
    }
  }

  ghost function WorkAfter(cfg: Config, es: seq<Connection.Event>): nat
    requires Connection.Run(cfg, es).Some?
  {
    var n := Connection.Run(cfg, es).value;
    if |n.server.written| <= n.server.calls then Work(n) else 0
  }

  // ----- Why the receive-maximum theorem needs its condition

  const CFG := Connection.Config(V5, 1, 1)
  const REQ := Request(PublishKind, 0)

  lemma Extend(es: seq<Connection.Event>, n: Connection.Net, e: Connection.Event)
    requires Connection.Run(CFG, es) == Some(n) && Connection.Enabled(CFG, n, e)
    ensures Connection.Run(CFG, es + [e]) == Some(Connection.Next(CFG, n, e))
  {
    assert (es + [e])[..|es|] == es;
  }

  /** One identifier in flight, and a second sender waiting. */
  function SecondWaits(): State {
    State(true, 1, 1, map[1 := Entry(0, PublishKind)], [1], [0], map[0 := REQ], {}, 1,
          [Registration(1, PublishKind)], [], false, 1)
  }

  function Requested(): Connection.Net {
    Connection.Net(SecondWaits(), [Connection.Tracked(1, PublishKind)], {}, Reorder.Init(), [], [])
  }

  lemma ClientAsks() returns (es: seq<Connection.Event>)
    ensures Connection.Run(CFG, es) == Some(Requested())
  {
    var send := Connection.Client(FreshSend(REQ));
    es := [];
    var n0 := Connection.Init(CFG);
    Extend(es, n0, send);
    es := es + [send];
    var n1 := Connection.Next(CFG, n0, send);
    assert n1.client == SecondWaits().(waiters := [], parked := map[], nextWaiter := 0);
    assert n1.forward == [Connection.Tracked(1, PublishKind)];
    Extend(es, n1, send);
    es := es + [send];
    assert Connection.Next(CFG, n1, send) == Requested();
  }

  /** The server has answered at once, and the acknowledgement has woken the second sender. */
  function Woken(): Connection.Net {
    var c := SecondWaits().(order := [], inflight := map[], waiters := [], woken := {0},
                            delivered := [Delivery(0, PublishAck(1))]);
    var answer := Some(PublishAck(1));
    Connection.Net(c, [], {}, Reorder.Dispatch(Reorder.Buffer(0, []), None, 0, map[], 1, map[0 := answer], [answer]),
                   [Connection.Tracked(1, PublishKind)], [])
  }

  lemma ServerAnswers(es: seq<Connection.Event>) returns (es': seq<Connection.Event>)
    requires Connection.Run(CFG, es) == Some(Requested())
    ensures Connection.Run(CFG, es') == Some(Woken())
  {
    var answer := Some(PublishAck(1));
    var receive := Connection.Receive(Some(answer));
    var n := Requested();
    Extend(es, n, receive);
    var n1 := Connection.Next(CFG, n, receive);
    assert n1.server == Woken().server && n1.requests == Woken().requests && n1.forward == [];
    assert n1.server.written[0..] == [answer];
    assert Connection.Acks([answer]) == [PublishAck(1)] by { assert [answer][1..] == []; }
    assert n1.back == [PublishAck(1)] && n1.client == SecondWaits();
    Extend(es + [receive], n1, Connection.AckReceived);
    es' := es + [receive] + [Connection.AckReceived];
    var c := FlowControl.WakeFirst(V5, n1.client);
    assert Connection.Next(CFG, n1, Connection.AckReceived) == Woken();
  }

  /** The fresh send takes the identifier 2, the woken sender goes on with 3. */
  lemma TwoSends(es: seq<Connection.Event>) returns (es': seq<Connection.Event>, n: Connection.Net)
    requires Connection.Run(CFG, es) == Some(Woken())
    ensures Connection.Run(CFG, es') == Some(n) && n == Woken().(client := n.client, forward := n.forward)
    ensures n.forward == [Connection.Tracked(2, PublishKind), Connection.Tracked(3, PublishKind)]
  {
    var send, resume := Connection.Client(FreshSend(REQ)), Connection.Client(ResumeSend(0));
    Extend(es, Woken(), send);
    var n1 := Connection.Next(CFG, Woken(), send);
    assert n1.client.inflight.Keys == {2} && n1.forward == [Connection.Tracked(2, PublishKind)];
    Extend(es + [send], n1, resume);
    es' := es + [send] + [resume];
    n := Connection.Next(CFG, n1, resume);
  }

  /** With the cap equal to the receive maximum, an impolite run ends in a refusal. */
  lemma PolitenessIsNeeded() returns (es: seq<Connection.Event>, n: Connection.Net)
    ensures CFG.cap == CFG.maxReceive == 1
    ensures Connection.Run(CFG, es) == Some(n) && !Connection.Polite(CFG, es)
    ensures n.forward != [] && Connection.Admit(CFG, n.seen, n.forward[0]) == Connection.ReceiveMaximumExceeded
  {
    es := ClientAsks();
    es := ServerAnswers(es);
    es, n := TwoSends(es);
    var receive := Connection.Receive(None);
    Extend(es, n, receive);
    var n1 := Connection.Next(CFG, n, receive);
    assert n1.seen == {2} && n1.forward == [Connection.Tracked(3, PublishKind)];
    es, n := es + [receive], n1;
    if Connection.Polite(CFG, es) {
      NeverExceedsReceiveMaximum(CFG, es);
    }
  }

  // ----- The admission check is that of the inbound dispatcher of an MQTT 5.0 server

  /** A publish without an alias is admitted, found duplicate or over the maximum by both alike. */
  lemma PublishAgrees(cfg: Connection.Config, maxTopicAlias: u16, s: V5Inbound.State, id: Bytes.nz16,
                      topic: seq<Bytes.byte>)
    ensures var admitted := Connection.Admit(cfg, s.inflight, Connection.Tracked(id, Sink.PublishKind));
            var judged := V5Inbound.Judge(V5Inbound.Config(cfg.maxReceive, maxTopicAlias), s,
                                          V5Inbound.Message(Some(id), topic, None));
            && (admitted == Connection.Accepted <==> judged == V5Inbound.Accepted)
            && (admitted == Connection.Duplicate <==> judged == V5Inbound.IdInUse)
            && (admitted == Connection.ReceiveMaximumExceeded
                <==> judged == V5Inbound.Rejected(V5Inbound.ReceiveMaximumExceeded))
  {
  }

  /** A subscription is admitted exactly if its identifier is registered by the inbound dispatcher. */
  lemma SubscribeAgrees(cfg: Connection.Config, s: V5Inbound.State, item: V5Inbound.Item, id: Bytes.nz16,
                        kind: Sink.Kind)
    requires kind != Sink.PublishKind
    ensures Connection.Admit(cfg, s.inflight, Connection.Tracked(id, kind)) == Connection.Accepted
            <==> V5Inbound.ReceiveTracked(s, item, id).futures == s.futures + [V5Inbound.Controlling(id, false, 0)]
  {
    var s' := V5Inbound.ReceiveTracked(s, item, id);
    assert s'.futures[|s.futures|] == if id in s.inflight then V5Inbound.Finished(0)
                                      else V5Inbound.Controlling(id, false, 0);
  }
}
