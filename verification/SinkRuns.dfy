/** What every run of an outgoing sink keeps. */
module SinkRuns {
  import opened Wrappers
  import opened Words
  import opened PacketIds
  import opened Collections
  import opened Sink

  // ----- In every run: acknowledgements reach the sender that registered their identifier and type

  ghost predicate EntriesRegistered(s: State) {
    forall id :: id in s.inflight ==>
      && s.inflight[id].sender < |s.registered|
      && s.registered[s.inflight[id].sender].id == id
      && s.registered[s.inflight[id].sender].kind == s.inflight[id].kind
  }

  ghost predicate DeliveryMatches(s: State, d: Delivery) {
    d.sender < |s.registered| && s.registered[d.sender] == Registration(d.ack.id, KindOf(d.ack))
  }

  ghost predicate Delivered(s: State) {
    && (forall i :: 0 <= i < |s.delivered| ==> DeliveryMatches(s, s.delivered[i]))
    && (forall i, j :: 0 <= i < j < |s.delivered| ==> s.delivered[i].sender != s.delivered[j].sender)
    && (forall i, id :: 0 <= i < |s.delivered| && id in s.inflight ==>
          s.delivered[i].sender != s.inflight[id].sender)
  }

  ghost predicate Numbered(s: State) {
    && s.counter == s.generated % IDS
    && s.woken <= s.parked.Keys
    && (forall w :: w in s.parked ==> w < s.nextWaiter)
    && (forall w :: w in s.waiters ==> w < s.nextWaiter && w !in s.woken)
    && NoDup(s.waiters)
  }

  // ----- While open: the order never names an identifier that is not in flight

  ghost predicate OrderSafe(s: State) {
    && NoDup(s.order)
    && (forall i :: 0 <= i < |s.order| ==> s.order[i] != 0 && s.order[i] in s.inflight)
  }

  // ----- Until the first failed acknowledgement: the order is the whole truth

  ghost predicate OrderExact(s: State)
    requires OrderSafe(s)
  {
    && (forall id :: id in s.inflight ==> id in s.order)
    && |s.registered| == |s.delivered| + |s.order|
    && (forall i :: 0 <= i < |s.order| ==> s.inflight[s.order[i]].sender == |s.delivered| + i)
    && (forall i :: 0 <= i < |s.delivered| ==> s.delivered[i].sender == i)
  }

  ghost predicate Inv(s: State) {
    && EntriesRegistered(s) && Delivered(s) && Numbered(s)
    && (s.open ==> OrderSafe(s))
    && (s.open && !s.failed ==> OrderExact(s))
  }

  lemma EnterKeeps(s: State, id: PacketId, kind: Kind)
    requires Inv(s) && id !in s.inflight
    ensures Inv(s.(inflight := s.inflight[id := Entry(|s.registered|, kind)],
                   order := s.order + [id],
                   registered := s.registered + [Registration(id, kind)]))
  {
  }

  lemma AdvanceKeeps(s: State)
    requires Inv(s)
    ensures Inv(s.(counter := NextId(s.counter).1, generated := s.generated + 1))
  {
  }

  lemma RegisterKeeps(s: State, req: Request)
    requires Inv(s)
    ensures Inv(Register(s, req).0)
  {
    hide Inv, NextId;
    var id := IdFor(s, req);
    AdvanceKeeps(s);
    if id !in s.inflight {
      EnterKeeps(if req.id == 0 then s.(counter := NextId(s.counter).1, generated := s.generated + 1) else s,
                 id, req.kind);
    }
  }

  lemma FreshKeeps(s: State, req: Request)
    requires Inv(s) && |s.inflight| < USIZE
    ensures Inv(Fresh(s, req).0)
  {
    if s.open {
      if HasCredit(s) {
        RegisterKeeps(s, req);
      } else {
        assert s.nextWaiter !in s.waiters;
      }
    }
  }

  lemma DropKeeps(s: State, w: nat)
    requires Inv(s)
    ensures Inv(Drop(s, w))
  {
  }

  lemma {:induction false} WakeFacts(waiters: seq<nat>, alive: set<nat>)
    requires NoDup(waiters)
    ensures var (rest, w) := Wake(waiters, alive);
            && NoDup(rest) && (forall x :: x in rest ==> x in waiters)
            && (w.Some? ==> w.value !in rest)
  {
    if waiters != [] && waiters[0] !in alive {
      WakeFacts(waiters[1..], alive);
    }
  }

  lemma WakeOneKeeps(s: State)
    requires Inv(s)
    ensures Inv(WakeOne(s))
  {
    WakeFacts(s.waiters, s.parked.Keys);
  }

  lemma CloseKeeps(s: State)
    requires EntriesRegistered(s) && Delivered(s) && Numbered(s)
    ensures Inv(Close(s))
  {
  }

  /** The sink after the acknowledged entry is gone and before a waiter is woken. */
  lemma SettleMatchKeeps(s: State, ack: Ack)
    requires Inv(s) && s.order != [] && s.order[0] == ack.id && ack.id in s.inflight
    requires KindOf(ack) == s.inflight[ack.id].kind
    ensures var s' := s.(order := s.order[1..], inflight := s.inflight - {ack.id},
                         delivered := s.delivered + [Delivery(s.inflight[ack.id].sender, ack)]);
            Inv(s')
  {
    var e := s.inflight[ack.id];
    var s' := s.(order := s.order[1..], inflight := s.inflight - {ack.id},
                 delivered := s.delivered + [Delivery(e.sender, ack)]);
    assert DeliveryMatches(s', s'.delivered[|s.delivered|]);
    assert Delivered(s') by {
      forall id | id in s'.inflight ensures s'.inflight[id].sender != e.sender {
        assert s.registered[s.inflight[id].sender].id == id;
      }
    }
    if s.open {
      assert forall i :: 0 <= i < |s'.order| ==> s'.order[i] == s.order[i + 1];
    }
  }

  lemma SettleKeeps(s: State, ack: Ack)
    requires Inv(s) && s.order != [] && s.order[0] == ack.id
    ensures var (s', r) := Settle(s, ack);
            if r.Ok? then Inv(s') else Inv(s'.(failed := true))
  {
    if ack.id in s.inflight && KindOf(ack) == s.inflight[ack.id].kind {
      SettleMatchKeeps(s, ack);
      WakeOneKeeps(s.(order := s.order[1..], inflight := s.inflight - {ack.id},
                      delivered := s.delivered + [Delivery(s.inflight[ack.id].sender, ack)]));
    }
  }

  lemma AckV3Keeps(s: State, ack: Ack)
    requires Inv(s)
    ensures Inv(AckV3(s, ack).0)
  {
    if s.order == [] {
      CloseKeeps(s);
    } else if s.order[0] != ack.id {
      CloseKeeps(s.(order := s.order[1..]));
    } else {
      SettleKeeps(s, ack);
      if Settle(s, ack).1.Err? {
        CloseKeeps(Settle(s, ack).0.(failed := true));
      }
    }
  }

  lemma {:induction false} AckV5Keeps(s: State, ack: Ack)
    requires Inv(s)
    ensures Inv(AckV5(s, ack).0)
    decreases |s.order|
  {
    if s.order != [] && s.order[0] == 0 {
      AckV5Keeps(s.(order := s.order[1..]), ack);
    } else if s.order != [] && s.order[0] == ack.id {
      SettleKeeps(s, ack);
    }
  }

  lemma NextKeeps(v: Version, s: State, e: Event)
    requires Inv(s) && Enabled(s, e)
    ensures Inv(Next(v, s, e))
  {
    match e
    case FreshSend(req) => FreshKeeps(s, req);
    case ResumeSend(w) => DropKeeps(s, w); RegisterKeeps(Drop(s, w), s.parked[w]);
    case DropSend(w) => DropKeeps(s, w);
    case AckArrives(ack) => AckV3Keeps(s, ack); AckV5Keeps(s, ack);
    case CloseSink => CloseKeeps(s);
  }

  lemma {:induction false} RunKeeps(v: Version, cap: usize, es: seq<Event>)
    ensures Run(v, cap, es).Some? ==> Inv(Run(v, cap, es).value)
  {
    if es != [] && Run(v, cap, es).Some? {
      RunKeeps(v, cap, es[..|es| - 1]);
      NextKeeps(v, Run(v, cap, es[..|es| - 1]).value, es[|es| - 1]);
    }
  }

  ghost predicate Reachable(v: Version, cap: usize, s: State) {
    exists es :: Run(v, cap, es) == Some(s)
  }

  lemma ReachableInv(v: Version, cap: usize, s: State)
    requires Reachable(v, cap, s)
    ensures Inv(s)
  {
    var es :| Run(v, cap, es) == Some(s);
    RunKeeps(v, cap, es);
  }

  /** The branch that logs an in-flight state inconsistency is dead while the sink is open. */
  lemma OrderNamesInflight(v: Version, cap: usize, s: State, ack: Ack)
    requires Reachable(v, cap, s) && s.open && s.order != [] && s.order[0] == ack.id
    ensures ack.id in s.inflight
  {
    ReachableInv(v, cap, s);
  }

  /**
    Until an acknowledgement fails, the identifiers in flight are the expected ones, and an
    acknowledgement is accepted exactly when it has the identifier and the type that the
    oldest unacknowledged sender registered.
   */
  lemma AcceptsOldest(v: Version, cap: usize, s: State, ack: Ack)
    requires Reachable(v, cap, s) && s.open && !s.failed
    ensures s.inflight.Keys == Elements(s.order)
    ensures |s.inflight| == |s.order| == |s.registered| - |s.delivered|
    ensures AckIn(v, s, ack).1.Ok? <==>
            |s.delivered| < |s.registered| && s.registered[|s.delivered|] == Registration(ack.id, KindOf(ack))
  {
    ReachableInv(v, cap, s);
    OrderSize(s);
    if s.order != [] {
      assert s.order[0] in s.inflight;
    }
  }

  lemma OrderSize(s: State)
    requires Inv(s) && s.open && !s.failed
    ensures s.inflight.Keys == Elements(s.order)
    ensures |s.inflight| == |s.order|
  {
    NoDupSize(s.order);
    assert s.inflight.Keys == Elements(s.order);
  }

  /** Whatever happens, a sender gets at most one acknowledgement, of its own identifier and type. */
  lemma DeliveriesTyped(v: Version, cap: usize, s: State, i: nat, j: nat)
    requires Reachable(v, cap, s) && i < |s.delivered| && j < |s.delivered|
    ensures DeliveryMatches(s, s.delivered[i])
    ensures s.delivered[i].sender == s.delivered[j].sender ==> i == j
  {
    ReachableInv(v, cap, s);
  }

  /** Until an acknowledgement fails, senders are resolved in the order they registered. */
  lemma ResolvedInOrder(v: Version, cap: usize, s: State, i: nat)
    requires Reachable(v, cap, s) && s.open && !s.failed && i < |s.delivered|
    ensures s.delivered[i].sender == i
    ensures i < |s.registered| && s.registered[i] == Registration(s.delivered[i].ack.id, KindOf(s.delivered[i].ack))
  {
    ReachableInv(v, cap, s);
    assert DeliveryMatches(s, s.delivered[i]);
  }
}
