/**
  What closing a sink does to its senders (src/v3/sink.rs:48-69 and 141-146, src/v5/sink.rs:57-100):
  those in flight or queued see their channel closed, and only senders that were woken before go on.
 */
module SinkClosing {
  import opened Wrappers
  import opened Words
  import opened Sink
  import opened SinkRuns

  /** The events that close a sink: a close, and in MQTT 3.1.1 an acknowledgement that fails. */
  predicate Closes(v: Version, s: State, e: Event) {
    e.CloseSink? || (v == V3 && e.AckArrives? && AckV3(s, e.ack).1.Err?)
  }

  /** What a closing event leaves of a sink. */
  lemma ClosingEffect(v: Version, s: State, e: Event)
    requires Enabled(s, e) && Closes(v, s, e)
    ensures var s' := Next(v, s, e);
            && !s'.open && s'.inflight == map[] && s'.waiters == [] && s'.woken == s.woken
            && s'.registered == s.registered && s'.delivered == s.delivered
            && s'.parked == (map w | w in s.parked && w in s.woken :: s.parked[w])
            && s'.order == if e.AckArrives? && s.order != [] then s.order[1..] else s.order
  {
    hide Settle;
    if e.AckArrives? && s.order != [] && s.order[0] == e.ack.id {
      FailedSettle(s, e.ack);
    }
  }

  lemma FailedSettle(s: State, ack: Ack)
    requires s.order != [] && s.order[0] == ack.id && Settle(s, ack).1.Err?
    ensures var s' := Settle(s, ack).0;
            && s'.registered == s.registered && s'.delivered == s.delivered
            && s'.woken == s.woken && s'.parked == s.parked && s'.order == s.order[1..]
  {
  }

  /**
    Right after a close nothing is in flight or queued, exactly the woken senders can still go on, and every
    acknowledgement fails; the order still holds what was expected, so that it stands before theirs.
   */
  lemma ClosedEmpty(v: Version, cap: usize, s: State, e: Event)
    requires Reachable(v, cap, s) && Enabled(s, e) && Closes(v, s, e)
    ensures var s' := Next(v, s, e);
            && !s'.open && s'.inflight == map[] && s'.waiters == []
            && s'.registered == s.registered && s'.delivered == s.delivered
            && s'.order == (if e.AckArrives? && s.order != [] then s.order[1..] else s.order)
            && (forall w :: Enabled(s', ResumeSend(w)) <==> w in s.woken)
            && (forall w :: w in s'.parked ==> w in s.woken && s'.parked[w] == s.parked[w])
            && (forall ack: Ack :: AckIn(v, s', ack).1 == Err(PacketIdMismatch))
  {
    hide Next, Closes, AckIn, EntriesRegistered, Delivered, OrderSafe, OrderExact;
    ReachableInv(v, cap, s);
    ClosingEffect(v, s, e);
    forall ack: Ack ensures AckIn(v, Next(v, s, e), ack).1 == Err(PacketIdMismatch) {
      NobodyToAcknowledge(v, Next(v, s, e), ack);
    }
  }

  lemma {:induction false} NobodyToAcknowledge(v: Version, s: State, ack: Ack)
    requires s.inflight == map[]
    ensures AckIn(v, s, ack).1 == Err(PacketIdMismatch)
    decreases |s.order|
  {
    if v == V5 && s.order != [] && s.order[0] == 0 { NobodyToAcknowledge(v, s.(order := s.order[1..]), ack); }
  }

  /** A sender that was woken before the close does go on: the first of them sends its packet. */
  lemma WokenGoesOn(v: Version, cap: usize, s: State, e: Event, w: nat)
    requires Reachable(v, cap, s) && Enabled(s, e) && Closes(v, s, e) && w in s.woken
    ensures var s' := Next(v, s, e);
            && w in s.parked && Enabled(s', ResumeSend(w))
            && Resume(s', w).1 == Sends(IdFor(s', s.parked[w]), s.parked[w].kind)
  {
    hide Next, Closes, EntriesRegistered, Delivered, OrderSafe, OrderExact;
    ReachableInv(v, cap, s);
    ClosingEffect(v, s, e);
  }

  /** Nothing but a closing event closes an open sink, and a closed one stays closed. */
  lemma OpenIff(v: Version, s: State, e: Event)
    requires Enabled(s, e)
    ensures Next(v, s, e).open <==> s.open && !Closes(v, s, e)
  {
    if e.AckArrives? && v == V5 { AckV5Open(s, e.ack); }
  }

  lemma {:induction false} AckV5Open(s: State, ack: Ack)
    ensures AckV5(s, ack).0.open == s.open
    decreases |s.order|
  {
    if s.order != [] && s.order[0] == 0 { AckV5Open(s.(order := s.order[1..]), ack); }
  }

  // ----- After a close

  /**
    A sink that was closed with `senders` registered, `settled` acknowledged and `woken` on their way: nobody
    registered before is in flight or acknowledged later, nobody is woken any more, and each
    registration since is by one of the woken.
   */
  ghost predicate Ended(s: State, senders: nat, settled: nat, woken: set<nat>) {
    && !s.open && s.waiters == [] && s.woken <= woken
    && settled <= |s.delivered| && senders <= |s.registered|
    && |s.registered| - senders <= |woken| - |s.woken|
    && (forall id :: id in s.inflight ==> s.inflight[id].sender >= senders)
    && (forall i :: settled <= i < |s.delivered| ==> s.delivered[i].sender >= senders)
  }

  lemma RegisterEnded(s: State, req: Request, senders: nat, settled: nat, woken: set<nat>, w: nat)
    requires Ended(s, senders, settled, woken) && w in s.woken
    ensures Ended(Register(s.(parked := s.parked - {w}, woken := s.woken - {w}), req).0, senders, settled, woken)
  {
  }

  lemma SettleEnded(s: State, ack: Ack, senders: nat, settled: nat, woken: set<nat>)
    requires Ended(s, senders, settled, woken) && s.order != [] && s.order[0] == ack.id
    ensures Ended(Settle(s, ack).0, senders, settled, woken)
  {
  }

  lemma CloseEnded(s: State, senders: nat, settled: nat, woken: set<nat>)
    requires Ended(s, senders, settled, woken)
    ensures Ended(Close(s), senders, settled, woken)
  {
  }

  lemma {:induction false} AckEnded(v: Version, s: State, ack: Ack, senders: nat, settled: nat, woken: set<nat>)
    requires Ended(s, senders, settled, woken)
    ensures Ended(AckIn(v, s, ack).0, senders, settled, woken)
    decreases |s.order|
  {
    hide Settle, Close;
    if s.order != [] && s.order[0] == ack.id { SettleEnded(s, ack, senders, settled, woken); }
    if v == V3 {
      var s1 := if s.order == [] then s
                else if s.order[0] != ack.id then s.(order := s.order[1..]) else Settle(s, ack).0;
      CloseEnded(s1, senders, settled, woken);
    } else if s.order != [] && s.order[0] == 0 {
      AckEnded(v, s.(order := s.order[1..]), ack, senders, settled, woken);
    }
  }

  lemma NextEnded(v: Version, s: State, e: Event, senders: nat, settled: nat, woken: set<nat>)
    requires Ended(s, senders, settled, woken) && Enabled(s, e)
    ensures Ended(Next(v, s, e), senders, settled, woken)
  {
    hide AckIn, Register;
    match e
    case FreshSend(_) =>
    case ResumeSend(w) => RegisterEnded(s, s.parked[w], senders, settled, woken, w);
    case DropSend(w) =>
      if w !in s.woken { assert s.woken - {w} == s.woken; }
    case AckArrives(ack) => AckEnded(v, s, ack, senders, settled, woken);
    case CloseSink => CloseEnded(s, senders, settled, woken);
  }

  lemma {:induction false} RunEnded(v: Version, cap: usize, es: seq<Event>, more: seq<Event>, senders: nat,
                                    settled: nat, woken: set<nat>)
    requires Run(v, cap, es).Some? && Ended(Run(v, cap, es).value, senders, settled, woken)
    ensures Run(v, cap, es + more).Some? ==> Ended(Run(v, cap, es + more).value, senders, settled, woken)
  {
    hide Ended, Next, Enabled;
    if more == [] {
      assert es + more == es;
    } else if Run(v, cap, es + more).Some? {
      var rest := more[..|more| - 1];
      assert (es + more)[..|es + more| - 1] == es + rest;
      RunEnded(v, cap, es, rest, senders, settled, woken);
      NextEnded(v, Run(v, cap, es + rest).value, more[|more| - 1], senders, settled, woken);
    }
  }

  /**
    Closing is final for every sender: whatever follows a close, no sender that had registered before it is ever
    acknowledged or still in flight, no waiting sender is woken, every new send is refused, and
    at most the senders woken before the close register anything.
   */
  lemma ClosingIsFinal(v: Version, cap: usize, es: seq<Event>, e: Event, more: seq<Event>)
    requires Run(v, cap, es).Some? && Enabled(Run(v, cap, es).value, e) && Closes(v, Run(v, cap, es).value, e)
    requires Run(v, cap, es + [e] + more).Some?
    ensures var s, s' := Run(v, cap, es).value, Run(v, cap, es + [e] + more).value;
            && !s'.open && s'.waiters == [] && s'.woken <= s.woken
            && |s.delivered| <= |s'.delivered|
            && (forall i :: |s.delivered| <= i < |s'.delivered| ==> s'.delivered[i].sender >= |s.registered|)
            && (forall id :: id in s'.inflight ==> s'.inflight[id].sender >= |s.registered|)
            && |s.registered| <= |s'.registered| <= |s.registered| + |s.woken| - |s'.woken|
            && (forall req: Request :: |s'.inflight| < USIZE ==> Fresh(s', req) == (s', Failed(Disconnected)))
  {
    hide Next, Enabled, Closes, Run;
    var s := Run(v, cap, es).value;
    ClosingEffect(v, s, e);
    RunAppend(v, cap, es, e);
    RunEnded(v, cap, es + [e], more, |s.registered|, |s.delivered|, s.woken);
  }

  lemma RunAppend(v: Version, cap: usize, es: seq<Event>, e: Event)
    requires Run(v, cap, es).Some? && Enabled(Run(v, cap, es).value, e)
    ensures Run(v, cap, es + [e]) == Some(Next(v, Run(v, cap, es).value, e))
  {
    hide Next, Enabled;
    assert (es + [e])[..|es + [e]| - 1] == es;
  }
}
