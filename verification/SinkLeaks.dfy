/**
  Identifiers that the MQTT 5.0 sink never releases: an acknowledgement with another identifier
  than the expected one takes the expected one from the order and leaves it in flight
  (src/v5/sink.rs:102-148).
 */
module SinkLeaks {
  import opened Words
  import opened Collections
  import opened Sink
  import opened SinkRuns
  import opened FlowControl

  /** In flight, but no acknowledgement is expected any more. */
  function Leaked(s: State): set<u16> {
    s.inflight.Keys - Elements(s.order)
  }

  /** The identifier that an event leaks. */
  function LeakedNow(v: Version, s: State, e: Event): set<u16> {
    if v == V5 && e.AckArrives? && s.order != [] && s.order[0] != e.ack.id then {s.order[0]} else {}
  }

  // ----- One step

  lemma SameLeaks(s: State, s': State)
    requires s'.inflight == s.inflight && s'.order == s.order
    ensures Leaked(s') == Leaked(s)
  {
  }

  lemma RegisterLeaks(s: State, req: Request)
    ensures Leaked(Register(s, req).0) == Leaked(s)
  {
    var s' := Register(s, req).0;
    if s'.order != s.order {
      var id := IdFor(s, req);
      assert Elements(s'.order) == Elements(s.order) + {id};
      assert s'.inflight.Keys == s.inflight.Keys + {id};
    }
  }

  lemma SettleLeaks(s: State, ack: Ack)
    requires OrderSafe(s) && s.order != [] && s.order[0] == ack.id
    ensures Leaked(Settle(s, ack).0) == Leaked(s)
  {
    hide Wake;
    var s' := Settle(s, ack).0;
    assert s'.order == s.order[1..] && s'.inflight == s.inflight - {ack.id};
    assert s'.inflight.Keys == s.inflight.Keys - {ack.id};
    assert ack.id in Elements(s.order);
  }

  lemma MismatchLeaks(s: State, s': State)
    requires OrderSafe(s) && s.order != [] && s'.order == s.order[1..] && s'.inflight == s.inflight
    ensures Leaked(s') == Leaked(s) + {s.order[0]}
  {
    assert s.order[0] in s.inflight;
  }

  lemma AckLeaks(v: Version, s: State, ack: Ack)
    requires OrderSafe(s) && AckIn(v, s, ack).0.open
    ensures Leaked(AckIn(v, s, ack).0) == Leaked(s) + LeakedNow(v, s, AckArrives(ack))
  {
    hide Settle, Leaked, OrderSafe;
    var s' := AckIn(v, s, ack).0;
    if s.order == [] {
      SameLeaks(s, s');
    } else if s.order[0] == ack.id {
      SettleLeaks(s, ack);
      SameLeaks(Settle(s, ack).0, s');
    } else {
      assert s.order[0] != 0 by { FrontNonZero(s); }
      MismatchLeaks(s, s');
    }
  }

  lemma FrontNonZero(s: State)
    requires OrderSafe(s) && s.order != []
    ensures s.order[0] != 0
  {
  }

  lemma FreshLeaks(s: State, req: Request)
    requires |s.inflight| < USIZE
    ensures Leaked(Fresh(s, req).0) == Leaked(s)
  {
    hide Leaked, Register;
    RegisterLeaks(s, req);
    if s.open && !HasCredit(s) { SameLeaks(s, Fresh(s, req).0); }
  }

  lemma ResumeLeaks(s: State, w: nat)
    requires w in s.woken && w in s.parked
    ensures Leaked(Resume(s, w).0) == Leaked(s) == Leaked(Drop(s, w))
  {
    hide Leaked, Register;
    SameLeaks(s, Drop(s, w));
    RegisterLeaks(Drop(s, w), s.parked[w]);
  }

  lemma OpenIsSafe(s: State)
    requires Inv(s) && s.open
    ensures OrderSafe(s)
  {
  }

  /** While open, the leaked identifiers grow by exactly the expected one of a mismatched acknowledgement. */
  lemma LeaksGrow(v: Version, s: State, e: Event)
    requires Inv(s) && Enabled(s, e) && s.open && Next(v, s, e).open
    ensures Leaked(Next(v, s, e)) == Leaked(s) + LeakedNow(v, s, e)
  {
    hide Inv, Leaked, OrderSafe, Fresh, Resume, AckIn;
    OpenIsSafe(s);
    match e
    case FreshSend(req) => FreshLeaks(s, req);
    case ResumeSend(w) => ResumeLeaks(s, w);
    case DropSend(w) => SameLeaks(s, Drop(s, w));
    case AckArrives(ack) => AckLeaks(v, s, ack);
    case CloseSink => assert false;
  }

  // ----- Runs

  /** A leaked identifier is never released while the sink is open. */
  lemma {:induction false} LeakedForever(v: Version, cap: usize, es: seq<Event>, more: seq<Event>)
    requires Run(v, cap, es + more).Some? && Run(v, cap, es + more).value.open
    ensures Run(v, cap, es).Some? && Run(v, cap, es).value.open
    ensures Leaked(Run(v, cap, es).value) <= Leaked(Run(v, cap, es + more).value)
  {
    hide Inv, Leaked, Next;
    if more == [] {
      assert es + more == es;
    } else {
      var p := es + more[..|more| - 1];
      assert Before(es + more) == p && (es + more)[|es + more| - 1] == more[|more| - 1];
      RunKeeps(v, cap, p);
      StaysFailed(v, Run(v, cap, p).value, more[|more| - 1]);
      LeakedForever(v, cap, es, more[..|more| - 1]);
      LeaksGrow(v, Run(v, cap, p).value, more[|more| - 1]);
    }
  }

  // ----- A sink whose whole cap is leaked

  /** Nothing is expected, nobody is woken, and there is no credit. */
  predicate Dead(s: State) {
    s.open && |s.inflight| == s.cap && s.order == [] && s.woken == {}
  }

  lemma LeaksFillCap(s: State)
    requires Inv(s) && s.open && Committed(s) <= s.cap && |Leaked(s)| >= s.cap
    ensures Dead(s)
  {
    SubsetSize(Leaked(s), s.inflight.Keys);
    OpenIsSafe(s);
    FrontNotLeaked(s);
  }

  lemma FrontNotLeaked(s: State)
    requires OrderSafe(s)
    ensures s.order != [] ==> |Leaked(s)| < |s.inflight|
  {
    if s.order != [] {
      SubsetSize(Leaked(s) + {s.order[0]}, s.inflight.Keys);
    }
  }

  lemma DeadStep(s: State, e: Event)
    requires Dead(s) && Enabled(s, e) && e != CloseSink
    ensures var s' := Next(V5, s, e);
            Dead(s') && s'.inflight == s.inflight && s'.registered == s.registered && s'.delivered == s.delivered
  {
  }

  /** Whatever happens short of a close, a dead sink registers, wakes and acknowledges nothing more. */
  lemma {:induction false} DeadForever(cap: usize, es: seq<Event>, more: seq<Event>)
    requires Run(V5, cap, es).Some? && Dead(Run(V5, cap, es).value)
    requires Run(V5, cap, es + more).Some? && CloseSink !in more
    ensures var s, s' := Run(V5, cap, es).value, Run(V5, cap, es + more).value;
            Dead(s') && s'.inflight == s.inflight && s'.registered == s.registered && s'.delivered == s.delivered
  {
    hide Next, Dead;
    if more == [] {
      assert es + more == es;
    } else {
      var e := more[|more| - 1];
      var p := es + more[..|more| - 1];
      assert Before(es + more) == p && (es + more)[|es + more| - 1] == e && e in more;
      DeadForever(cap, es, more[..|more| - 1]);
      DeadStep(Run(V5, cap, p).value, e);
    }
  }

  /** Once as many identifiers are leaked as the cap, a run within the cap never sends again. */
  lemma LeaksKill(cap: usize, es: seq<Event>, more: seq<Event>)
    requires Run(V5, cap, es).Some? && NeverOvercommits(V5, cap, es) && Run(V5, cap, es).value.open
    requires |Leaked(Run(V5, cap, es).value)| >= cap
    requires Run(V5, cap, es + more).Some? && CloseSink !in more
    ensures Dead(Run(V5, cap, es).value)
    ensures Run(V5, cap, es + more).value.registered == Run(V5, cap, es).value.registered
  {
    hide Inv, Leaked, Next;
    RunKeeps(V5, cap, es);
    RunCap(V5, cap, es);
    WithinCapIff(V5, cap, es);
    LeaksFillCap(Run(V5, cap, es).value);
    DeadForever(cap, es, more);
  }

  /** With a cap of one, a single acknowledgement of an identifier that was never sent kills the sink. */
  lemma WrongAckKills() returns (s: State)
    ensures Reachable(V5, 1, s) && Leaked(s) == {1} && Dead(s)
  {
    var s0 := SendFirst(V5);
    s := AckIn(V5, s0, PublishAck(2)).0;
    assert s == s0.(order := [], failed := true);
    assert s.inflight.Keys == {1};
    ReachNext(V5, 1, s0, AckArrives(PublishAck(2)));
  }

  // ----- MQTT 3.1.1 closes instead

  /** A sink that is open has not seen a failed acknowledgement. */
  lemma {:induction false} V3OpenNotFailed(cap: usize, es: seq<Event>)
    requires Run(V3, cap, es).Some? && Run(V3, cap, es).value.open
    ensures !Run(V3, cap, es).value.failed
  {
    if es != [] {
      RunKeeps(V3, cap, Before(es));
      StaysFailed(V3, Run(V3, cap, Before(es)).value, es[|es| - 1]);
      V3OpenNotFailed(cap, Before(es));
    }
  }

  /** So in every open state its order and its in-flight table name the same identifiers, and nothing leaks. */
  lemma V3OrderIsInflight(cap: usize, es: seq<Event>)
    requires Run(V3, cap, es).Some? && Run(V3, cap, es).value.open
    ensures var s := Run(V3, cap, es).value;
            s.inflight.Keys == Elements(s.order) && |s.inflight| == |s.order| && Leaked(s) == {}
  {
    V3OpenNotFailed(cap, es);
    RunKeeps(V3, cap, es);
    OrderSize(Run(V3, cap, es).value);
  }
}
