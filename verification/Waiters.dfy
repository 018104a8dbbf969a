/**
  Senders that wait for credit: when one of them is left behind although there is credit
  (src/v3/sink.rs:103-147 and 206-265, src/v5/sink.rs:102-148 and 270-342).
 */
module Waiters {
  import opened Wrappers
  import opened Words
  import opened Sink
  import opened SinkRuns
  import opened FlowControl

  /** A queued waiter whose future still exists. */
  ghost predicate SomebodyWaits(s: State) {
    exists w :: w in s.waiters && w in s.parked
  }

  /** There is credit that nobody was woken for, and somebody waits for it. */
  ghost predicate Stranded(s: State) {
    s.open && Committed(s) < s.cap && SomebodyWaits(s)
  }

  /** An event that gives back the credit of one sender without waking another. */
  predicate GivesBackSilently(v: Version, s: State, e: Event)
    requires Enabled(s, e)
  {
    match e
    case DropSend(w) => w in s.woken
    case ResumeSend(w) => IdFor(s, s.parked[w]) in s.inflight
    case AckArrives(ack) =>
      v == V5 && s.order != [] && s.order[0] == ack.id && ack.id in s.inflight
      && s.inflight[ack.id].kind != KindOf(ack)
    case _ => false
  }

  /** The event leaves a waiter behind. */
  ghost predicate Strands(v: Version, s: State, e: Event)
    requires Enabled(s, e)
  {
    s.open && Committed(s) <= s.cap && SomebodyWaits(s) && GivesBackSilently(v, s, e)
  }

  // ----- One step

  lemma FreshStrands(s: State, req: Request)
    requires Inv(s) && s.open && !Stranded(s) && |s.inflight| < USIZE
    ensures !Stranded(Fresh(s, req).0)
  {
    hide Inv, Register;
    if HasCredit(s) {
      RegisterCommits(s, req);
      RegisterWaiters(s, req);
    }
  }

  lemma RegisterWaiters(s: State, req: Request)
    ensures var s' := Register(s, req).0; s'.open == s.open && s'.waiters == s.waiters && s'.parked == s.parked
  {
  }

  /** A sender that leaves the queue of the woken ones was not in the queue of the waiting ones. */
  lemma WokenLeaves(s: State, w: nat)
    requires Inv(s) && w in s.woken
    ensures SomebodyWaits(Drop(s, w)) <==> SomebodyWaits(s)
    ensures Committed(Drop(s, w)) == Committed(s) - 1
  {
    assert w !in s.waiters;
    if SomebodyWaits(s) {
      var x :| x in s.waiters && x in s.parked;
      assert x in Drop(s, w).waiters && x in Drop(s, w).parked;
    }
  }

  lemma ResumeStrands(v: Version, s: State, w: nat)
    requires Inv(s) && s.open && !Stranded(s) && w in s.woken && w in s.parked
    ensures Stranded(Resume(s, w).0) <==> Strands(v, s, ResumeSend(w))
  {
    hide Inv, Register;
    var s1 := Drop(s, w);
    WokenLeaves(s, w);
    RegisterCommits(s1, s.parked[w]);
    RegisterWaiters(s1, s.parked[w]);
  }

  lemma DropStrands(v: Version, s: State, w: nat)
    requires Inv(s) && s.open && !Stranded(s) && w in s.parked
    ensures Stranded(Drop(s, w)) <==> Strands(v, s, DropSend(w))
  {
    if w in s.woken {
      WokenLeaves(s, w);
    } else {
      assert s.woken - {w} == s.woken;
    }
  }

  lemma {:induction false} WakeFinds(waiters: seq<nat>, alive: set<nat>)
    ensures Wake(waiters, alive).1.Some? <==> exists w :: w in waiters && w in alive
    ensures Wake(waiters, alive).1.None? ==> Wake(waiters, alive).0 == []
  {
    if waiters != [] && waiters[0] !in alive {
      WakeFinds(waiters[1..], alive);
      assert forall w :: w in waiters && w in alive ==> w in waiters[1..];
    }
  }

  /** An accepted acknowledgement passes its credit on to the first waiter that still exists. */
  lemma WakeOneHandsOver(s: State)
    requires Numbered(s)
    ensures var s' := WakeOne(s);
            && s'.open == s.open && s'.cap == s.cap
            && Committed(s') == Committed(s) + (if SomebodyWaits(s) then 1 else 0)
            && (!SomebodyWaits(s) ==> !SomebodyWaits(s'))
  {
    WakeFinds(s.waiters, s.parked.Keys);
    var w := Wake(s.waiters, s.parked.Keys).1;
    assert w.Some? ==> w.value in s.waiters && w.value !in s.woken;
    assert SomebodyWaits(s) <==> exists x :: x in s.waiters && x in s.parked.Keys;
  }

  /** The sink after the acknowledged entry is gone. */
  lemma EntryGone(s: State, id: u16)
    requires id in s.inflight
    ensures |s.inflight - {id}| == |s.inflight| - 1
  {
    assert (s.inflight - {id}).Keys == s.inflight.Keys - {id};
    assert |(s.inflight - {id}).Keys| == |s.inflight.Keys| - 1;
  }

  lemma MatchStrands(s: State, ack: Ack)
    requires Numbered(s) && s.open && !Stranded(s) && s.order != [] && s.order[0] == ack.id
    requires ack.id in s.inflight && s.inflight[ack.id].kind == KindOf(ack)
    ensures var (s', r) := Settle(s, ack); s'.open && r.Ok? && !Stranded(s')
  {
    hide WakeOne, SomebodyWaits;
    EntryGone(s, ack.id);
    var s2 := s.(order := s.order[1..], inflight := s.inflight - {ack.id},
                 delivered := s.delivered + [Delivery(s.inflight[ack.id].sender, ack)]);
    assert Settle(s, ack).0 == WakeOne(s2);
    SameQueue(s, s2);
    WakeOneHandsOver(s2);
  }

  lemma MismatchStrands(s: State, ack: Ack)
    requires s.open && !Stranded(s) && s.order != [] && s.order[0] == ack.id
    requires ack.id in s.inflight && s.inflight[ack.id].kind != KindOf(ack)
    ensures var (s', r) := Settle(s, ack);
            s'.open && r.Err? && (Stranded(s') <==> Committed(s) <= s.cap && SomebodyWaits(s))
  {
    hide WakeOne, SomebodyWaits;
    EntryGone(s, ack.id);
    SameQueue(s, Settle(s, ack).0);
  }

  lemma SettleStrands(s: State, ack: Ack)
    requires Numbered(s) && s.open && !Stranded(s) && s.order != [] && s.order[0] == ack.id && ack.id in s.inflight
    ensures var (s', r) := Settle(s, ack);
            && s'.open
            && (r.Ok? ==> !Stranded(s'))
            && (r.Err? ==> (Stranded(s') <==> Strands(V5, s, AckArrives(ack))))
            && (r.Err? <==> GivesBackSilently(V5, s, AckArrives(ack)))
  {
    hide Settle, SomebodyWaits, Stranded, Numbered;
    if s.inflight[ack.id].kind == KindOf(ack) {
      MatchStrands(s, ack);
    } else {
      MismatchStrands(s, ack);
    }
  }

  lemma AckStrands(v: Version, s: State, ack: Ack)
    requires Numbered(s) && s.open && !Stranded(s)
    requires s.order != [] ==> s.order[0] != 0 && s.order[0] in s.inflight
    ensures Stranded(AckIn(v, s, ack).0) <==> Strands(v, s, AckArrives(ack))
  {
    hide Settle, SomebodyWaits, Numbered;
    SameQueue(s, s.(failed := true));
    if s.order != [] {
      if s.order[0] == ack.id {
        SettleStrands(s, ack);
        var s1 := Settle(s, ack).0;
        SameQueue(s1, s1.(failed := true));
      } else {
        SameQueue(s, s.(order := s.order[1..], failed := true));
      }
    }
  }

  lemma SameQueue(s: State, s': State)
    requires s'.waiters == s.waiters && s'.parked == s.parked
    ensures SomebodyWaits(s') <==> SomebodyWaits(s)
  {
  }

  /**
    From an open state in which nobody is left behind, an event leaves a waiter behind if and
    only if it gives back credit silently while the committed credit is within the cap and
    somebody waits.
   */
  lemma StepStrands(v: Version, s: State, e: Event)
    requires Inv(s) && s.open && !Stranded(s) && Enabled(s, e)
    ensures Stranded(Next(v, s, e)) <==> Strands(v, s, e)
  {
    assert Numbered(s) && (s.order != [] ==> s.order[0] != 0 && s.order[0] in s.inflight);
    hide Inv, Stranded, Strands, AckIn, Register;
    match e
    case FreshSend(req) =>
      FreshStrands(s, req);
      assert !Strands(v, s, e) by { Harmless(v, s, e); }
    case ResumeSend(w) => ResumeStrands(v, s, w);
    case DropSend(w) => DropStrands(v, s, w);
    case AckArrives(ack) => AckStrands(v, s, ack);
    case CloseSink => Harmless(v, s, e);
  }

  lemma Harmless(v: Version, s: State, e: Event)
    requires Enabled(s, e) && (e.FreshSend? || e.CloseSink?)
    ensures !Strands(v, s, e) && !Stranded(Close(s))
  {
  }

  // ----- Runs

  /** In no state of the run is a waiter left behind. */
  ghost predicate NobodyStranded(v: Version, cap: usize, es: seq<Event>)
    requires Run(v, cap, es).Some?
  {
    && !Stranded(Run(v, cap, es).value)
    && (es != [] ==> NobodyStranded(v, cap, Before(es)))
  }

  /** No event of the run leaves a waiter behind in the state it finds. */
  ghost predicate NeverStrands(v: Version, cap: usize, es: seq<Event>)
    requires Run(v, cap, es).Some?
  {
    es != [] ==>
      && !Strands(v, Run(v, cap, Before(es)).value, es[|es| - 1])
      && NeverStrands(v, cap, Before(es))
  }

  /** A run leaves nobody behind if and only if none of its events gives back credit silently while it matters. */
  lemma {:induction false} NobodyStrandedIff(v: Version, cap: usize, es: seq<Event>)
    requires Run(v, cap, es).Some?
    ensures NobodyStranded(v, cap, es) <==> NeverStrands(v, cap, es)
  {
    hide Inv, Stranded, Strands;
    if es == [] {
      InitialStrands(cap);
    } else {
      var p := Before(es);
      var s, e := Run(v, cap, p).value, es[|es| - 1];
      NobodyStrandedIff(v, cap, p);
      RunKeeps(v, cap, p);
      if s.open {
        if !Stranded(s) { StepStrands(v, s, e); }
      } else {
        StaysFailed(v, s, e);
        ClosedStrands(v, s, Next(v, s, e), e);
      }
    }
  }

  lemma InitialStrands(cap: usize)
    ensures !Stranded(Init(cap))
  {
  }

  lemma ClosedStrands(v: Version, s: State, s': State, e: Event)
    requires !s.open && !s'.open && Enabled(s, e)
    ensures !Stranded(s') && !Strands(v, s, e)
  {
  }

  /** While nobody is left behind, whoever waits does so because the whole cap is committed. */
  lemma WaitingMeansCommitted(v: Version, cap: usize, es: seq<Event>)
    requires Run(v, cap, es).Some? && NeverStrands(v, cap, es)
    requires Run(v, cap, es).value.open && SomebodyWaits(Run(v, cap, es).value)
    ensures Committed(Run(v, cap, es).value) >= cap
  {
    NobodyStrandedIff(v, cap, es);
    RunCap(v, cap, es);
  }

  // ----- Inputs at which the code fails

  /**
    A waiter left behind for good: with a cap of one, the sender woken by the only
    acknowledgement is dropped, nothing is in flight any more, and the second waiter is
    still queued.
   */
  lemma DroppedWakeUpStrands(v: Version) returns (s: State)
    ensures Reachable(v, 1, s) && Stranded(s)
    ensures s.inflight == map[] && s.order == [] && s.woken == {} && s.waiters == [1] && 1 in s.parked
  {
    var req := Request(PublishKind, 0);
    var s0 := SendFirst(v);
    var s1 := Fresh(s0, req).0;
    assert s1 == s0.(waiters := [0], parked := map[0 := req], nextWaiter := 1);
    ReachNext(v, 1, s0, FreshSend(req));
    var s2 := Fresh(s1, req).0;
    assert s2 == s1.(waiters := [0, 1], parked := map[0 := req, 1 := req], nextWaiter := 2);
    ReachNext(v, 1, s1, FreshSend(req));
    var s3 := WakeFirstOfTwo(v, s2);
    ReachNext(v, 1, s2, AckArrives(PublishAck(1)));
    s := Drop(s3, 0);
    ReachNext(v, 1, s3, DropSend(0));
  }

  lemma WakeFirstOfTwo(v: Version, s: State) returns (s': State)
    requires s.order == [1] && s.inflight == map[1 := Entry(0, PublishKind)]
    requires s.waiters == [0, 1] && 0 in s.parked && s.woken == {}
    ensures s' == AckIn(v, s, PublishAck(1)).0
    ensures s' == s.(order := [], inflight := map[], waiters := [1], woken := {0},
                     delivered := s.delivered + [Delivery(0, PublishAck(1))])
  {
    s' := AckIn(v, s, PublishAck(1)).0;
    assert s.inflight - {1} == map[];
    var waiters := s.waiters;
    assert waiters[0] in s.parked.Keys && waiters[1..] == [1];
    assert Wake(waiters, s.parked.Keys) == ([1], Some(0));
  }

  /**
    With a cap of zero no run ever registers an identifier: whoever sends waits, and nobody
    is ever woken.
   */
  lemma {:induction false} ZeroCapNeverSends(v: Version, es: seq<Event>)
    requires Run(v, 0, es).Some?
    ensures var s := Run(v, 0, es).value;
            s.cap == 0 && s.registered == [] && s.inflight == map[] && s.order == [] && s.woken == {}
  {
    if es != [] {
      ZeroCapNeverSends(v, Before(es));
    }
  }

  /** A first send waits exactly under a cap of zero. */
  lemma FirstSendWaitsIff(v: Version, cap: usize, req: Request)
    ensures Run(v, cap, [FreshSend(req)]).Some?
    ensures var s := Run(v, cap, [FreshSend(req)]).value;
            && (s.registered == [] <==> cap == 0)
            && (SomebodyWaits(s) <==> cap == 0)
  {
    assert [FreshSend(req)][..0] == [];
    assert Run(v, cap, []) == Some(Init(cap));
    var s := Run(v, cap, [FreshSend(req)]).value;
    assert s == Fresh(Init(cap), req).0;
    if cap == 0 {
      assert s.waiters == [0] && 0 in s.waiters && 0 in s.parked;
    }
  }
}
