/**
  The credit check of the sinks (src/v3/shared.rs:75-77, src/v5/shared.rs:62-64), over whole runs.
 */
module FlowControl {
  import opened Wrappers
  import opened Words
  import opened Collections
  import opened Sink
  import opened SinkRuns

  /** Identifiers in flight plus woken senders that will register without another credit check. */
  function Committed(s: State): nat {
    |s.inflight| + |s.woken|
  }

  /** A fresh send that takes the credit a woken sender was woken for. */
  predicate Overcommits(s: State, e: Event)
    requires Enabled(s, e)
  {
    && e.FreshSend? && s.open && HasCredit(s)
    && IdFor(s, e.req) !in s.inflight
    && Committed(s) >= s.cap
  }

  lemma RegisterCommits(s: State, req: Request)
    ensures var s' := Register(s, req).0;
            && s'.cap == s.cap && s'.woken == s.woken
            && |s'.inflight| == |s.inflight| + if IdFor(s, req) in s.inflight then 0 else 1
  {
  }

  lemma WakeOneCommits(s: State)
    ensures var s' := WakeOne(s);
            s'.cap == s.cap && s'.inflight == s.inflight && |s'.woken| <= |s.woken| + 1
  {
  }

  lemma SettleCommits(s: State, ack: Ack)
    requires Inv(s) && s.order != [] && s.order[0] == ack.id
    ensures var s' := Settle(s, ack).0; s'.cap == s.cap && Committed(s') <= Committed(s)
  {
    if ack.id in s.inflight {
      var s1 := s.(order := s.order[1..], inflight := s.inflight - {ack.id});
      assert s1.inflight.Keys == s.inflight.Keys - {ack.id};
      WakeOneCommits(s1.(delivered := s.delivered + [Delivery(s.inflight[ack.id].sender, ack)]));
    }
  }

  lemma {:induction false} AckV5Commits(s: State, ack: Ack)
    requires Inv(s)
    ensures var s' := AckV5(s, ack).0; s'.cap == s.cap && Committed(s') <= Committed(s)
    decreases |s.order|
  {
    if s.order != [] && s.order[0] == ack.id && s.order[0] != 0 {
      SettleCommits(s, ack);
    } else if s.order != [] && s.order[0] == 0 {
      assert !s.open;
      AckV5Commits(s.(order := s.order[1..]), ack);
    }
  }

  lemma AckV3Commits(s: State, ack: Ack)
    requires Inv(s)
    ensures var s' := AckV3(s, ack).0; s'.cap == s.cap && Committed(s') <= Committed(s)
  {
    if s.order != [] && s.order[0] == ack.id {
      SettleCommits(s, ack);
    }
  }

  /** One step stays within the cap exactly if it is not an overcommitting fresh send. */
  lemma StepWithinCap(v: Version, s: State, e: Event)
    requires Inv(s) && Enabled(s, e) && Committed(s) <= s.cap
    ensures Next(v, s, e).cap == s.cap
    ensures Committed(Next(v, s, e)) <= s.cap <==> !Overcommits(s, e)
  {
    hide SinkRuns.Inv, AckV3, AckV5, Register;
    match e
    case FreshSend(req) => RegisterCommits(s, req);
    case ResumeSend(w) =>
      RegisterCommits(Drop(s, w), s.parked[w]);
    case DropSend(w) =>
      SubsetSize(s.woken - {w}, s.woken);
    case AckArrives(ack) => AckV3Commits(s, ack); AckV5Commits(s, ack);
    case CloseSink =>
  }

  /** All but the last event of a run; a run's prefixes are runs. */
  function Before(es: seq<Event>): seq<Event>
    requires es != []
  {
    es[..|es| - 1]
  }

  /** Every state of the run is within the cap. */
  ghost predicate WithinCap(v: Version, cap: usize, es: seq<Event>)
    requires Run(v, cap, es).Some?
  {
    && Committed(Run(v, cap, es).value) <= cap
    && (es != [] ==> WithinCap(v, cap, Before(es)))
  }

  /** No event of the run overcommits in the state it finds. */
  ghost predicate NeverOvercommits(v: Version, cap: usize, es: seq<Event>)
    requires Run(v, cap, es).Some?
  {
    es != [] ==>
      && !Overcommits(Run(v, cap, Before(es)).value, es[|es| - 1])
      && NeverOvercommits(v, cap, Before(es))
  }

  lemma {:induction false} RunCap(v: Version, cap: usize, es: seq<Event>)
    requires Run(v, cap, es).Some?
    ensures Run(v, cap, es).value.cap == cap
  {
    if es != [] {
      RunCap(v, cap, Before(es));
      RunKeeps(v, cap, Before(es));
      CapFixed(v, Run(v, cap, Before(es)).value, es[|es| - 1]);
    }
  }

  lemma CapFixed(v: Version, s: State, e: Event)
    requires Inv(s) && Enabled(s, e)
    ensures Next(v, s, e).cap == s.cap
  {
    if e.AckArrives? {
      AckV3Commits(s, e.ack);
      AckV5Commits(s, e.ack);
    }
  }

  /**
    Receive-maximum flow control: a run keeps identifiers in flight and woken senders within
    the cap exactly if no fresh send in it overcommits.
   */
  lemma {:induction false} WithinCapIff(v: Version, cap: usize, es: seq<Event>)
    requires Run(v, cap, es).Some?
    ensures WithinCap(v, cap, es) <==> NeverOvercommits(v, cap, es)
  {
    if es != [] {
      var p := Before(es);
      WithinCapIff(v, cap, p);
      RunCap(v, cap, p);
      RunKeeps(v, cap, p);
      if WithinCap(v, cap, p) {
        StepWithinCap(v, Run(v, cap, p).value, es[|es| - 1]);
      }
    }
  }

  /** Within the cap the unsigned subtraction of the credit check cannot underflow. */
  lemma CreditIsExact(v: Version, cap: usize, es: seq<Event>)
    requires Run(v, cap, es).Some? && NeverOvercommits(v, cap, es)
    ensures var s := Run(v, cap, es).value;
            && |s.inflight| <= cap
            && (HasCredit(s) <==> |s.inflight| < cap)
  {
    WithinCapIff(v, cap, es);
    RunCap(v, cap, es);
  }

  /** Every fresh send of the run finds all woken senders gone on. */
  ghost predicate ResumesFirst(v: Version, cap: usize, es: seq<Event>)
    requires Run(v, cap, es).Some?
  {
    es != [] ==>
      && (es[|es| - 1].FreshSend? ==> Run(v, cap, Before(es)).value.woken == {})
      && ResumesFirst(v, cap, Before(es))
  }

  /** Letting every woken sender go on before a fresh send starts is enough. */
  lemma {:induction false} ResumingFirstSuffices(v: Version, cap: usize, es: seq<Event>)
    requires Run(v, cap, es).Some? && ResumesFirst(v, cap, es)
    ensures NeverOvercommits(v, cap, es) && WithinCap(v, cap, es)
  {
    if es != [] {
      var p := Before(es);
      ResumingFirstSuffices(v, cap, p);
      RunCap(v, cap, p);
      var s := Run(v, cap, p).value;
      if es[|es| - 1].FreshSend? {
        assert Committed(s) == |s.inflight| <= s.cap;
      }
    }
    WithinCapIff(v, cap, es);
  }

  /**
    The cap is not kept otherwise: with a cap of one, a fresh send between the wake-up and
    the resumption of a waiter puts two identifiers in flight, and the credit check of
    every later send then passes because its subtraction wraps around.
   */
  lemma FreshSendCanOvercommit(v: Version) returns (s: State)
    ensures Reachable(v, 1, s) && s.inflight.Keys == {2, 3} && HasCredit(s)
  {
    var req := Request(PublishKind, 0);
    var s0 := SendFirst(v);
    var s1 := Fresh(s0, req).0;
    assert s1 == s0.(waiters := [0], parked := map[0 := req], nextWaiter := 1);
    ReachNext(v, 1, s0, FreshSend(req));
    var s2 := WakeFirst(v, s1);
    ReachNext(v, 1, s1, AckArrives(PublishAck(1)));
    s := SendTwice(v, s2);
  }

  lemma SendTwice(v: Version, s: State) returns (s': State)
    requires Reachable(v, 1, s) && s.open && s.cap == 1 && s.inflight == map[] && s.counter == 1
    requires 0 in s.woken && 0 in s.parked && s.parked[0] == Request(PublishKind, 0)
    ensures Reachable(v, 1, s') && s'.inflight.Keys == {2, 3} && s'.cap == 1
  {
    var req := Request(PublishKind, 0);
    var s3 := Register(s, req).0;
    assert s3.inflight.Keys == {2} && s3.counter == 2;
    ReachNext(v, 1, s, FreshSend(req));
    s' := Resume(s3, 0).0;
    ReachNext(v, 1, s3, ResumeSend(0));
  }

  lemma SendFirst(v: Version) returns (s: State)
    ensures Reachable(v, 1, s)
    ensures s == State(true, 1, 1, map[1 := Entry(0, PublishKind)], [1], [], map[], {}, 0,
                       [Registration(1, PublishKind)], [], false, 1)
  {
    s := Fresh(Init(1), Request(PublishKind, 0)).0;
    assert Run(v, 1, []) == Some(Init(1));
    ReachNext(v, 1, Init(1), FreshSend(Request(PublishKind, 0)));
  }

  lemma WakeFirst(v: Version, s: State) returns (s': State)
    requires s.order == [1] && s.inflight == map[1 := Entry(0, PublishKind)]
    requires s.waiters == [0] && 0 in s.parked && s.woken == {}
    ensures s' == AckIn(v, s, PublishAck(1)).0
    ensures s' == s.(order := [], inflight := map[], waiters := [], woken := {0},
                     delivered := s.delivered + [Delivery(0, PublishAck(1))])
  {
    s' := AckIn(v, s, PublishAck(1)).0;
    assert s.inflight - {1} == map[];
    var waiters := s.waiters;
    assert waiters[0] in s.parked.Keys && waiters[1..] == [];
    assert Wake(waiters, s.parked.Keys) == ([], Some(0));
  }

  lemma ReachNext(v: Version, cap: usize, s: State, e: Event)
    requires Reachable(v, cap, s) && Enabled(s, e)
    ensures Reachable(v, cap, Next(v, s, e))
  {
    var es :| Run(v, cap, es) == Some(s);
    assert (es + [e])[..|es|] == es;
    assert Run(v, cap, es + [e]) == Some(Next(v, s, e));
  }

  // ----- What a step never undoes

  /** A sink never reopens, and a failure is never forgotten. */
  lemma StaysFailed(v: Version, s: State, e: Event)
    requires Inv(s) && Enabled(s, e)
    ensures Next(v, s, e).open ==> s.open
    ensures s.failed ==> Next(v, s, e).failed
  {
    if e.AckArrives? {
      AckV5Stays(s, e.ack);
    }
  }

  lemma {:induction false} AckV5Stays(s: State, ack: Ack)
    ensures AckV5(s, ack).0.open == s.open
    ensures s.failed ==> AckV5(s, ack).0.failed
    decreases |s.order|
  {
    if s.order != [] && s.order[0] == 0 {
      AckV5Stays(s.(order := s.order[1..]), ack);
    }
  }
}
