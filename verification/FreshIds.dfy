/**
  When a generated identifier is still in flight (src/v3/shared.rs:79-88, src/v5/shared.rs:66-76,
  src/v3/sink.rs:230-265, src/v5/sink.rs:296-342), over whole runs.
 */
module FreshIds {
  import opened Wrappers
  import opened Words
  import opened PacketIds
  import opened Collections
  import opened Sink
  import opened SinkRuns
  import opened FlowControl
  import opened SinkLeaks

  /** No request of the run names an identifier itself. */
  predicate OnlyGenerated(es: seq<Event>) {
    forall i :: 0 <= i < |es| && es[i].FreshSend? ==> es[i].req.id == 0
  }

  ghost predicate ParkedUnnamed(parked: map<nat, Request>) {
    forall w :: w in parked ==> parked[w].id == 0
  }

  /** Every state of the run before its last has fewer than 65535 identifiers in flight. */
  ghost predicate NeverExhausted(v: Version, cap: usize, es: seq<Event>)
    requires Run(v, cap, es).Some?
  {
    es != [] ==>
      && |Run(v, cap, Before(es)).value.inflight| < IDS
      && NeverExhausted(v, cap, Before(es))
  }

  // ----- All identifiers

  function UpTo(n: nat): set<u16>
    requires n <= IDS
  {
    if n == 0 then {} else UpTo(n - 1) + {n}
  }

  lemma {:induction false} UpToIs(n: nat)
    requires n <= IDS
    ensures |UpTo(n)| == n && forall x :: x in UpTo(n) <==> 1 <= x <= n
  {
    if n > 0 { UpToIs(n - 1); }
  }

  /** 65535 identifiers are in flight exactly if every one is. */
  lemma ExhaustedMeans(s: State)
    requires EntriesRegistered(s)
    ensures |s.inflight| == IDS <==> UpTo(IDS) <= s.inflight.Keys
  {
    hide EntriesRegistered, UpTo;
    UpToIs(IDS);
    KeysAreIds(s);
    if UpTo(IDS) <= s.inflight.Keys {
      assert s.inflight.Keys == UpTo(IDS);
    } else {
      var id :| id in UpTo(IDS) && id !in s.inflight;
      SubsetSize(s.inflight.Keys, UpTo(IDS) - {id});
    }
  }

  lemma KeysAreIds(s: State)
    requires EntriesRegistered(s)
    ensures s.inflight.Keys <= UpTo(IDS)
  {
    hide UpTo;
    UpToIs(IDS);
  }

  // ----- Where the expected identifiers come from

  /** The i-th expected identifier was the k-th generated; all generated since are expected behind it or leaked. */
  ghost predicate BornAt(order: seq<u16>, leaked: set<u16>, generated: nat, i: nat, k: nat)
    requires i < |order|
  {
    && k < generated <= k + IDS && order[i] == Generated(k)
    && (forall j :: k <= j < generated ==> Generated(j) in order[i..] || Generated(j) in leaked)
  }

  ghost predicate Born(order: seq<u16>, leaked: set<u16>, generated: nat, i: nat)
    requires i < |order|
  {
    exists k: nat :: BornAt(order, leaked, generated, i, k)
  }

  ghost predicate AllBorn(order: seq<u16>, leaked: set<u16>, generated: nat) {
    forall i :: 0 <= i < |order| ==> Born(order, leaked, generated, i)
  }

  ghost predicate Origins(s: State) {
    AllBorn(s.order, Leaked(s), s.generated) && ParkedUnnamed(s.parked)
  }

  /** An identifier that is expected is generated again only after all 65535. */
  lemma BornAgain(s: State, i: nat)
    requires OrderSafe(s) && AllBorn(s.order, Leaked(s), s.generated) && i < |s.order|
    requires s.order[i] == Generated(s.generated)
    ensures UpTo(IDS) <= s.inflight.Keys
  {
    UpToIs(IDS);
    assert Born(s.order, Leaked(s), s.generated, i);
    var k: nat :| BornAt(s.order, Leaked(s), s.generated, i, k);
    GeneratedRepeats(k, s.generated);
    assert s.generated == k + IDS;
    forall id | id in UpTo(IDS) ensures id in s.inflight {
      var j := GeneratedCovers(k, id);
      assert Generated(j) in s.order[i..] || Generated(j) in Leaked(s);
      assert forall x :: x in s.order[i..] ==> x in s.order;
    }
  }

  /** The next generated identifier is in flight exactly if it is leaked or all 65535 are in flight. */
  lemma CollidesIffLeaked(s: State)
    requires Inv(s) && s.open && Origins(s)
    ensures NextId(s.counter).0 in s.inflight <==>
            NextId(s.counter).0 as u16 in Leaked(s) || |s.inflight| == IDS
  {
    hide Delivered;
    NextIdGenerates(s.generated);
    ExhaustedMeans(s);
    UpToIs(IDS);
    var id := Generated(s.generated);
    if id as u16 in s.inflight && id as u16 !in Leaked(s) {
      var i :| 0 <= i < |s.order| && s.order[i] == id;
      BornAgain(s, i);
    }
  }

  // ----- Every step keeps the origins

  lemma BornPop(order: seq<u16>, leaked: set<u16>, leaked': set<u16>, generated: nat)
    requires order != [] && AllBorn(order, leaked, generated) && leaked <= leaked'
    ensures AllBorn(order[1..], leaked', generated)
  {
    var rest := order[1..];
    forall i | 0 <= i < |rest| ensures Born(rest, leaked', generated, i) {
      assert Born(order, leaked, generated, i + 1);
      var k: nat :| BornAt(order, leaked, generated, i + 1, k);
      assert rest[i..] == order[i + 1..];
      assert BornAt(rest, leaked', generated, i, k);
    }
  }

  /** One more is generated: it is leaked already, or it joins the order. */
  lemma BornNext(order: seq<u16>, leaked: set<u16>, generated: nat, order': seq<u16>)
    requires AllBorn(order, leaked, generated)
    requires Generated(generated) !in order
    requires order' == order + [Generated(generated)] || (order' == order && Generated(generated) in leaked)
    ensures AllBorn(order', leaked, generated + 1)
  {
    var next := generated + 1;
    forall i | 0 <= i < |order'| ensures Born(order', leaked, next, i) {
      if i < |order| {
        assert Born(order, leaked, generated, i);
        var k: nat :| BornAt(order, leaked, generated, i, k);
        GeneratedRepeats(k, generated);
        assert generated != k + IDS;
        assert order'[i..] == order[i..] + order'[|order|..];
        assert BornAt(order', leaked, next, i, k);
      } else {
        assert BornAt(order', leaked, next, i, generated);
      }
    }
  }

  lemma RegisterOrigins(s: State, kind: Kind)
    requires Inv(s) && s.open && Origins(s) && |s.inflight| < IDS
    ensures Origins(Register(s, Request(kind, 0)).0)
  {
    hide Inv, AllBorn, Leaked;
    var req := Request(kind, 0);
    var s' := Register(s, req).0;
    CollidesIffLeaked(s);
    NextIdGenerates(s.generated);
    RegisterLeaks(s, req);
    CounterIs(s);
    var id := Generated(s.generated);
    assert id as u16 !in s.order || id as u16 in s.inflight by { OpenIsSafe(s); }
    LeakedNotExpected(s, id);
    BornNext(s.order, Leaked(s), s.generated, s'.order);
  }

  lemma CounterIs(s: State)
    requires Inv(s)
    ensures s.counter == s.generated % IDS
  {
  }

  lemma LeakedNotExpected(s: State, id: u16)
    ensures id in Leaked(s) ==> id !in s.order
  {
  }

  lemma SameOrigins(s: State, s': State)
    requires Origins(s) && s'.inflight == s.inflight && s'.order == s.order && s'.generated == s.generated
    requires ParkedUnnamed(s'.parked)
    ensures Origins(s')
  {
    SameLeaks(s, s');
  }

  lemma FreshOrigins(s: State, req: Request)
    requires Inv(s) && s.open && Origins(s) && |s.inflight| < IDS && req.id == 0
    ensures Origins(Fresh(s, req).0)
  {
    hide Inv, AllBorn, Leaked, Register;
    assert req == Request(req.kind, 0);
    RegisterOrigins(s, req.kind);
    if !HasCredit(s) { SameOrigins(s, Fresh(s, req).0); }
  }

  lemma ResumeOrigins(s: State, w: nat)
    requires Inv(s) && s.open && Origins(s) && |s.inflight| < IDS && w in s.woken && w in s.parked
    ensures Origins(Resume(s, w).0)
  {
    hide Inv, AllBorn, Leaked, Register;
    DropKeeps(s, w);
    SameOrigins(s, Drop(s, w));
    assert s.parked[w] == Request(s.parked[w].kind, 0);
    RegisterOrigins(Drop(s, w), s.parked[w].kind);
  }

  /** An acknowledgement takes at most the front of the order. */
  lemma AckTakesFront(v: Version, s: State, ack: Ack)
    requires OrderSafe(s) && AckIn(v, s, ack).0.open
    ensures var s' := AckIn(v, s, ack).0;
            && (s'.order == s.order || (s.order != [] && s'.order == s.order[1..]))
            && s'.generated == s.generated && s'.parked == s.parked
  {
    hide Wake, OrderSafe;
    if s.order != [] { FrontNonZero(s); }
  }

  lemma StepOrigins(v: Version, s: State, e: Event)
    requires Inv(s) && Enabled(s, e) && s.open && Origins(s) && |s.inflight| < IDS
    requires e.FreshSend? ==> e.req.id == 0
    ensures Next(v, s, e).open ==> Origins(Next(v, s, e))
  {
    hide Inv, AllBorn, Leaked, Fresh, Resume, AckIn, OrderSafe;
    if Next(v, s, e).open {
      match e
      case FreshSend(req) => FreshOrigins(s, req);
      case ResumeSend(w) => ResumeOrigins(s, w);
      case DropSend(w) => SameOrigins(s, Drop(s, w));
      case AckArrives(ack) =>
        OpenIsSafe(s);
        AckTakesFront(v, s, ack);
        LeaksGrow(v, s, e);
        var s' := AckIn(v, s, ack).0;
        if s'.order == s.order {
          MoreLeaked(s.order, Leaked(s), Leaked(s'), s.generated);
        } else {
          BornPop(s.order, Leaked(s), Leaked(s'), s.generated);
        }
      case CloseSink => assert false;
    }
  }

  lemma MoreLeaked(order: seq<u16>, leaked: set<u16>, leaked': set<u16>, generated: nat)
    requires AllBorn(order, leaked, generated) && leaked <= leaked'
    ensures AllBorn(order, leaked', generated)
  {
    forall i | 0 <= i < |order| ensures Born(order, leaked', generated, i) {
      assert Born(order, leaked, generated, i);
      var k: nat :| BornAt(order, leaked, generated, i, k);
      assert BornAt(order, leaked', generated, i, k);
    }
  }

  /**
    Freshness: in every open run of either version that only uses generated identifiers and never
    has all of them in flight, the next one collides if and only if it was leaked or the run ends
    with all 65535 in flight.
   */
  lemma {:induction false} CollidesIff(v: Version, cap: usize, es: seq<Event>)
    requires Run(v, cap, es).Some? && OnlyGenerated(es) && NeverExhausted(v, cap, es)
    requires Run(v, cap, es).value.open
    ensures var s := Run(v, cap, es).value;
            && Origins(s)
            && (NextId(s.counter).0 in s.inflight <==>
                NextId(s.counter).0 as u16 in Leaked(s) || |s.inflight| == IDS)
  {
    hide Inv, Next, Leaked, AllBorn, NextId;
    RunKeeps(v, cap, es);
    if es != [] {
      var p := Before(es);
      RunKeeps(v, cap, p);
      StaysFailed(v, Run(v, cap, p).value, es[|es| - 1]);
      CollidesIff(v, cap, p);
      StepOrigins(v, Run(v, cap, p).value, es[|es| - 1]);
    } else {
      assert AllBorn([], Leaked(Init(cap)), 0) by { NoneBorn(Leaked(Init(cap))); }
    }
    CollidesIffLeaked(Run(v, cap, es).value);
  }

  lemma NoneBorn(leaked: set<u16>)
    ensures AllBorn([], leaked, 0)
  {
  }

  // ----- Without leaks: a contiguous window

  /** The expected identifiers are the most recently generated ones. */
  ghost predicate MostRecent(order: seq<u16>, generated: nat) {
    && |order| <= generated && |order| <= IDS
    && (forall i :: 0 <= i < |order| ==> order[i] == Generated(generated - |order| + i))
  }

  /** A collision takes an identifier that is in flight. */
  lemma RegisterWindow(s: State, req: Request)
    requires Inv(s) && s.open && Origins(s) && Leaked(s) == {} && |s.inflight| < IDS && req.id == 0
    requires MostRecent(s.order, s.generated)
    ensures var s' := Register(s, req).0; MostRecent(s'.order, s'.generated)
  {
    hide Inv, Leaked, Origins;
    CollidesIffLeaked(s);
    NextIdGenerates(s.generated);
    CounterIs(s);
    NoLeakSize(s);
  }

  lemma NoLeakSize(s: State)
    requires Inv(s) && s.open && Leaked(s) == {}
    ensures |s.order| == |s.inflight|
  {
    OpenIsSafe(s);
    NoDupSize(s.order);
    forall id | id in s.inflight ensures id in Elements(s.order) {
      assert id in Leaked(s) || id in Elements(s.order);
    }
    assert s.inflight.Keys == Elements(s.order);
  }

  lemma StepWindow(v: Version, s: State, e: Event)
    requires Inv(s) && Enabled(s, e) && s.open && Origins(s) && Leaked(s) == {} && |s.inflight| < IDS
    requires MostRecent(s.order, s.generated) && (e.FreshSend? ==> e.req.id == 0)
    ensures var s' := Next(v, s, e); s'.open ==> MostRecent(s'.order, s'.generated)
  {
    hide Inv, Register, AckIn, Leaked, AllBorn, OrderSafe;
    match e
    case FreshSend(req) => RegisterWindow(s, req);
    case ResumeSend(w) =>
      DropKeeps(s, w);
      SameLeaks(s, Drop(s, w));
      SameOrigins(s, Drop(s, w));
      RegisterWindow(Drop(s, w), s.parked[w]);
    case DropSend(_) =>
    case AckArrives(ack) =>
      OpenIsSafe(s);
      if AckIn(v, s, ack).0.open { AckTakesFront(v, s, ack); }
    case CloseSink =>
  }

  /**
    As long as nothing is leaked, the expected identifiers of such a run are a contiguous cyclic
    window, and the next one collides only if the run ends with all 65535 in flight.
   */
  lemma {:induction false} GeneratedIdsStayFresh(v: Version, cap: usize, es: seq<Event>)
    requires Run(v, cap, es).Some? && OnlyGenerated(es) && NeverExhausted(v, cap, es)
    requires Run(v, cap, es).value.open && Leaked(Run(v, cap, es).value) == {}
    ensures var s := Run(v, cap, es).value;
            && MostRecent(s.order, s.generated)
            && (NextId(s.counter).0 in s.inflight <==> |s.inflight| == IDS)
  {
    hide Inv, Next, Leaked, AllBorn, NextId;
    if es != [] {
      var p, e := Before(es), es[|es| - 1];
      assert p + [e] == es;
      LeakedForever(v, cap, p, [e]);
      RunKeeps(v, cap, p);
      CollidesIff(v, cap, p);
      GeneratedIdsStayFresh(v, cap, p);
      StepWindow(v, Run(v, cap, p).value, e);
    }
    CollidesIff(v, cap, es);
  }

  /** In MQTT 3.1.1 nothing is ever leaked, so this holds in every open run. */
  lemma V3IdsStayFresh(cap: usize, es: seq<Event>)
    requires Run(V3, cap, es).Some? && OnlyGenerated(es) && NeverExhausted(V3, cap, es)
    requires Run(V3, cap, es).value.open
    ensures var s := Run(V3, cap, es).value;
            && MostRecent(s.order, s.generated)
            && (NextId(s.counter).0 in s.inflight <==> |s.inflight| == IDS)
  {
    V3OrderIsInflight(cap, es);
    GeneratedIdsStayFresh(V3, cap, es);
  }

  // ----- An input at which a generated identifier collides with one outstanding

  /** Only identifier 1 is in flight, and it is leaked; `n` others have come and gone since. */
  predicate Alone(s: State, n: nat) {
    && s.open && s.cap == 2 && s.counter == (n + 1) % IDS && s.inflight.Keys == {1} && s.order == []
    && s.waiters == [] && s.woken == {}
  }

  /** The first identifier is sent, and another one acknowledged. */
  lemma LoseFirst() returns (s: State)
    ensures Reachable(V5, 2, s) && Alone(s, 0)
  {
    var req := Request(PublishKind, 0);
    assert Run(V5, 2, []) == Some(Init(2));
    var s1 := Fresh(Init(2), req).0;
    assert s1.inflight.Keys == {1} && s1.order == [1] && s1.counter == 1;
    ReachNext(V5, 2, Init(2), FreshSend(req));
    s := AckIn(V5, s1, PublishAck(2)).0;
    ReachNext(V5, 2, s1, AckArrives(PublishAck(2)));
  }

  /** Identifier `id` has been sent besides. */
  predicate Paired(s: State, id: PacketId) {
    && s.open && s.cap == 2 && s.counter == id % IDS && id != 1 && s.inflight.Keys == {1, id}
    && s.inflight[id].kind == PublishKind && s.order == [id] && s.waiters == [] && s.woken == {}
  }

  lemma SendOne(s: State, n: nat)
    requires Alone(s, n) && n < IDS - 1
    ensures |s.inflight| < USIZE && Paired(Fresh(s, Request(PublishKind, 0)).0, n + 2)
  {
    assert |s.inflight.Keys| == 1;
    assert NextId(s.counter) == (n + 2, (n + 2) % IDS);
  }

  lemma AckOne(s: State, id: PacketId)
    requires Paired(s, id)
    ensures Alone(AckIn(V5, s, PublishAck(id)).0, id - 1)
  {
    assert s.order[0] == id && s.order[1..] == [];
    var s' := AckIn(V5, s, PublishAck(id)).0;
    assert s'.inflight == s.inflight - {id} && (s.inflight - {id}).Keys == {1};
  }

  /** One send and its acknowledgement. */
  lemma Round(s: State, n: nat) returns (s': State)
    requires Reachable(V5, 2, s) && Alone(s, n) && n < IDS - 1
    ensures Reachable(V5, 2, s') && Alone(s', n + 1)
  {
    hide Alone, Paired, Fresh, AckIn;
    SendOne(s, n);
    var s1 := Fresh(s, Request(PublishKind, 0)).0;
    ReachNext(V5, 2, s, FreshSend(Request(PublishKind, 0)));
    AckOne(s1, n + 2);
    s' := AckIn(V5, s1, PublishAck(n + 2)).0;
    ReachNext(V5, 2, s1, AckArrives(PublishAck(n + 2)));
  }

  lemma {:induction false} Rounds(n: nat) returns (s: State)
    requires n <= IDS - 1
    ensures Reachable(V5, 2, s) && Alone(s, n)
  {
    if n == 0 {
      s := LoseFirst();
    } else {
      s := Rounds(n - 1);
      s := Round(s, n - 1);
    }
  }

  /** With a cap of two: after a lost identifier and 65534 rounds, a send fails with one identifier in flight. */
  lemma LeakedIdCollides() returns (s: State)
    ensures Reachable(V5, 2, s) && s.open && |s.inflight| == 1
    ensures Fresh(s, Request(PublishKind, 0)).1 == Failed(PacketIdInUse(1))
  {
    s := Rounds(IDS - 1);
    assert |s.inflight.Keys| == 1;
  }
}
