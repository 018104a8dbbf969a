/**
  The inbound side of an MQTT 5.0 server connection (src/v5/dispatcher.rs:159-294, 353-401 and
  449-472): packet identifiers in use, the receive maximum and topic aliases.
 */
module V5Inbound {
  import opened Wrappers
  import opened Words
  import opened Bytes
  import opened Collections

  /** A receive maximum of zero stands for no maximum. */
  datatype Config = Config(maxReceive: nat, maxTopicAlias: u16)

  datatype Message = Message(id: Option<nz16>, topic: seq<byte>, alias: Option<nz16>)

  /** What is dispatched to the service. */
  datatype Item =
    | Publish(message: Message)
    | Subscribe(id: nz16)
    | Unsubscribe(id: nz16)
    | Control      // AUTH, PINGREQ, DISCONNECT
    | Fault        // decoder, encoder, keep-alive and transport errors, refused acknowledgements
    | Other        // everything else is answered with nothing

  datatype ProtocolError = ReceiveMaximumExceeded | UnknownTopicAlias | MaxTopicAlias

  datatype Verdict = Accepted | IdInUse | Rejected(error: ProtocolError)

  /**
    The future of one dispatched item. Packet identifier 0 stands for none. `lost` is an
    identifier that was registered for the item and that the future no longer releases; the
    source does not record it.
   */
  datatype Future =
    | Publishing(id: u16)
    | Controlling(id: u16, error: bool, lost: u16)
    | Finished(lost: u16)

  /** What the control service is asked about: an item, a publish that was refused, an error of a service. */
  datatype Question = AboutItem(item: Item) | AboutRefusal(error: ProtocolError) | AboutFailure

  /** A question on behalf of a call. */
  datatype Ask = Ask(call: nat, question: Question)

  /**
    The last three fields are history: the messages that reached the publish service, what the
    control service was asked, and the items that were answered with "identifier in use".
   */
  datatype State = State(
    inflight: set<nz16>,
    aliases: set<nz16>,
    futures: seq<Future>,
    handled: seq<Message>,
    asked: seq<Ask>,
    duplicates: seq<Item>)

  function Initial(): State {
    State({}, {}, [], [], [], [])
  }

  // ----- One call of the dispatcher

  function Judge(c: Config, s: State, m: Message): Verdict {
    if m.id.Some? && c.maxReceive != 0 && |s.inflight| >= c.maxReceive then Rejected(ReceiveMaximumExceeded)
    else if m.id.Some? && m.id.value in s.inflight then IdInUse
    else if m.alias.Some? && m.topic == [] && m.alias.value !in s.aliases then Rejected(UnknownTopicAlias)
    else if m.alias.Some? && m.topic != [] && m.alias.value > c.maxTopicAlias then Rejected(MaxTopicAlias)
    else Accepted
  }

  function IdOr0(id: Option<nz16>): u16 {
    if id.Some? then id.value else 0
  }

  function Ids(id: u16): set<nz16> {
    if id == 0 then {} else {id}
  }

  /** The alias that a message registers. */
  function Registers(m: Message): set<nz16> {
    if m.alias.Some? && m.topic != [] then {m.alias.value} else {}
  }

  /** The call gets a future that waits for the control service. */
  function AskControl(s: State, f: Future, q: Question): State {
    s.(futures := s.futures + [f], asked := s.asked + [Ask(|s.futures|, q)])
  }

  function RefuseDuplicate(s: State, item: Item): State {
    s.(futures := s.futures + [Finished(0)], duplicates := s.duplicates + [item])
  }

  function ReceivePublish(c: Config, s: State, m: Message): State {
    var id := IdOr0(m.id);
    match Judge(c, s, m)
    case IdInUse => RefuseDuplicate(s, Publish(m))
    case Accepted =>
      s.(inflight := s.inflight + Ids(id), aliases := s.aliases + Registers(m),
         futures := s.futures + [Publishing(id)], handled := s.handled + [m])
    case Rejected(e) =>
      if e == ReceiveMaximumExceeded then AskControl(s, Controlling(0, true, 0), AboutRefusal(e))
      else AskControl(s.(inflight := s.inflight + Ids(id)), Controlling(0, true, id), AboutRefusal(e))
  }

  /** A SUBSCRIBE or UNSUBSCRIBE. */
  function ReceiveTracked(s: State, item: Item, id: nz16): State {
    if id in s.inflight then RefuseDuplicate(s, item)
    else AskControl(s.(inflight := s.inflight + {id}), Controlling(id, false, 0), AboutItem(item))
  }

  function Receive(c: Config, s: State, item: Item): State {
    match item
    case Publish(m) => ReceivePublish(c, s, m)
    case Subscribe(id) => ReceiveTracked(s, item, id)
    case Unsubscribe(id) => ReceiveTracked(s, item, id)
    case Control => AskControl(s, Controlling(0, false, 0), AboutItem(Control))
    case Fault => AskControl(s, Controlling(0, true, 0), AboutItem(Fault))
    case Other => s.(futures := s.futures + [Finished(0)])
  }

  // ----- One completion of the service call that a future waits for

  /** `asAck` says whether the publish service's error converts to an acknowledgement. */
  datatype Completion = Done | Failed(asAck: bool)

  /**
    What becomes of the future, and the identifiers it releases. A future that waits for the
    control service afterwards has just asked it about the error.
   */
  function Settled(f: Future, r: Completion): (Future, set<nz16>) {
    match f
    case Publishing(id) =>
      if r.Done? || (id != 0 && r.asAck) then (Finished(0), Ids(id)) else (Controlling(0, true, id), {})
    case Controlling(id, error, lost) =>
      if r.Done? then (Finished(lost), Ids(id))
      else if error then (Finished(if id != 0 then id else lost), {})
      else (Controlling(id, true, lost), {})
    case Finished(_) => (f, {})
  }

  function Complete(s: State, i: nat, r: Completion): State
    requires i < |s.futures|
  {
    var (f, released) := Settled(s.futures[i], r);
    s.(inflight := s.inflight - released, futures := s.futures[i := f],
       asked := s.asked + if f.Controlling? then [Ask(i, AboutFailure)] else [])
  }

  // ----- Runs

  datatype Event = Arrive(item: Item) | Settle(i: nat, r: Completion)

  function Next(c: Config, s: State, e: Event): State {
    match e
    case Arrive(item) => Receive(c, s, item)
    case Settle(i, r) => if i < |s.futures| then Complete(s, i, r) else s
  }

  function Run(c: Config, events: seq<Event>): State {
    if events == [] then Initial()
    else Next(c, Run(c, events[..|events| - 1]), events[|events| - 1])
  }

  ghost predicate Reachable(c: Config, s: State) {
    exists events :: s == Run(c, events)
  }

  // ----- The invariant

  /** The identifier that a future will release if its service answers. */
  function Holds(f: Future): u16 {
    if f.Finished? then 0 else f.id
  }

  function Lost(f: Future): u16 {
    if f.Publishing? then 0 else f.lost
  }

  /** The identifier that is registered on behalf of a future. */
  function Registered(f: Future): u16 {
    if Holds(f) != 0 then Holds(f) else Lost(f)
  }

  ghost predicate Exact(inflight: set<nz16>, fs: seq<Future>) {
    && (forall i :: 0 <= i < |fs| && Registered(fs[i]) != 0 ==> Registered(fs[i]) in inflight)
    && (forall id :: id in inflight ==> exists i :: 0 <= i < |fs| && Registered(fs[i]) == id)
    && (forall i, j :: 0 <= i < j < |fs| && Registered(fs[i]) != 0 ==> Registered(fs[i]) != Registered(fs[j]))
    && (forall i :: 0 <= i < |fs| ==> Holds(fs[i]) == 0 || Lost(fs[i]) == 0)
  }

  ghost predicate AliasesExact(c: Config, aliases: set<nz16>, handled: seq<Message>) {
    && (forall a :: a in aliases ==>
          a <= c.maxTopicAlias && exists k :: 0 <= k < |handled| && a in Registers(handled[k]))
    && (forall k :: 0 <= k < |handled| ==> Registers(handled[k]) <= aliases)
  }

  /** Message k names a topic by alias, and an earlier message registered that alias. */
  ghost predicate Introduced(handled: seq<Message>, k: nat)
    requires k < |handled| && handled[k].alias.Some?
  {
    exists j :: 0 <= j < k && handled[k].alias.value in Registers(handled[j])
  }

  ghost predicate AliasesIntroduced(handled: seq<Message>) {
    forall k :: 0 <= k < |handled| && handled[k].topic == [] && handled[k].alias.Some? ==> Introduced(handled, k)
  }

  /** The publish services that are running for identified messages. */
  function LivePublishes(fs: seq<Future>): set<nat> {
    set i | 0 <= i < |fs| && fs[i].Publishing? && fs[i].id != 0
  }

  ghost predicate Inv(c: Config, s: State) {
    && Exact(s.inflight, s.futures)
    && AliasesExact(c, s.aliases, s.handled)
    && AliasesIntroduced(s.handled)
    && (c.maxReceive != 0 ==> |LivePublishes(s.futures)| <= c.maxReceive)
  }

  lemma {:induction false} InjectionSize(fs: seq<Future>, indices: set<nat>, ids: set<nz16>)
    requires forall i :: i in indices ==> i < |fs| && Registered(fs[i]) in ids
    requires forall i, j :: i in indices && j in indices && i != j ==> Registered(fs[i]) != Registered(fs[j])
    ensures |indices| <= |ids|
    decreases indices
  {
    if indices != {} {
      var i :| i in indices;
      InjectionSize(fs, indices - {i}, ids - {Registered(fs[i])});
    }
  }

  /** At most as many identified publishes are running as identifiers are in use. */
  lemma LiveWithinInflight(inflight: set<nz16>, fs: seq<Future>)
    requires Exact(inflight, fs)
    ensures |LivePublishes(fs)| <= |inflight|
  {
    InjectionSize(fs, LivePublishes(fs), inflight);
  }

  lemma ExactAppend(inflight: set<nz16>, fs: seq<Future>, f: Future)
    requires Exact(inflight, fs) && (Holds(f) == 0 || Lost(f) == 0)
    requires Registered(f) == 0 || Registered(f) !in inflight
    ensures Exact(inflight + Ids(Registered(f)), fs + [f])
  {
    hide Holds, Lost, Registered;
    var fs' := fs + [f];
    forall id | id in inflight + Ids(Registered(f)) ensures exists i :: 0 <= i < |fs'| && Registered(fs'[i]) == id {
      if id in inflight {
        var i :| 0 <= i < |fs| && Registered(fs[i]) == id;
        assert fs'[i] == fs[i];
      } else {
        assert fs'[|fs|] == f;
      }
    }
  }

  lemma ExactUpdate(inflight: set<nz16>, fs: seq<Future>, i: nat, f: Future)
    requires Exact(inflight, fs) && i < |fs| && (Holds(f) == 0 || Lost(f) == 0)
    requires Registered(f) == 0 || Registered(f) == Registered(fs[i])
    ensures Exact(if Registered(f) == 0 then inflight - Ids(Registered(fs[i])) else inflight, fs[i := f])
  {
    hide Holds, Lost, Registered;
    var fs' := fs[i := f];
    var ids := if Registered(f) == 0 then inflight - Ids(Registered(fs[i])) else inflight;
    forall id | id in ids ensures exists j :: 0 <= j < |fs'| && Registered(fs'[j]) == id {
      var j :| 0 <= j < |fs| && Registered(fs[j]) == id;
      assert Registered(fs'[j]) == id;
    }
  }

  lemma LiveAppend(fs: seq<Future>, f: Future)
    ensures |LivePublishes(fs + [f])| == |LivePublishes(fs)| + if f.Publishing? && f.id != 0 then 1 else 0
  {
    var before, after := LivePublishes(fs), LivePublishes(fs + [f]);
    assert after == before + if f.Publishing? && f.id != 0 then {|fs|} else {};
  }

  lemma LiveUpdate(fs: seq<Future>, i: nat, f: Future)
    requires i < |fs| && (f.Publishing? ==> f == fs[i])
    ensures |LivePublishes(fs[i := f])| <= |LivePublishes(fs)|
  {
    SubsetSize(LivePublishes(fs[i := f]), LivePublishes(fs));
  }

  lemma AliasesAppend(c: Config, aliases: set<nz16>, handled: seq<Message>, m: Message)
    requires AliasesExact(c, aliases, handled) && AliasesIntroduced(handled)
    requires m.alias.Some? && m.topic == [] ==> m.alias.value in aliases
    requires m.alias.Some? && m.topic != [] ==> m.alias.value <= c.maxTopicAlias
    ensures AliasesExact(c, aliases + Registers(m), handled + [m]) && AliasesIntroduced(handled + [m])
  {
    var h := handled + [m];
    forall a | a in aliases + Registers(m)
      ensures a <= c.maxTopicAlias && exists k :: 0 <= k < |h| && a in Registers(h[k])
    {
      if a in aliases {
        var k :| 0 <= k < |handled| && a in Registers(handled[k]);
        assert h[k] == handled[k];
      } else {
        assert h[|handled|] == m;
      }
    }
    forall k | 0 <= k < |h| && h[k].topic == [] && h[k].alias.Some? ensures Introduced(h, k) {
      if k < |handled| {
        assert Introduced(handled, k);
        var j :| 0 <= j < k && handled[k].alias.value in Registers(handled[j]);
        assert h[k].alias.value in Registers(h[j]);
      } else {
        var j :| 0 <= j < |handled| && m.alias.value in Registers(handled[j]);
        assert h[k].alias.value in Registers(h[j]);
      }
    }
  }

  /** A step that appends a future and registers its identifier, which was free. */
  ghost predicate Enrols(c: Config, s: State, s': State, f: Future) {
    && s'.futures == s.futures + [f]
    && s'.inflight == s.inflight + Ids(Registered(f))
    && (Registered(f) == 0 || Registered(f) !in s.inflight)
    && (Holds(f) == 0 || Lost(f) == 0)
    && (f.Publishing? && f.id != 0 && c.maxReceive != 0 ==> |s.inflight| < c.maxReceive)
  }

  lemma PublishShape(c: Config, s: State, m: Message) returns (f: Future)
    ensures Enrols(c, s, ReceivePublish(c, s, m), f)
  {
    match Judge(c, s, m)
    case IdInUse => f := Finished(0);
    case Accepted => f := Publishing(IdOr0(m.id));
    case Rejected(e) => f := Controlling(0, true, if e == ReceiveMaximumExceeded then 0 else IdOr0(m.id));
  }

  lemma TrackedShape(c: Config, s: State, item: Item, id: nz16) returns (f: Future)
    ensures Enrols(c, s, ReceiveTracked(s, item, id), f)
  {
    f := if id in s.inflight then Finished(0) else Controlling(id, false, 0);
  }

  /** Every item gets one future, and the identifier registered on its behalf was free. */
  lemma ReceiveShape(c: Config, s: State, item: Item) returns (f: Future)
    ensures Enrols(c, s, Receive(c, s, item), f)
  {
    hide ReceivePublish, ReceiveTracked;
    match item
    case Publish(m) => f := PublishShape(c, s, m);
    case Subscribe(id) => f := TrackedShape(c, s, item, id);
    case Unsubscribe(id) => f := TrackedShape(c, s, item, id);
    case Control => f := Controlling(0, false, 0);
    case Fault => f := Controlling(0, true, 0);
    case Other => f := Finished(0);
  }

  lemma ReceiveAliases(c: Config, s: State, item: Item)
    requires AliasesExact(c, s.aliases, s.handled) && AliasesIntroduced(s.handled)
    ensures var s' := Receive(c, s, item);
            AliasesExact(c, s'.aliases, s'.handled) && AliasesIntroduced(s'.handled)
  {
    hide AliasesExact, AliasesIntroduced;
    if item.Publish? && Judge(c, s, item.message).Accepted? {
      AliasesAppend(c, s.aliases, s.handled, item.message);
    }
  }

  lemma ReceiveKeeps(c: Config, s: State, item: Item)
    requires Inv(c, s)
    ensures Inv(c, Receive(c, s, item))
  {
    hide Exact, AliasesExact, AliasesIntroduced, LivePublishes, Receive;
    var f := ReceiveShape(c, s, item);
    ExactAppend(s.inflight, s.futures, f);
    LiveAppend(s.futures, f);
    LiveWithinInflight(s.inflight, s.futures);
    ReceiveAliases(c, s, item);
  }

  lemma CompleteKeeps(c: Config, s: State, i: nat, r: Completion)
    requires Inv(c, s) && i < |s.futures|
    ensures Inv(c, Complete(s, i, r))
  {
    hide AliasesExact, AliasesIntroduced, LivePublishes;
    var (f, released) := Settled(s.futures[i], r);
    ExactUpdate(s.inflight, s.futures, i, f);
    LiveUpdate(s.futures, i, f);
    assert Complete(s, i, r).inflight
        == if Registered(f) == 0 then s.inflight - Ids(Registered(s.futures[i])) else s.inflight;
  }

  lemma {:induction false} RunKeeps(c: Config, events: seq<Event>)
    ensures Inv(c, Run(c, events))
  {
    hide Inv, Receive, Complete;
    if events == [] {
      InitialInv(c);
    } else {
      var before, e := events[..|events| - 1], events[|events| - 1];
      RunKeeps(c, before);
      var s := Run(c, before);
      match e
      case Arrive(item) => ReceiveKeeps(c, s, item);
      case Settle(i, r) => if i < |s.futures| { CompleteKeeps(c, s, i, r); }
    }
  }

  lemma InitialInv(c: Config)
    ensures Inv(c, Initial())
  {
  }

  lemma ReachableInv(c: Config, s: State)
    requires Reachable(c, s)
    ensures Inv(c, s)
  {
    var events :| s == Run(c, events);
    RunKeeps(c, events);
  }

  // ----- Safety over all runs

  /** No two running handlers, of whatever kind, share a packet identifier. */
  lemma HandlersDistinct(c: Config, s: State, i: nat, j: nat)
    requires Reachable(c, s) && i < j < |s.futures| && Holds(s.futures[i]) != 0
    ensures Holds(s.futures[i]) != Holds(s.futures[j])
  {
    ReachableInv(c, s);
  }

  /** The identified publishes that are running stay within the receive maximum. */
  lemma WithinReceiveMaximum(c: Config, s: State)
    requires Reachable(c, s) && c.maxReceive != 0
    ensures |LivePublishes(s.futures)| <= c.maxReceive
  {
    ReachableInv(c, s);
  }

  /** An alias is in use exactly if a handled message registered it, and all are within the maximum. */
  lemma AliasesAreRegistered(c: Config, s: State, a: nz16)
    requires Reachable(c, s)
    ensures a in s.aliases <==> exists k :: 0 <= k < |s.handled| && a in Registers(s.handled[k])
    ensures a in s.aliases ==> 1 <= a <= c.maxTopicAlias
  {
    ReachableInv(c, s);
  }

  /** A message that names its topic by alias alone reaches the handler only after one that registered the alias. */
  lemma EmptyTopicIntroduced(c: Config, s: State, k: nat)
    requires Reachable(c, s) && k < |s.handled| && s.handled[k].topic == []
    ensures s.handled[k].alias.None? ||
            exists j :: 0 <= j < k && s.handled[j].topic != [] && s.handled[j].alias == s.handled[k].alias
  {
    ReachableInv(c, s);
    if s.handled[k].alias.Some? {
      assert Introduced(s.handled, k);
      var j :| 0 <= j < k && s.handled[k].alias.value in Registers(s.handled[j]);
    }
  }

  lemma RunOne(c: Config, e: Event)
    ensures Run(c, [e]) == Next(c, Initial(), e)
  {
    assert [e][..0] == [];
    assert Run(c, []) == Initial();
  }

  /** A message with neither topic nor alias does reach the handler, whatever the settings. */
  lemma NamelessMessageHandled(c: Config)
    ensures var m := Message(None, [], None); Run(c, [Arrive(Publish(m))]).handled == [m]
  {
    RunOne(c, Arrive(Publish(Message(None, [], None))));
  }

  /** The futures that still answer for an identifier, and those that lost theirs. */
  function Registering(fs: seq<Future>): set<nat> {
    set i | 0 <= i < |fs| && Registered(fs[i]) != 0
  }

  function LostIds(fs: seq<Future>): set<nz16> {
    set i | 0 <= i < |fs| && Lost(fs[i]) != 0 :: Lost(fs[i])
  }

  /** Each identifier in use is registered by exactly one future. */
  lemma InflightCounts(c: Config, s: State)
    requires Reachable(c, s)
    ensures |s.inflight| == |Registering(s.futures)|
  {
    ReachableInv(c, s);
    InjectionSize(s.futures, Registering(s.futures), s.inflight);
    InflightSize(s.futures, Registering(s.futures), s.inflight);
  }

  lemma {:induction false} InflightSize(fs: seq<Future>, indices: set<nat>, ids: set<nz16>)
    requires forall id :: id in ids ==> exists i :: i in indices && i < |fs| && Registered(fs[i]) == id
    ensures |ids| <= |indices|
    decreases indices
  {
    if ids != {} {
      var id :| id in ids;
      var i :| i in indices && i < |fs| && Registered(fs[i]) == id;
      forall x | x in ids - {id} ensures exists j :: j in indices - {i} && j < |fs| && Registered(fs[j]) == x {
        var j :| j in indices && j < |fs| && Registered(fs[j]) == x;
        assert j != i;
      }
      InflightSize(fs, indices - {i}, ids - {id});
    }
  }

  /**
    What a publish is refused for, in terms of the futures alone: too many identifiers
    registered, or its own identifier registered by a future that is running or lost it.
   */
  lemma RefusalsExact(c: Config, s: State, m: Message)
    requires Reachable(c, s)
    ensures Judge(c, s, m) == Rejected(ReceiveMaximumExceeded) <==>
            m.id.Some? && c.maxReceive != 0 && |Registering(s.futures)| >= c.maxReceive
    ensures Judge(c, s, m) == IdInUse ==> exists i :: 0 <= i < |s.futures| && Registered(s.futures[i]) == m.id.value
    ensures Judge(c, s, m) == Accepted && m.id.Some? ==>
              forall i :: 0 <= i < |s.futures| ==> Registered(s.futures[i]) != m.id.value
  {
    InflightCounts(c, s);
    ReachableInv(c, s);
  }

  // ----- Identifiers that are never released

  /** The identifier that an event loses. */
  function LostNow(c: Config, s: State, e: Event): set<nz16> {
    match e
    case Arrive(item) =>
      if item.Publish? && Judge(c, s, item.message) in {Rejected(UnknownTopicAlias), Rejected(MaxTopicAlias)}
      then Ids(IdOr0(item.message.id)) else {}
    case Settle(i, r) =>
      if i < |s.futures| && r.Failed? && Unrecovered(s.futures[i], r.asAck) then Ids(s.futures[i].id) else {}
  }

  /** An error after which nobody releases the identifier. */
  predicate Unrecovered(f: Future, asAck: bool) {
    (f.Publishing? && !asAck) || (f.Controlling? && f.error)
  }

  lemma ReceiveLoses(c: Config, s: State, item: Item)
    ensures LostIds(Receive(c, s, item).futures) == LostIds(s.futures) + LostNow(c, s, Arrive(item))
  {
    hide Exact;
    var s' := Receive(c, s, item);
    var f := s'.futures[|s.futures|];
    assert s'.futures == s.futures + [f];
    assert Ids(Lost(f)) == LostNow(c, s, Arrive(item));
    LostAppend(s.futures, f);
  }

  lemma LostAppend(fs: seq<Future>, f: Future)
    ensures LostIds(fs + [f]) == LostIds(fs) + Ids(Lost(f))
  {
    var fs' := fs + [f];
    forall id | id in LostIds(fs) + Ids(Lost(f)) ensures id in LostIds(fs') {
      if id in LostIds(fs) {
        var i :| 0 <= i < |fs| && Lost(fs[i]) != 0 && Lost(fs[i]) == id;
        assert fs'[i] == fs[i];
      } else {
        assert fs'[|fs|] == f;
      }
    }
  }

  lemma LostUpdate(fs: seq<Future>, i: nat, f: Future)
    requires i < |fs| && (Lost(f) == Lost(fs[i]) || Lost(fs[i]) == 0)
    ensures LostIds(fs[i := f]) == LostIds(fs) + Ids(Lost(f))
  {
    var fs' := fs[i := f];
    forall id | id in LostIds(fs) + Ids(Lost(f)) ensures id in LostIds(fs') {
      if id in LostIds(fs) {
        var j :| 0 <= j < |fs| && Lost(fs[j]) != 0 && Lost(fs[j]) == id;
        assert Lost(fs'[j]) == id;
      } else {
        assert fs'[i] == f;
      }
    }
  }

  /** The lost identifiers only grow, and by exactly what an event loses. */
  lemma LostGrows(c: Config, s: State, e: Event)
    requires Inv(c, s)
    ensures LostIds(Next(c, s, e).futures) == LostIds(s.futures) + LostNow(c, s, e)
  {
    hide AliasesExact, AliasesIntroduced, LivePublishes, LostIds, Receive;
    match e
    case Arrive(item) => ReceiveLoses(c, s, item);
    case Settle(i, r) =>
      if i < |s.futures| {
        var f := Settled(s.futures[i], r).0;
        LostUpdate(s.futures, i, f);
        assert LostIds(s.futures) + Ids(Lost(s.futures[i])) == LostIds(s.futures) by { AlreadyLost(s.futures, i); }
      }
  }

  lemma AlreadyLost(fs: seq<Future>, i: nat)
    requires i < |fs|
    ensures Ids(Lost(fs[i])) <= LostIds(fs)
  {
  }

  lemma {:induction false} LostForever(c: Config, events: seq<Event>, more: seq<Event>)
    ensures LostIds(Run(c, events).futures) <= LostIds(Run(c, events + more).futures)
  {
    hide Inv, Next, LostIds;
    if more == [] {
      assert events + more == events;
    } else {
      var rest := more[..|more| - 1];
      LostForever(c, events, rest);
      assert (events + more)[..|events + more| - 1] == events + rest;
      RunKeeps(c, events + rest);
      LostGrows(c, Run(c, events + rest), more[|more| - 1]);
    }
  }

  lemma LostInflight(c: Config, s: State)
    requires Inv(c, s)
    ensures LostIds(s.futures) <= s.inflight
  {
  }

  /** A message whose identifier was lost is refused for the rest of the connection. */
  lemma LostNeverAccepted(c: Config, events: seq<Event>, more: seq<Event>, m: Message)
    requires m.id.Some? && m.id.value in LostIds(Run(c, events).futures)
    ensures Judge(c, Run(c, events + more), m) in {IdInUse, Rejected(ReceiveMaximumExceeded)}
  {
    hide LostIds, Run, Inv;
    LostForever(c, events, more);
    RunKeeps(c, events + more);
    LostInflight(c, Run(c, events + more));
  }

  /** Once as many identifiers are lost as the receive maximum, no identified message is ever accepted again. */
  lemma LossesExhaust(c: Config, events: seq<Event>, more: seq<Event>, m: Message)
    requires c.maxReceive != 0 && |LostIds(Run(c, events).futures)| >= c.maxReceive && m.id.Some?
    ensures Judge(c, Run(c, events + more), m) == Rejected(ReceiveMaximumExceeded)
  {
    hide LostIds, Run, Inv;
    LostForever(c, events, more);
    RunKeeps(c, events + more);
    LostInflight(c, Run(c, events + more));
    SubsetSize(LostIds(Run(c, events).futures), Run(c, events + more).inflight);
  }

  /** A handler error that does not convert to an acknowledgement loses the identifier of any first message. */
  lemma FailedPublishLoses(c: Config, m: Message)
    requires m.id.Some? && m.alias.None?
    ensures LostIds(Run(c, [Arrive(Publish(m)), Settle(0, Failed(false))]).futures) == {m.id.value}
  {
    var arrive, settle := Arrive(Publish(m)), Settle(0, Failed(false));
    RunOne(c, arrive);
    var s := Next(c, Initial(), arrive);
    assert s.futures == [Publishing(m.id.value)];
    assert [arrive, settle][..1] == [arrive];
    var s' := Run(c, [arrive, settle]);
    assert s' == Next(c, s, settle) && s'.futures == [Controlling(0, true, m.id.value)];
    assert Lost(s'.futures[0]) == m.id.value;
  }

  /** So does an alias that was never registered. */
  lemma UnknownAliasLoses(c: Config, id: nz16, alias: nz16)
    ensures LostIds(Run(c, [Arrive(Publish(Message(Some(id), [], Some(alias))))]).futures) == {id}
  {
    var e := Arrive(Publish(Message(Some(id), [], Some(alias))));
    RunOne(c, e);
    var s := Run(c, [e]);
    assert s.futures == [Controlling(0, true, id)];
    assert Lost(s.futures[0]) == id;
  }

  /** With a receive maximum of one, that first failure refuses every identified message from then on. */
  lemma OneFailureExhausts(m: Message, later: Message, more: seq<Event>)
    requires m.id.Some? && m.alias.None? && later.id.Some?
    ensures Judge(Config(1, 0), Run(Config(1, 0), [Arrive(Publish(m)), Settle(0, Failed(false))] + more), later)
         == Rejected(ReceiveMaximumExceeded)
  {
    FailedPublishLoses(Config(1, 0), m);
    LossesExhaust(Config(1, 0), [Arrive(Publish(m)), Settle(0, Failed(false))], more, later);
  }

  /** The identifiers that running futures answer for. */
  function HeldIds(fs: seq<Future>): set<nz16> {
    set i | 0 <= i < |fs| && Holds(fs[i]) != 0 :: Holds(fs[i])
  }

  /** Identifiers in use are those of running handlers and those that were lost, and no identifier is both. */
  lemma InflightIsHeldOrLost(c: Config, s: State)
    requires Reachable(c, s)
    ensures s.inflight == HeldIds(s.futures) + LostIds(s.futures)
    ensures HeldIds(s.futures) !! LostIds(s.futures)
  {
    ReachableInv(c, s);
    LostInflight(c, s);
    var fs := s.futures;
    forall id | id in s.inflight ensures id in HeldIds(fs) + LostIds(fs) {
      var i :| 0 <= i < |fs| && Registered(fs[i]) == id;
      assert Holds(fs[i]) == id || Lost(fs[i]) == id;
    }
    forall id | id in HeldIds(fs) ensures id in s.inflight && id !in LostIds(fs) {
      var i :| 0 <= i < |fs| && Holds(fs[i]) != 0 && Holds(fs[i]) == id;
      assert Registered(fs[i]) == id;
      forall j | 0 <= j < |fs| && Lost(fs[j]) != 0 ensures Lost(fs[j]) != id {
        assert Registered(fs[j]) == Lost(fs[j]);
      }
    }
  }
}
