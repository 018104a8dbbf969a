/**
  The life of every call of the MQTT 5.0 inbound dispatcher, told from the events alone: what becomes of
  an item when it arrives, what its future waits for after the answers it got, and what the publish and
  the control service are asked, in order (src/v5/dispatcher.rs:159-294, 353-401 and 449-472).
 */
module V5Calls {
  import opened Wrappers
  import opened Words
  import opened Bytes
  import opened V5Inbound

  /** Where an item goes. */
  datatype Fate = ToPublish(message: Message) | ToControl(question: Question, id: u16, lost: u16) | InUse | Nowhere

  ghost predicate Taken(fs: seq<Future>, id: nz16) {
    exists i :: 0 <= i < |fs| && Registered(fs[i]) == id
  }

  /** An earlier message that was handled introduced the alias. */
  ghost predicate Known(handled: seq<Message>, alias: nz16) {
    exists k :: 0 <= k < |handled| && handled[k].topic != [] && handled[k].alias == Some(alias)
  }

  /** The fate of an item, by the calls and the handled messages before it. */
  ghost function FateOf(c: Config, fs: seq<Future>, handled: seq<Message>, item: Item): Fate {
    match item
    case Publish(m) =>
      if m.id.Some? && c.maxReceive != 0 && |Registering(fs)| >= c.maxReceive then
        ToControl(AboutRefusal(ReceiveMaximumExceeded), 0, 0)
      else if m.id.Some? && Taken(fs, m.id.value) then InUse
      else if m.alias.Some? && m.topic == [] && !Known(handled, m.alias.value) then
        ToControl(AboutRefusal(UnknownTopicAlias), 0, IdOr0(m.id))
      else if m.alias.Some? && m.topic != [] && m.alias.value > c.maxTopicAlias then
        ToControl(AboutRefusal(MaxTopicAlias), 0, IdOr0(m.id))
      else ToPublish(m)
    case Subscribe(id) => if Taken(fs, id) then InUse else ToControl(AboutItem(item), id, 0)
    case Unsubscribe(id) => if Taken(fs, id) then InUse else ToControl(AboutItem(item), id, 0)
    case Control => ToControl(AboutItem(item), 0, 0)
    case Fault => ToControl(AboutItem(item), 0, 0)
    case Other => Nowhere
  }

  /** The fates of the items that arrived, in order. */
  ghost function Fates(c: Config, events: seq<Event>): seq<Fate> {
    if events == [] then []
    else
      var before, e := events[..|events| - 1], events[|events| - 1];
      Fates(c, before) +
        if e.Arrive? then [FateOf(c, Run(c, before).futures, Run(c, before).handled, e.item)] else []
  }

  /** The answers of the services that were given to a call, in order. */
  ghost function Answers(c: Config, events: seq<Event>, call: nat): seq<Completion> {
    if events == [] then []
    else
      var before, e := events[..|events| - 1], events[|events| - 1];
      Answers(c, before, call) +
        if e.Settle? && e.i == call && call < |Fates(c, before)| then [e.r] else []
  }

  /** The question is about an error; an error while it is answered is final. */
  predicate IsError(q: Question) {
    !q.AboutItem? || q.item.Fault?
  }

  /** The publish service's answer becomes an acknowledgement, or there is nothing to acknowledge. */
  predicate Settles(m: Message, r: Completion) {
    r.Done? || (m.id.Some? && r.asAck)
  }

  /** What the future of a call is after the answers it got. */
  function FutureOf(fate: Fate, rs: seq<Completion>): Future {
    match fate
    case ToPublish(m) =>
      if rs == [] then Publishing(IdOr0(m.id))
      else if Settles(m, rs[0]) then Finished(0)
      else if |rs| == 1 then Controlling(0, true, IdOr0(m.id))
      else Finished(IdOr0(m.id))
    case ToControl(q, id, lost) =>
      if rs == [] then Controlling(id, IsError(q), lost)
      else if rs[0].Done? then Finished(lost)
      else if IsError(q) then Finished(if id != 0 then id else lost)
      else if |rs| == 1 then Controlling(id, true, lost)
      else if rs[1].Done? then Finished(lost)
      else Finished(if id != 0 then id else lost)
    case InUse => Finished(0)
    case Nowhere => Finished(0)
  }

  /** An answer about which the control service is asked: the first one, if it is an error that was not one before. */
  predicate AsksAbout(fate: Fate, rs: seq<Completion>, r: Completion) {
    rs == [] && r.Failed? &&
    match fate
    case ToPublish(m) => !Settles(m, r)
    case ToControl(q, _, _) => !IsError(q)
    case _ => false
  }

  /** Everything that the control service is asked, in order. */
  ghost function Asked(c: Config, events: seq<Event>): seq<Ask> {
    if events == [] then []
    else
      var before, e := events[..|events| - 1], events[|events| - 1];
      Asked(c, before) +
        match e
        case Arrive(item) =>
          var fate := FateOf(c, Run(c, before).futures, Run(c, before).handled, item);
          if fate.ToControl? then [Ask(|Fates(c, before)|, fate.question)] else []
        case Settle(i, r) =>
          if i < |Fates(c, before)| && AsksAbout(Fates(c, before)[i], Answers(c, before, i), r)
          then [Ask(i, AboutFailure)] else []
  }

  /** The messages that go to the publish service, and the items whose identifier is in use. */
  ghost function Handled(c: Config, events: seq<Event>): seq<Message> {
    if events == [] then []
    else
      var before, e := events[..|events| - 1], events[|events| - 1];
      Handled(c, before) +
        if e.Arrive? && FateOf(c, Run(c, before).futures, Run(c, before).handled, e.item).ToPublish?
        then [e.item.message] else []
  }

  ghost function Duplicates(c: Config, events: seq<Event>): seq<Item> {
    if events == [] then []
    else
      var before, e := events[..|events| - 1], events[|events| - 1];
      Duplicates(c, before) +
        if e.Arrive? && FateOf(c, Run(c, before).futures, Run(c, before).handled, e.item).InUse? then [e.item] else []
  }

  // ----- One event

  lemma TakenMeans(c: Config, s: State, id: nz16)
    requires Inv(c, s)
    ensures Taken(s.futures, id) <==> id in s.inflight
  {
  }

  lemma KnownMeans(c: Config, s: State, alias: nz16)
    requires Inv(c, s)
    ensures Known(s.handled, alias) <==> alias in s.aliases
  {
    if alias in s.aliases {
      var k :| 0 <= k < |s.handled| && alias in Registers(s.handled[k]);
      assert s.handled[k].topic != [] && s.handled[k].alias == Some(alias);
    }
    if Known(s.handled, alias) {
      var k :| 0 <= k < |s.handled| && s.handled[k].topic != [] && s.handled[k].alias == Some(alias);
      assert alias in Registers(s.handled[k]);
    }
  }

  /** What an arriving item adds to the state, by its fate. */
  ghost predicate Adds(s: State, s': State, item: Item, fate: Fate) {
    && s'.futures == s.futures + [FutureOf(fate, [])]
    && s'.asked == s.asked + (if fate.ToControl? then [Ask(|s.futures|, fate.question)] else [])
    && s'.handled == s.handled + (if fate.ToPublish? then [fate.message] else [])
    && s'.duplicates == s.duplicates + (if fate.InUse? then [item] else [])
    && (fate.ToPublish? ==> item == Publish(fate.message))
  }

  function VerdictFate(m: Message, v: Verdict): Fate {
    match v
    case Accepted => ToPublish(m)
    case IdInUse => InUse
    case Rejected(e) => ToControl(AboutRefusal(e), 0, if e == ReceiveMaximumExceeded then 0 else IdOr0(m.id))
  }

  /** The dispatcher judges a message as its history does. */
  lemma JudgedByHistory(c: Config, s: State, m: Message)
    requires Inv(c, s) && |s.inflight| == |Registering(s.futures)|
    ensures FateOf(c, s.futures, s.handled, Publish(m)) == VerdictFate(m, Judge(c, s, m))
  {
    hide Inv, Registering, Taken, Known;
    if m.id.Some? { TakenMeans(c, s, m.id.value); }
    if m.alias.Some? { KnownMeans(c, s, m.alias.value); }
  }

  lemma VerdictAdds(c: Config, s: State, m: Message)
    ensures Adds(s, ReceivePublish(c, s, m), Publish(m), VerdictFate(m, Judge(c, s, m)))
  {
    hide Judge, Registers, Ids;
  }

  lemma ArrivalAdds(c: Config, s: State, item: Item)
    requires Inv(c, s) && |s.inflight| == |Registering(s.futures)|
    ensures Adds(s, Receive(c, s, item), item, FateOf(c, s.futures, s.handled, item))
  {
    hide Inv, Registering, Taken, Known, ReceivePublish, Judge, VerdictFate;
    match item
    case Publish(m) => JudgedByHistory(c, s, m); VerdictAdds(c, s, m);
    case Subscribe(id) => TakenMeans(c, s, id);
    case Unsubscribe(id) => TakenMeans(c, s, id);
    case _ =>
  }

  /** An answer takes a future to the next stage of its life. */
  lemma AnswerAdvances(fate: Fate, rs: seq<Completion>, r: Completion)
    ensures var f' := Settled(FutureOf(fate, rs), r).0;
            f' == FutureOf(fate, rs + [r]) && (f'.Controlling? <==> AsksAbout(fate, rs, r))
  {
    if rs != [] { assert (rs + [r])[0] == rs[0]; }
    if |rs| > 1 { assert (rs + [r])[1] == rs[1]; }
  }

  // ----- Runs

  ghost predicate Lives(c: Config, events: seq<Event>) {
    var s := Run(c, events);
    && |s.futures| == |Fates(c, events)|
    && (forall i :: 0 <= i < |s.futures| ==> s.futures[i] == FutureOf(Fates(c, events)[i], Answers(c, events, i)))
  }

  lemma {:induction false} NoAnswers(c: Config, events: seq<Event>, call: nat)
    requires call >= |Fates(c, events)|
    ensures Answers(c, events, call) == []
  {
    if events != [] { NoAnswers(c, events[..|events| - 1], call); }
  }

  lemma HistoryStep(c: Config, events: seq<Event>, e: Event, call: nat)
    ensures Fates(c, events + [e]) ==
            Fates(c, events) +
              if e.Arrive? then [FateOf(c, Run(c, events).futures, Run(c, events).handled, e.item)] else []
    ensures Answers(c, events + [e], call) ==
            Answers(c, events, call) + if e.Settle? && e.i == call && call < |Fates(c, events)| then [e.r] else []
  {
    hide Run, FateOf;
    assert (events + [e])[..|events + [e]| - 1] == events;
  }

  lemma ArrivalLives(c: Config, events: seq<Event>, item: Item)
    requires Lives(c, events)
    ensures Lives(c, events + [Arrive(item)])
    ensures Adds(Run(c, events), Run(c, events + [Arrive(item)]), item,
                 FateOf(c, Run(c, events).futures, Run(c, events).handled, item))
  {
    hide Inv, Receive, FateOf, FutureOf, Run, Fates, Answers;
    var s, all := Run(c, events), events + [Arrive(item)];
    RunStep(c, events, Arrive(item));
    RunKeeps(c, events);
    assert Reachable(c, s);
    InflightCounts(c, s);
    ArrivalAdds(c, s, item);
    NoAnswers(c, events, |s.futures|);
    HistoryStep(c, events, Arrive(item), 0);
    forall i | 0 <= i < |s.futures| + 1 ensures Answers(c, all, i) == Answers(c, events, i) {
      HistoryStep(c, events, Arrive(item), i);
    }
  }

  lemma RunStep(c: Config, events: seq<Event>, e: Event)
    ensures Run(c, events + [e]) == Next(c, Run(c, events), e)
  {
    assert (events + [e])[..|events + [e]| - 1] == events;
  }

  lemma AnswerLives(c: Config, events: seq<Event>, i: nat, r: Completion)
    requires Lives(c, events)
    ensures Lives(c, events + [Settle(i, r)])
    ensures var s, s' := Run(c, events), Run(c, events + [Settle(i, r)]);
            && s'.handled == s.handled && s'.duplicates == s.duplicates
            && s'.asked == s.asked + if i < |s.futures| && AsksAbout(Fates(c, events)[i], Answers(c, events, i), r)
                                     then [Ask(i, AboutFailure)] else []
  {
    hide FateOf, FutureOf, Run, Settled, AsksAbout, Fates, Answers;
    var s, all := Run(c, events), events + [Settle(i, r)];
    RunStep(c, events, Settle(i, r));
    HistoryStep(c, events, Settle(i, r), i);
    if i < |s.futures| { AnswerAdvances(Fates(c, events)[i], Answers(c, events, i), r); }
    forall j | 0 <= j < |s.futures| && j != i ensures Answers(c, all, j) == Answers(c, events, j) {
      HistoryStep(c, events, Settle(i, r), j);
    }
  }

  /**
    In every run each call is where its fate and its answers put it; and the publish service, the control
    service and the senders of duplicates have been told exactly what follows from the events, in order:
    every AUTH, PINGREQ, DISCONNECT and fault once, every SUBSCRIBE and UNSUBSCRIBE with a free identifier
    once, every refused publish once, and the first error of every call that was not one before once more.
   */
  lemma {:induction false} CallsLive(c: Config, events: seq<Event>)
    ensures Lives(c, events)
    ensures Run(c, events).asked == Asked(c, events)
    ensures Run(c, events).handled == Handled(c, events)
    ensures Run(c, events).duplicates == Duplicates(c, events)
  {
    hide Run, FateOf, FutureOf, AsksAbout;
    if events == [] {
      NoEvents(c);
    } else {
      var before, e := events[..|events| - 1], events[|events| - 1];
      assert events == before + [e];
      CallsLive(c, before);
      match e
      case Arrive(item) => ArrivalLives(c, before, item);
      case Settle(i, r) => AnswerLives(c, before, i, r);
    }
  }

  lemma NoEvents(c: Config)
    ensures Run(c, []) == Initial()
  {
  }
}
