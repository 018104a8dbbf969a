/**
  What a poll of the framed dispatcher brings about (src/io.rs:264-471): which item it hands to the
  service, that every received packet gets its turn, that a stop request is obeyed, and which
  error is reported on the way out.
 */
module IoDelivery {
  import opened Wrappers
  import opened Words
  import opened Bytes
  import opened Frames
  import opened IoDispatcher
  import Reorder
  import OrderedAnswers

  // ----- One poll

  /** The packets and the ending of the bytes that have not been dispatched. */
  ghost function Unread<P, T>(dec: BodyDecoder<P>, max: u32, s: State<P, T>): Parsed<P> {
    ParseStream(dec, max, Frames.Pending(s.machine))
  }

  /**
    `s'` has made one more call: it is answered already exactly if its future was ready at once
    and the slot was free for it, and otherwise it is one more unfinished future.
   */
  ghost predicate Called<P, T>(s: State<P, T>, s': State<P, T>, item: Item<P>, answer: Option<T>) {
    && s'.items == s.items + [item] && s'.disp.calls == s.disp.calls + 1
    && (if s.disp.slot.None? && answer.Some? then
          && s'.disp.Outstanding() == s.disp.Outstanding()
          && s'.disp.results == s.disp.results[s.disp.calls := answer.value]
        else
          && s'.disp.Outstanding() == s.disp.Outstanding() + {s.disp.calls}
          && s'.disp.results == s.disp.results)
  }

  ghost predicate NothingCalled<P, T>(s: State<P, T>, s': State<P, T>) {
    s'.items == s.items && s'.disp == s.disp
  }

  /** What the service is told when the dispatcher leaves because it was told to stop. */
  ghost predicate Reported<P, T>(s: State<P, T>, s': State<P, T>, error: Option<IoError>, answer: Option<T>) {
    if error == Some(KeepAlive) then Called(s, s', KeepAliveTimeout, answer)
    else if error == Some(Encoder) then Called(s, s', EncoderFailed, answer)
    else if s.ioError then Called(s, s', IoFailed, answer)
    else NothingCalled(s, s')
  }

  /** A call made from `s1`, which has the calls of `s`, is one more call than `s` has; nothing else is touched. */
  lemma CallMade<P, T>(s: State<P, T>, s1: State<P, T>, item: Item<P>, answer: Option<T>, fault: Option<IoError>)
    requires NothingCalled(s, s1) && |s.disp.buf.queue| + 1 < USIZE
    ensures var s' := Call(s1, item, answer, fault);
            && Called(s, s', item, answer)
            && s' == s1.(items := s'.items, disp := s'.disp, error := s'.error)
            && (fault.None? ==> s'.error == s1.error)
  {
  }

  /** The next packet of the stream is dispatched, and what is unread loses just that packet. */
  ghost predicate Advanced<P, T>(dec: BodyDecoder<P>, max: u32, s: State<P, T>, s': State<P, T>, answer: Option<T>) {
    var q := Unread(dec, max, s);
    && q.packets != [] && Called(s, s', Data(q.packets[0]), answer)
    && s'.phase == Processing && Unread(dec, max, s') == Parsed(q.packets[1..], q.ending)
  }

  lemma DataAdvances<P, T>(dec: BodyDecoder<P>, max: u32, s: State<P, T>, answer: Option<T>, fault: Option<IoError>)
    requires Coherent(max, s.machine) && s.phase == Processing && |s.disp.buf.queue| + 1 < USIZE
    requires Decode(dec, max, s.machine).1.Packet?
    ensures var (m, r) := Decode(dec, max, s.machine);
            Advanced(dec, max, s, Call(s.(machine := m), Data(r.packet), answer, fault), answer)
  {
    hide Frames.Decode, Call, Called, ParseStream;
    DecodeRefines(dec, max, s.machine);
    var (m, r) := Decode(dec, max, s.machine);
    CallMade(s, s.(machine := m), Data(r.packet), answer, fault);
    FirstOf(r.packet, ParseStream(dec, max, Frames.Pending(m)));
  }

  lemma FirstOf<P>(p: P, q: Parsed<P>)
    ensures var r := Prepend([p], q);
            r.packets != [] && r.packets[0] == p && Parsed(r.packets[1..], r.ending) == q
  {
  }

  /** What a call of the codec tells of the bytes that are unread. */
  lemma DecodeTells<P>(dec: BodyDecoder<P>, max: u32, m: Machine)
    requires Coherent(max, m)
    ensures var q := ParseStream(dec, max, Frames.Pending(m));
            var (m', r) := Decode(dec, max, m);
            && (r.Packet? <==> q.packets != [])
            && (r.Failed? ==> q.ending == Fault(r.error))
            && (r.Starved? ==> q.ending.Residue? && Frames.Pending(m') == Frames.Pending(m))
  {
    hide Frames.Decode, ParseStream, Coherent;
    DecodeRefines(dec, max, m);
  }

  lemma PumpOutcome<P, T>(dec: BodyDecoder<P>, max: u32, s: State<P, T>, readable: bool, answer: Option<T>,
                          fault: Option<IoError>)
    requires Coherent(max, s.machine) && s.phase == Processing && |s.disp.buf.queue| + 1 < USIZE
    ensures var q, s' := Unread(dec, max, s), Pump(dec, max, s, readable, answer, fault);
            if !readable then s' == s
            else if q.packets != [] then Advanced(dec, max, s, s', answer)
            else if q.ending.Fault? then Called(s, s', DecoderFailed(q.ending.error), answer) && s'.phase == Stop
            else NothingCalled(s, s') && s'.phase == Processing && Unread(dec, max, s') == q
  {
    hide Frames.Decode, Call, Called, ParseStream, Advanced, Coherent, Frames.Pending;
    DecodeTells(dec, max, s.machine);
    var (m, r) := Decode(dec, max, s.machine);
    if r.Packet? {
      DataAdvances(dec, max, s, answer, fault);
    } else if r.Failed? {
      CallMade(s, s.(machine := m, phase := Stop, leaving := Some(DecodeFailure(s.received, r.error))),
               DecoderFailed(r.error), answer, fault);
    }
  }

  /** The way out of a dispatcher that was told to stop and has nothing left to read. */
  lemma LeaveReports<P, T>(s: State<P, T>, m: Machine, answer: Option<T>, fault: Option<IoError>)
    requires |s.disp.buf.queue| + 1 < USIZE
    ensures var (item, error, ioError) := TakeError<P>(s.error, s.ioError);
            var s1 := s.(machine := m, phase := Stop, leaving := Some(ToldToStop(s.received)),
                         error := error, ioError := ioError);
            var s' := if item.Some? then Call(s1, item.value, answer, fault) else s1;
            s'.phase == Stop && Reported(s, s', s.error, answer)
  {
    hide Call, Called;
    var (item, error, ioError) := TakeError<P>(s.error, s.ioError);
    if item.Some? {
      CallMade(s, s.(machine := m, phase := Stop, leaving := Some(ToldToStop(s.received)), error := error,
                     ioError := ioError), item.value, answer, fault);
    }
  }

  lemma WindOutcome<P, T>(dec: BodyDecoder<P>, max: u32, s: State<P, T>, answer: Option<T>, fault: Option<IoError>)
    requires Coherent(max, s.machine) && s.phase == Processing && |s.disp.buf.queue| + 1 < USIZE
    ensures var q, s' := Unread(dec, max, s), Wind(dec, max, s, answer, fault);
            if q.packets != [] then Advanced(dec, max, s, s', answer)
            else s'.phase == Stop && Reported(s, s', s.error, answer)
  {
    hide Frames.Decode, Call, ParseStream, Advanced, Coherent, TakeError, Reported;
    DecodeTells(dec, max, s.machine);
    var (m, r) := Decode(dec, max, s.machine);
    if r.Packet? {
      DataAdvances(dec, max, s, answer, fault);
    } else {
      LeaveReports(s, m, answer, fault);
    }
  }

  /** What one iteration of the Processing loop does with the unread bytes. */
  ghost predicate Polled<P, T>(dec: BodyDecoder<P>, max: u32, s: State<P, T>, s': State<P, T>, e: Event<T>)
    requires e.PollProcessing?
  {
    var q, told := Unread(dec, max, s), s.stopped || e.keepAlive;
    match e.ready
    case IsPending => s' == s
    case IsError => s'.phase == Stop && NothingCalled(s, s') && s'.error == Some(Service)
    case IsReady =>
      if !told && !e.readable then s' == s
      else if q.packets != [] then Advanced(dec, max, s, s', e.answer)
      else if told then
        && s'.phase == Stop
        && Reported(s, s', if e.keepAlive && s.error.None? then Some(KeepAlive) else s.error, e.answer)
      else if q.ending.Fault? then Called(s, s', DecoderFailed(q.ending.error), e.answer) && s'.phase == Stop
      else NothingCalled(s, s') && s'.phase == Processing && Unread(dec, max, s') == q
  }

  lemma PollEffect<P, T>(dec: BodyDecoder<P>, max: u32, s: State<P, T>, e: Event<T>)
    requires Inv(dec, max, s) && Enabled(s, e) && e.PollProcessing?
    ensures Polled(dec, max, s, Next(dec, max, s, e), e)
  {
    hide Pump, Wind, ParseStream, Reorder.Inv, Left;
    if e.ready == IsReady {
      var s1 := if e.keepAlive
                then s.(error := if s.error.None? then Some(KeepAlive) else s.error, stopped := true)
                else s;
      WindOutcome(dec, max, s1, e.answer, e.fault);
      PumpOutcome(dec, max, s1, e.readable, e.answer, e.fault);
    }
  }

  /**
    One iteration of the Processing loop. While the service is not ready nothing happens; when its
    readiness fails the dispatcher leaves without a call. A ready service gets the next packet of the
    stream, whatever the state of the response slot; without one, a decoding error is reported and
    ends the phase, and a dispatcher told to stop, or whose keep-alive timer expired, leaves with the
    report of the error that was recorded.
   */
  lemma PollOutcome<P(!new), T(!new)>(dec: BodyDecoder<P>, max: u32, s: State<P, T>, e: Event<T>)
    requires Reachable(dec, max, s) && Enabled(s, e) && e.PollProcessing?
    ensures Polled(dec, max, s, Next(dec, max, s, e), e)
  {
    hide Inv, Enabled, Polled;
    ReachableInv(dec, max, s);
    PollEffect(dec, max, s, e);
  }

  /** A poll in the Stop phase shuts down exactly if nothing is unfinished, and otherwise registers the waker. */
  lemma StopPolled<P(!new), T(!new)>(dec: BodyDecoder<P>, max: u32, s: State<P, T>)
    requires Reachable(dec, max, s) && s.phase == Stop
    ensures var s' := Next(dec, max, s, PollStop);
            && (s'.ioClosed <==> s.disp.Outstanding() == {})
            && (s'.parked <==> s.disp.Outstanding() != {})
            && NothingCalled(s, s')
  {
    ReachableInv(dec, max, s);
    Reorder.NoneOutstanding(s.disp);
  }

  /**
    A finished future is finished for good: its call leaves the unfinished ones with its answer, nothing else is
    answered, and the writer has been given the answers of the longest answered prefix of the calls.
   */
  lemma AnswerOutcome<P(!new), T(!new)>(dec: BodyDecoder<P>, max: u32, s: State<P, T>, e: Event<T>)
    requires Reachable(dec, max, s) && Enabled(s, e) && (e.PollSlot? || e.SpawnDone?)
    ensures var s', k := Next(dec, max, s, e), if e.PollSlot? then s.disp.slot.value else e.call;
            && k in s.disp.Outstanding() && s'.disp.Outstanding() == s.disp.Outstanding() - {k}
            && s'.disp.results == s.disp.results[k := e.res]
            && s'.items == s.items && s'.phase == s.phase && s'.disp.calls == s.disp.calls
            && s'.disp.written == Reorder.AnsweredPrefix(s'.disp.results, 0, s'.disp.calls)
  {
    hide ParseStream, PacketsOf, Coherent, Left, Reorder.AnsweredPrefix;
    ReachableInv(dec, max, s);
    var d := if e.PollSlot? then Reorder.CompleteSlot(e.res) else Reorder.CompleteSpawned(e.call, e.res);
    OrderedAnswers.NextMeans(s.disp, d) by { OrderedAnswers.EnabledMeans(s.disp, d); }
    Reorder.NextKeeps(s.disp, d);
    OrderedAnswers.WrittenMeans(Reorder.Next(s.disp, d));
  }

  // ----- Whole runs

  lemma {:induction false} RunPrefix<P, T>(dec: BodyDecoder<P>, max: u32, es: seq<Event<T>>, more: seq<Event<T>>)
    requires Run<P, T>(dec, max, es + more).Some?
    ensures Run<P, T>(dec, max, es).Some?
    ensures more != [] ==>
              var rest, e := more[..|more| - 1], more[|more| - 1];
              && Run<P, T>(dec, max, es + rest).Some? && Enabled(Run<P, T>(dec, max, es + rest).value, e)
              && Run<P, T>(dec, max, es + more).value == Next(dec, max, Run<P, T>(dec, max, es + rest).value, e)
  {
    hide Next, Enabled;
    if more == [] {
      assert es + more == es;
    } else {
      assert (es + more)[..|es + more| - 1] == es + more[..|more| - 1];
      RunPrefix<P, T>(dec, max, es, more[..|more| - 1]);
    }
  }

  /** A poll that finds the service ready and bytes to read. */
  predicate Reads<T>(e: Event<T>) {
    e.PollProcessing? && e.ready == IsReady && !e.keepAlive && e.readable
  }

  /** An event that neither brings bytes nor a reason to stop. */
  predicate Calm<T>(e: Event<T>) {
    match e
    case Arrive(_) => false
    case TellToStop(_) => false
    case PollProcessing(ready, keepAlive, _, _, _) => ready != IsError && !keepAlive
    case _ => true
  }

  /** How many of the events satisfy a predicate. */
  function Count<T>(es: seq<Event<T>>, f: Event<T> -> bool): nat {
    if es == [] then 0 else Count(es[..|es| - 1], f) + if f(es[|es| - 1]) then 1 else 0
  }

  /** All packets of the bytes received. */
  ghost function All<P, T>(dec: BodyDecoder<P>, max: u32, s: State<P, T>): seq<P> {
    ParseStream(dec, max, s.received).packets
  }

  /** Out of the Processing phase, every packet received has been dispatched. */
  ghost predicate NoneMissed<P, T>(dec: BodyDecoder<P>, max: u32, s: State<P, T>) {
    s.phase != Processing ==> PacketsOf(s.items) == All(dec, max, s)
  }

  /** What a call leaves alone. */
  ghost predicate Frame<P, T>(s: State<P, T>, s': State<P, T>) {
    && s'.received == s.received && s'.stopped == s.stopped && s'.phase != Shutdown
    && (s'.phase == Processing ==> s'.leaving == s.leaving && s'.ioError == s.ioError)
  }

  lemma CallFrame<P, T>(s: State<P, T>, item: Item<P>, answer: Option<T>, fault: Option<IoError>)
    requires |s.disp.buf.queue| + 1 < USIZE
    ensures var s' := Call(s, item, answer, fault);
            && s'.received == s.received && s'.stopped == s.stopped && s'.phase == s.phase
            && s'.leaving == s.leaving && s'.ioError == s.ioError && s'.error == Record(s.error, fault)
            && s'.items == s.items + [item]
  {
  }

  lemma PumpFrame<P, T>(dec: BodyDecoder<P>, max: u32, s: State<P, T>, readable: bool, answer: Option<T>,
                        fault: Option<IoError>)
    requires |s.disp.buf.queue| + 1 < USIZE && s.phase == Processing
    ensures var s' := Pump(dec, max, s, readable, answer, fault);
            && Frame(s, s') && (fault.None? ==> s'.error == s.error)
            && (s'.phase == Stop ==> s'.leaving.Some? && s'.leaving.value.DecodeFailure?)
  {
    hide Frames.Decode, Call;
    var (m, r) := Decode(dec, max, s.machine);
    if r.Packet? {
      CallFrame(s.(machine := m), Data(r.packet), answer, fault);
    } else if r.Failed? {
      CallFrame(s.(machine := m, phase := Stop, leaving := Some(DecodeFailure(s.received, r.error))),
                DecoderFailed(r.error), answer, fault);
    }
  }

  lemma ServiceErrorStays<P>(ioError: bool)
    ensures TakeError<P>(Some(Service), ioError).1 == Some(Service)
  {
  }

  lemma WindFrame<P, T>(dec: BodyDecoder<P>, max: u32, s: State<P, T>, answer: Option<T>, fault: Option<IoError>)
    requires |s.disp.buf.queue| + 1 < USIZE && s.phase == Processing
    ensures var s' := Wind(dec, max, s, answer, fault);
            && Frame(s, s')
            && (fault.None? && (s'.phase == Processing || s.error == Some(Service)) ==> s'.error == s.error)
            && (s'.phase == Stop ==> s'.leaving == Some(ToldToStop(s.received)))
  {
    hide Frames.Decode, Call, TakeError;
    ServiceErrorStays<P>(s.ioError);
    var (m, r) := Decode(dec, max, s.machine);
    if r.Packet? {
      CallFrame(s.(machine := m), Data(r.packet), answer, fault);
    } else {
      var (item, error, ioError) := TakeError<P>(s.error, s.ioError);
      if item.Some? {
        CallFrame(s.(machine := m, phase := Stop, leaving := Some(ToldToStop(s.received)), error := error,
                     ioError := ioError), item.value, answer, fault);
      }
    }
  }

  /** What a poll leaves alone. */
  lemma PollFrame<P, T>(dec: BodyDecoder<P>, max: u32, s: State<P, T>, e: Event<T>)
    requires Enabled(s, e) && e.PollProcessing?
    ensures var s' := Next(dec, max, s, e);
            && s'.received == s.received && s'.phase != Shutdown
            && (s'.stopped <==> s.stopped || e.ready == IsError || (e.ready == IsReady && e.keepAlive))
            && (s'.phase == Processing ==> s'.leaving == s.leaving && s'.ioError == s.ioError)
            && (s'.phase == Stop && e.ready == IsReady ==>
                  if s'.stopped then s'.leaving == Some(ToldToStop(s.received))
                  else s'.leaving.Some? && s'.leaving.value.DecodeFailure?)
            && (s'.phase == Processing && e.fault.None? && !e.keepAlive ==> s'.error == s.error)
  {
    hide Pump, Wind;
    if e.ready == IsReady {
      var s1 := if e.keepAlive
                then s.(error := if s.error.None? then Some(KeepAlive) else s.error, stopped := true)
                else s;
      WindFrame(dec, max, s1, e.answer, e.fault);
      PumpFrame(dec, max, s1, e.readable, e.answer, e.fault);
    }
  }

  lemma PacketsAppend<P>(items: seq<Item<P>>, item: Item<P>)
    ensures PacketsOf(items + [item]) == PacketsOf(items) + if item.Data? then [item.packet] else []
  {
  }

  /** One calm event: a reading poll dispatches one more packet if there is one. */
  lemma CalmStep<P, T>(dec: BodyDecoder<P>, max: u32, s: State<P, T>, e: Event<T>)
    requires Inv(dec, max, s) && Enabled(s, e) && Calm(e) && !s.stopped && NoneMissed(dec, max, s)
    ensures var s' := Next(dec, max, s, e);
            var n, n' := |PacketsOf(s.items)|, |PacketsOf(s'.items)|;
            && s'.received == s.received && !s'.stopped && NoneMissed(dec, max, s')
            && n' == if Reads(e) && n < |All(dec, max, s)| then n + 1 else n
  {
    hide Reorder.Inv, ParseStream, Left, Coherent, Pump, Wind, PacketsOf, Reorder.Next, Reorder.Enabled;
    var s' := Next(dec, max, s, e);
    if e.PollProcessing? {
      PollFrame(dec, max, s, e);
      PollEffect(dec, max, s, e);
      var q := Unread(dec, max, s);
      assert PacketsOf(s.items) + q.packets == All(dec, max, s);
      if Reads(e) && q.packets != [] {
        PacketsAppend(s.items, Data(q.packets[0]));
      } else if Reads(e) && q.ending.Fault? {
        PacketsAppend(s.items, DecoderFailed(q.ending.error));
      }
    }
  }

  lemma {:induction false} CalmRun<P, T>(dec: BodyDecoder<P>, max: u32, es: seq<Event<T>>, more: seq<Event<T>>)
    requires Run<P, T>(dec, max, es).Some? && Run<P, T>(dec, max, es + more).Some?
    requires Run<P, T>(dec, max, es).value.phase == Processing && !Run<P, T>(dec, max, es).value.stopped
    requires forall i :: 0 <= i < |more| ==> Calm(more[i])
    ensures var s, s' := Run<P, T>(dec, max, es).value, Run<P, T>(dec, max, es + more).value;
            var n := |PacketsOf(s.items)| + Count(more, Reads);
            && s'.received == s.received && !s'.stopped && NoneMissed(dec, max, s')
            && |PacketsOf(s'.items)| == if n < |All(dec, max, s)| then n else |All(dec, max, s)|
  {
    hide Inv, Next, Enabled, ParseStream, PacketsOf, Reads, Calm;
    RunPrefix<P, T>(dec, max, es, more);
    if more == [] {
      assert es + more == es;
      RunKeeps<P, T>(dec, max, es);
      DispatchedWithin(dec, max, Run<P, T>(dec, max, es).value);
    } else {
      var rest := more[..|more| - 1];
      CalmRun<P, T>(dec, max, es, rest);
      RunKeeps<P, T>(dec, max, es + rest);
      CalmStep(dec, max, Run<P, T>(dec, max, es + rest).value, more[|more| - 1]);
    }
  }

  lemma DispatchedWithin<P, T>(dec: BodyDecoder<P>, max: u32, s: State<P, T>)
    requires Inv(dec, max, s) && s.phase == Processing
    ensures |PacketsOf(s.items)| <= |All(dec, max, s)|
  {
  }

  /**
    Every received packet gets its turn: as long as nothing stops the dispatcher, each poll that finds the
    service ready and bytes to read dispatches one more packet, however polls and completions are
    interleaved, until the service has seen all packets of all bytes received.
   */
  lemma EveryPacketDispatched<P(!new), T(!new)>(dec: BodyDecoder<P>, max: u32, es: seq<Event<T>>, more: seq<Event<T>>)
    requires Run<P, T>(dec, max, es + more).Some? && Run<P, T>(dec, max, es).Some?
    requires Run<P, T>(dec, max, es).value.phase == Processing && !Run<P, T>(dec, max, es).value.stopped
    requires forall i :: 0 <= i < |more| ==> Calm(more[i])
    ensures var s, s' := Run<P, T>(dec, max, es).value, Run<P, T>(dec, max, es + more).value;
            var missing := |All(dec, max, s)| - |PacketsOf(s.items)|;
            && PacketsOf(s'.items) <= All(dec, max, s)
            && (Count(more, Reads) < missing ==>
                  |PacketsOf(s'.items)| == |PacketsOf(s.items)| + Count(more, Reads) && s'.phase == Processing)
            && (Count(more, Reads) >= missing ==> PacketsOf(s'.items) == All(dec, max, s))
  {
    hide Next, Enabled, ParseStream, PacketsOf, Reads, Calm;
    CalmRun<P, T>(dec, max, es, more);
    var s' := Run<P, T>(dec, max, es + more).value;
    assert Reachable(dec, max, s');
    StreamDispatched(dec, max, s');
  }

  // ----- Stop requests

  predicate PollsReady<T>(e: Event<T>) {
    e.PollProcessing? && e.ready == IsReady
  }

  /** An event that brings no bytes and after which the service can still be called. */
  predicate Closing<T>(e: Event<T>) {
    !e.Arrive? && !(e.PollProcessing? && e.ready == IsError)
  }

  lemma {:induction false} ToldStays<P, T>(dec: BodyDecoder<P>, max: u32, es: seq<Event<T>>, k: nat)
    requires Run<P, T>(dec, max, es).Some? && k < |es| && es[k].TellToStop?
    ensures Run<P, T>(dec, max, es).value.stopped
  {
    hide Pump, Wind, Reorder.Next;
    var rest, e := es[..|es| - 1], es[|es| - 1];
    if k < |rest| {
      ToldStays<P, T>(dec, max, rest, k);
      if e.PollProcessing? { PollFrame(dec, max, Run<P, T>(dec, max, rest).value, e); }
    }
  }

  /** A dispatcher that was told to stop has left exactly if it was polled once more than packets were missing. */
  ghost predicate LeftAfter<P, T>(dec: BodyDecoder<P>, max: u32, s: State<P, T>, n: int) {
    && s.stopped
    && if s.phase == Processing then |PacketsOf(s.items)| == n <= |All(dec, max, s)|
       else n == |All(dec, max, s)| + 1 && s.leaving == Some(ToldToStop(s.received))
  }

  lemma ClosingStep<P, T>(dec: BodyDecoder<P>, max: u32, s: State<P, T>, e: Event<T>, n: int)
    requires Inv(dec, max, s) && Enabled(s, e) && Closing(e) && LeftAfter(dec, max, s, n)
    ensures var s' := Next(dec, max, s, e);
            s'.received == s.received && LeftAfter(dec, max, s', if PollsReady(e) then n + 1 else n)
  {
    hide Reorder.Inv, ParseStream, Left, Coherent, Pump, Wind, PacketsOf, Reorder.Next, Reorder.Enabled;
    if e.PollProcessing? {
      PollFrame(dec, max, s, e);
      PollEffect(dec, max, s, e);
      var q := Unread(dec, max, s);
      assert PacketsOf(s.items) + q.packets == All(dec, max, s);
      if e.ready == IsReady && q.packets != [] {
        PacketsAppend(s.items, Data(q.packets[0]));
      }
    }
  }

  lemma {:induction false} ClosingRun<P, T>(dec: BodyDecoder<P>, max: u32, es: seq<Event<T>>, more: seq<Event<T>>)
    requires Run<P, T>(dec, max, es).Some? && Run<P, T>(dec, max, es + more).Some?
    requires Run<P, T>(dec, max, es).value.phase == Processing && Run<P, T>(dec, max, es).value.stopped
    requires forall i :: 0 <= i < |more| ==> Closing(more[i])
    ensures var s, s' := Run<P, T>(dec, max, es).value, Run<P, T>(dec, max, es + more).value;
            && s'.received == s.received
            && LeftAfter(dec, max, s', |PacketsOf(s.items)| + Count(more, PollsReady))
  {
    hide Inv, Next, Enabled, ParseStream, PacketsOf, PollsReady, Closing;
    RunPrefix<P, T>(dec, max, es, more);
    if more == [] {
      assert es + more == es;
      RunKeeps<P, T>(dec, max, es);
      DispatchedWithin(dec, max, Run<P, T>(dec, max, es).value);
    } else {
      var rest := more[..|more| - 1];
      ClosingRun<P, T>(dec, max, es, rest);
      RunKeeps<P, T>(dec, max, es + rest);
      ClosingStep(dec, max, Run<P, T>(dec, max, es + rest).value, more[|more| - 1],
                  |PacketsOf(Run<P, T>(dec, max, es).value.items)| + Count(rest, PollsReady));
    }
  }

  /**
    A stop request is obeyed, but not before the data is handled: the dispatcher leaves the Processing phase
    with exactly the ready poll that follows those that dispatched the missing packets.
   */
  lemma StopObeyed<P(!new), T(!new)>(dec: BodyDecoder<P>, max: u32, es: seq<Event<T>>, k: nat, more: seq<Event<T>>)
    requires Run<P, T>(dec, max, es).Some? && Run<P, T>(dec, max, es + more).Some?
    requires k < |es| && es[k].TellToStop? && Run<P, T>(dec, max, es).value.phase == Processing
    requires forall i :: 0 <= i < |more| ==> Closing(more[i])
    ensures var s, s' := Run<P, T>(dec, max, es).value, Run<P, T>(dec, max, es + more).value;
            var missing := |All(dec, max, s)| - |PacketsOf(s.items)|;
            && (s'.phase != Processing <==> Count(more, PollsReady) > missing)
            && (s'.phase != Processing ==> PacketsOf(s'.items) == All(dec, max, s))
  {
    hide Next, Enabled, ParseStream, PacketsOf, PollsReady, Closing;
    ToldStays<P, T>(dec, max, es, k);
    ClosingRun<P, T>(dec, max, es, more);
    var s' := Run<P, T>(dec, max, es + more).value;
    assert Reachable(dec, max, s');
    StreamDispatched(dec, max, s');
  }

  // ----- Errors

  /** The report that is due once the dispatcher is told to stop. */
  predicate Owes<P, T>(s: State<P, T>, item: Item<P>) {
    match item
    case KeepAliveTimeout => s.error == Some(KeepAlive)
    case EncoderFailed => s.error == Some(Encoder)
    case IoFailed => s.ioError && s.error != Some(KeepAlive) && s.error != Some(Encoder)
    case _ => false
  }

  /** An event that records no error. */
  predicate Faultless<T>(e: Event<T>) {
    match e
    case PollSlot(_, fault) => fault.None?
    case SpawnDone(_, _, fault) => fault.None?
    case PollProcessing(ready, keepAlive, _, _, fault) => ready != IsError && !keepAlive && fault.None?
    case _ => true
  }

  /** Where the reports come from: an answer that could not be written, an IO error, an expired timer. */
  lemma ErrorsOwed<P, T>(dec: BodyDecoder<P>, max: u32, s: State<P, T>, e: Event<T>)
    requires Enabled(s, e) && s.phase == Processing
    ensures var s' := Next(dec, max, s, e);
            && ((e.PollSlot? || e.SpawnDone?) && e.fault == Some(Encoder) ==> Owes(s', EncoderFailed))
            && (e == TellToStop(true) && s.error.None? ==> Owes(s', IoFailed))
            && (PollsReady(e) && e.keepAlive && e.fault.None? && s.error.None? && s'.phase == Processing ==>
                  Owes(s', KeepAliveTimeout))
  {
    hide Pump, Wind, Reorder.Next;
    if e.PollProcessing? && e.ready == IsReady && e.keepAlive {
      WindFrame(dec, max, s.(error := if s.error.None? then Some(KeepAlive) else s.error, stopped := true), e.answer,
                e.fault);
    }
  }

  /** The report that was due is the last item of a dispatcher that was told to stop. */
  ghost predicate Pays<P, T>(s: State<P, T>, item: Item<P>) {
    if s.phase == Processing then Owes(s, item)
    else s.leaving.Some? && (s.leaving.value.ToldToStop? ==> s.items != [] && s.items[|s.items| - 1] == item)
  }

  lemma FaultlessStep<P, T>(dec: BodyDecoder<P>, max: u32, s: State<P, T>, e: Event<T>, item: Item<P>)
    requires Inv(dec, max, s) && Enabled(s, e) && Faultless(e) && Pays(s, item)
    ensures Pays(Next(dec, max, s, e), item)
  {
    hide Reorder.Inv, ParseStream, Left, Coherent, Pump, Wind, PacketsOf, Reorder.Next, Reorder.Enabled;
    if s.phase != Processing {
      PhasesAdvance(dec, max, s, e);
    } else if e.PollProcessing? {
      PollFrame(dec, max, s, e);
      PollEffect(dec, max, s, e);
    }
  }

  /**
    No error is swallowed: whatever happens after an error was recorded, if nothing replaces it, a dispatcher
    that was told to stop ends its calls with the report of that error.
   */
  lemma {:induction false} ErrorsReported<P, T>(dec: BodyDecoder<P>, max: u32, es: seq<Event<T>>, more: seq<Event<T>>,
                                                item: Item<P>)
    requires Run<P, T>(dec, max, es).Some? && Run<P, T>(dec, max, es + more).Some?
    requires Run<P, T>(dec, max, es).value.phase == Processing && Owes(Run<P, T>(dec, max, es).value, item)
    requires forall i :: 0 <= i < |more| ==> Faultless(more[i])
    ensures Pays(Run<P, T>(dec, max, es + more).value, item)
  {
    hide Inv, Next, Enabled, Owes, Faultless;
    RunPrefix<P, T>(dec, max, es, more);
    if more == [] {
      assert es + more == es;
    } else {
      var rest := more[..|more| - 1];
      ErrorsReported<P, T>(dec, max, es, rest, item);
      RunKeeps<P, T>(dec, max, es + rest);
      FaultlessStep(dec, max, Run<P, T>(dec, max, es + rest).value, more[|more| - 1], item);
    }
  }

  /** The dispatcher's future resolves to an error of the service exactly if this is what was recorded last. */
  predicate ServiceFailed<P, T>(s: State<P, T>) {
    s.error == Some(Service)
  }

  /** An event that records no other error. */
  predicate KeepsFailure<T>(e: Event<T>) {
    match e
    case PollSlot(_, fault) => fault.None?
    case SpawnDone(_, _, fault) => fault.None?
    case PollProcessing(_, _, _, _, fault) => fault.None?
    case _ => true
  }

  /** Neither reports to the service nor an expired timer replace an error of the service. */
  lemma FailureStep<P, T>(dec: BodyDecoder<P>, max: u32, s: State<P, T>, e: Event<T>)
    requires Enabled(s, e) && KeepsFailure(e) && ServiceFailed(s)
    ensures ServiceFailed(Next(dec, max, s, e))
  {
    hide Pump, Wind, Reorder.Next;
    if e.PollProcessing? && e.ready == IsReady {
      var s1 := if e.keepAlive then s.(stopped := true) else s;
      WindFrame(dec, max, s1, e.answer, e.fault);
      PumpFrame(dec, max, s1, e.readable, e.answer, e.fault);
    }
  }

  /** An error of the service, once recorded, is what the dispatcher ends with unless a later answer brings another. */
  lemma {:induction false} FailureReturned<P, T>(dec: BodyDecoder<P>, max: u32, es: seq<Event<T>>, more: seq<Event<T>>)
    requires Run<P, T>(dec, max, es).Some? && Run<P, T>(dec, max, es + more).Some?
    requires ServiceFailed(Run<P, T>(dec, max, es).value) && forall i :: 0 <= i < |more| ==> KeepsFailure(more[i])
    ensures ServiceFailed(Run<P, T>(dec, max, es + more).value)
  {
    hide Next, Enabled, KeepsFailure, ServiceFailed;
    RunPrefix<P, T>(dec, max, es, more);
    if more == [] {
      assert es + more == es;
    } else {
      FailureReturned<P, T>(dec, max, es, more[..|more| - 1]);
      FailureStep(dec, max, Run<P, T>(dec, max, es + more[..|more| - 1]).value, more[|more| - 1]);
    }
  }
}
