/**
  The framed dispatcher's poll machine (src/io.rs:238-493): it decodes the receive buffer,
  calls the service, and on the way out drains every answer before it shuts the connection
  down. Service, timers and the IO tasks are inputs of the events.
 */
module IoDispatcher {
  import opened Wrappers
  import opened Words
  import opened Bytes
  import opened Frames
  import Reorder

  datatype Phase = Processing | Stop | Shutdown

  /** The content of the dispatcher's error cell; a taken error leaves Taken behind. */
  datatype IoError = Taken | KeepAlive | Encoder | Service

  datatype Item<P> =
    | Data(packet: P)
    | DecoderFailed(error: DecodeError)
    | EncoderFailed
    | KeepAliveTimeout
    | IoFailed

  /** Why and after which received bytes the dispatcher left the Processing phase. */
  datatype Leaving =
    | ToldToStop(received: seq<byte>)
    | DecodeFailure(received: seq<byte>, cause: DecodeError)
    | NotReady(received: seq<byte>)

  datatype State<!P, T> = State(
    phase: Phase,
    disp: Reorder.Dispatch<T>,
    machine: Machine,
    stopped: bool,                 // the connection's "dispatcher stopped" flag
    error: Option<IoError>,
    ioError: bool,                 // an IO error waits to be reported
    ioClosed: bool,                // the IO tasks were told to shut down
    parked: bool,                  // the task sleeps in the Stop phase
    woken: bool,
    received: seq<byte>,           // history: all bytes put into the receive buffer
    items: seq<Item<P>>,           // history: what the service was called with
    leaving: Option<Leaving>)      // history

  function Init<P, T>(): State<P, T> {
    State(Processing, Reorder.Init(), Machine(FrameHeader, [], []), false, None, false, false, false, false, [], [],
          None)
  }

  datatype Readiness = IsReady | IsPending | IsError

  datatype Event<T> =
    | Arrive(bytes: seq<byte>)
    | TellToStop(io: bool)                          // a close, or an IO error
    | PollSlot(res: T, fault: Option<IoError>)      // the slot's future is ready
    | PollProcessing(ready: Readiness, keepAlive: bool, readable: bool, answer: Option<T>, fault: Option<IoError>)
    | PollStop
    | SpawnDone(call: nat, res: T, fault: Option<IoError>)

  predicate Enabled<P, T>(s: State<P, T>, e: Event<T>) {
    match e
    case Arrive(_) => true
    case TellToStop(_) => true
    case PollSlot(res, _) => Reorder.Enabled(s.disp, Reorder.CompleteSlot(res))
    case PollProcessing(_, _, _, _, _) => s.phase == Processing && |s.disp.buf.queue| + 1 < USIZE
    case PollStop => s.phase == Stop
    case SpawnDone(k, res, _) => Reorder.Enabled(s.disp, Reorder.CompleteSpawned(k, res))
  }

  /** The error cell after the writer may have reported a fault. */
  function Record(error: Option<IoError>, fault: Option<IoError>): Option<IoError> {
    if fault.Some? then fault else error
  }

  /** Takes an error that is reported to the service, and what is left in the cells. */
  function TakeError<P>(error: Option<IoError>, ioError: bool): (r: (Option<Item<P>>, Option<IoError>, bool))
    ensures r.0.Some? ==> !r.0.value.Data? && !r.0.value.DecoderFailed?
  {
    match error
    case Some(KeepAlive) => (Some(KeepAliveTimeout), Some(Taken), ioError)
    case Some(Encoder) => (Some(EncoderFailed), Some(Taken), ioError)
    case _ => if ioError then (Some(IoFailed), error, false) else (None, error, false)
  }

  /** The reorder event of a call: the slot answers at once only if it was free. */
  function CallEvent<T>(d: Reorder.Dispatch<T>, answer: Option<T>): Reorder.Event<T> {
    if d.slot.None? && answer.Some? then Reorder.CallInline(answer.value) else Reorder.CallPending
  }

  function Call<P, T>(s: State<P, T>, item: Item<P>, answer: Option<T>, fault: Option<IoError>): State<P, T>
    requires |s.disp.buf.queue| + 1 < USIZE
  {
    s.(disp := Reorder.Next(s.disp, CallEvent(s.disp, answer)),
       items := s.items + [item],
       error := Record(s.error, fault))
  }

  /** The part of an iteration that runs once the connection was told to stop. */
  function Wind<P, T>(dec: BodyDecoder<P>, max: u32, s: State<P, T>, answer: Option<T>,
                      fault: Option<IoError>): State<P, T>
    requires |s.disp.buf.queue| + 1 < USIZE
  {
    var (m, r) := Decode(dec, max, s.machine);
    if r.Packet? then
      Call(s.(machine := m), Data(r.packet), answer, fault)
    else
      var (item, error, ioError) := TakeError<P>(s.error, s.ioError);
      var s1 := s.(machine := m, phase := Stop, leaving := Some(ToldToStop(s.received)),
                   error := error, ioError := ioError);
      if item.Some? then Call(s1, item.value, answer, fault) else s1
  }

  /** The part of an iteration that reads the stream while the connection is up. */
  function Pump<P, T>(dec: BodyDecoder<P>, max: u32, s: State<P, T>, readable: bool, answer: Option<T>,
                      fault: Option<IoError>): State<P, T>
    requires |s.disp.buf.queue| + 1 < USIZE
  {
    if !readable then s
    else
      var (m, r) := Decode(dec, max, s.machine);
      match r
      case Packet(p) => Call(s.(machine := m), Data(p), answer, fault)
      case Starved => s.(machine := m)
      case Failed(e) =>
        Call(s.(machine := m, phase := Stop, leaving := Some(DecodeFailure(s.received, e))),
             DecoderFailed(e), answer, fault)
  }

  function Next<P, T>(dec: BodyDecoder<P>, max: u32, s: State<P, T>, e: Event<T>): State<P, T>
    requires Enabled(s, e)
  {
    match e
    case Arrive(bytes) =>
      s.(machine := s.machine.(buffer := s.machine.buffer + bytes), received := s.received + bytes)
    case TellToStop(io) => s.(stopped := true, ioError := s.ioError || io, woken := true)
    case PollSlot(res, fault) =>
      s.(disp := Reorder.Next(s.disp, Reorder.CompleteSlot(res)), error := Record(s.error, fault),
         parked := false, woken := false)
    case PollProcessing(ready, keepAlive, readable, answer, fault) =>
      (match ready
       case IsPending => s
       case IsError =>
         s.(phase := Stop, error := Some(Service), stopped := true, leaving := Some(NotReady(s.received)))
       case IsReady =>
         var s1 := if keepAlive
                   then s.(error := if s.error.None? then Some(KeepAlive) else s.error, stopped := true)
                   else s;
         if s1.stopped then Wind(dec, max, s1, answer, fault)
         else Pump(dec, max, s1, readable, answer, fault))
    case PollStop =>
      if s.disp.buf.queue == [] then s.(ioClosed := true, phase := Shutdown, parked := false, woken := false)
      else s.(parked := true, woken := false)
    case SpawnDone(k, res, fault) =>
      var d := Reorder.Next(s.disp, Reorder.CompleteSpawned(k, res));
      var wakes := WrapSub(s.disp.spawned[k], s.disp.buf.base) == 0 && d.buf.queue == [];
      s.(disp := d, error := Record(s.error, fault), woken := s.woken || wakes)
  }

  function Run<P, T>(dec: BodyDecoder<P>, max: u32, es: seq<Event<T>>): Option<State<P, T>> {
    if es == [] then Some(Init())
    else
      var s := Run(dec, max, es[..|es| - 1]);
      var e := es[|es| - 1];
      if s.Some? && Enabled(s.value, e) then Some(Next(dec, max, s.value, e)) else None
  }

  ghost predicate Reachable<P(!new), T(!new)>(dec: BodyDecoder<P>, max: u32, s: State<P, T>) {
    exists es :: Run(dec, max, es) == Some(s)
  }

  // ----- The invariant

  /** The packets among the items, in order. */
  function PacketsOf<P>(items: seq<Item<P>>): seq<P> {
    if items == [] then []
    else PacketsOf(items[..|items| - 1])
         + if items[|items| - 1].Data? then [items[|items| - 1].packet] else []
  }

  /** While processing, the packets dispatched so far and those still pending are those of the stream. */
  ghost predicate StreamKept<P, T>(dec: BodyDecoder<P>, max: u32, s: State<P, T>) {
    && Coherent(max, s.machine)
    && ParseStream(dec, max, s.received) == Prepend(PacketsOf(s.items), ParseStream(dec, max, Pending(s.machine)))
  }

  /** What had been dispatched when the dispatcher left the Processing phase, and since. */
  ghost predicate Left<P, T>(dec: BodyDecoder<P>, max: u32, s: State<P, T>) {
    match s.leaving
    case None => false
    case Some(ToldToStop(bytes)) => PacketsOf(s.items) == ParseStream(dec, max, bytes).packets
    case Some(DecodeFailure(bytes, e)) =>
      && ParseStream(dec, max, bytes) == Parsed(PacketsOf(s.items), Fault(e))
      && s.items != [] && s.items[|s.items| - 1] == DecoderFailed(e)
    case Some(NotReady(bytes)) => PacketsOf(s.items) <= ParseStream(dec, max, bytes).packets
  }

  ghost predicate Inv<P, T>(dec: BodyDecoder<P>, max: u32, s: State<P, T>) {
    && Reorder.Inv(s.disp)
    && s.disp.calls == |s.items|
    && (s.phase == Processing ==> StreamKept(dec, max, s) && s.leaving.None?)
    && (s.phase != Processing ==> Left(dec, max, s))
    && (s.ioClosed <==> s.phase == Shutdown)
    && (s.phase == Shutdown ==> s.disp.buf.queue == [])
    && (s.parked ==> s.phase == Stop && (s.disp.buf.queue != [] || s.woken))
  }

  lemma CallKeeps<P, T>(s: State<P, T>, item: Item<P>, answer: Option<T>, fault: Option<IoError>)
    requires Reorder.Inv(s.disp) && s.disp.calls == |s.items| && |s.disp.buf.queue| + 1 < USIZE
    ensures var s' := Call(s, item, answer, fault);
            Reorder.Inv(s'.disp) && s'.disp.calls == |s'.items|
  {
    Reorder.NextKeeps(s.disp, CallEvent(s.disp, answer));
  }

  /** Dispatching a decoded packet moves it from the pending bytes to the dispatched items. */
  lemma DataKeeps<P, T>(dec: BodyDecoder<P>, max: u32, s: State<P, T>, answer: Option<T>, fault: Option<IoError>)
    requires Inv(dec, max, s) && s.phase == Processing && |s.disp.buf.queue| + 1 < USIZE
    requires Decode(dec, max, s.machine).1.Packet?
    ensures var (m, r) := Decode(dec, max, s.machine);
            Inv(dec, max, Call(s.(machine := m), Data(r.packet), answer, fault))
  {
    var (m, r) := Decode(dec, max, s.machine);
    DecodeRefines(dec, max, s.machine);
    CallKeeps(s.(machine := m), Data(r.packet), answer, fault);
    PrependPrepend(PacketsOf(s.items), [r.packet], ParseStream(dec, max, Pending(m)));
  }

  /** Leaving with everything dispatched, and at most one report to the service after that. */
  lemma LeaveKeeps<P, T>(dec: BodyDecoder<P>, max: u32, s: State<P, T>, item: Item<P>, answer: Option<T>,
                         fault: Option<IoError>)
    requires Reorder.Inv(s.disp) && s.disp.calls == |s.items| && |s.disp.buf.queue| + 1 < USIZE
    requires s.phase == Stop && s.leaving == Some(ToldToStop(s.received)) && Left(dec, max, s)
    requires !s.ioClosed && !s.parked && !item.Data?
    ensures Inv(dec, max, Call(s, item, answer, fault))
  {
    CallKeeps(s, item, answer, fault);
  }

  lemma WindKeeps<P, T>(dec: BodyDecoder<P>, max: u32, s: State<P, T>, answer: Option<T>, fault: Option<IoError>)
    requires Inv(dec, max, s) && s.phase == Processing && |s.disp.buf.queue| + 1 < USIZE
    ensures Inv(dec, max, Wind(dec, max, s, answer, fault))
  {
    var (m, r) := Decode(dec, max, s.machine);
    DecodeRefines(dec, max, s.machine);
    if r.Packet? {
      DataKeeps(dec, max, s, answer, fault);
    } else {
      var (item, error, ioError) := TakeError<P>(s.error, s.ioError);
      var s1 := s.(machine := m, phase := Stop, leaving := Some(ToldToStop(s.received)),
                   error := error, ioError := ioError);
      assert PacketsOf(s.items) + [] == PacketsOf(s.items);
      assert Left(dec, max, s1);
      if item.Some? {
        LeaveKeeps(dec, max, s1, item.value, answer, fault);
      }
    }
  }

  lemma PumpKeeps<P, T>(dec: BodyDecoder<P>, max: u32, s: State<P, T>, readable: bool, answer: Option<T>,
                        fault: Option<IoError>)
    requires Inv(dec, max, s) && s.phase == Processing && |s.disp.buf.queue| + 1 < USIZE
    ensures Inv(dec, max, Pump(dec, max, s, readable, answer, fault))
  {
    var (m, r) := Decode(dec, max, s.machine);
    DecodeRefines(dec, max, s.machine);
    if r.Packet? {
      DataKeeps(dec, max, s, answer, fault);
    } else if r.Failed? {
      var s1 := s.(machine := m, phase := Stop, leaving := Some(DecodeFailure(s.received, r.error)));
      CallKeeps(s1, DecoderFailed(r.error), answer, fault);
      assert PacketsOf(s.items) + [] == PacketsOf(s.items);
    }
  }

  lemma ArriveKeeps<P, T>(dec: BodyDecoder<P>, max: u32, s: State<P, T>, bytes: seq<byte>)
    requires Inv(dec, max, s)
    ensures Inv(dec, max, Next(dec, max, s, Arrive(bytes)))
  {
    if s.phase == Processing {
      var p := Pending(s.machine);
      var m := s.machine.(buffer := s.machine.buffer + bytes);
      assert Pending(m) == p + bytes;
      ParseMore(dec, max, s.received, bytes);
      ParseMore(dec, max, p, bytes);
      var q := ParseStream(dec, max, p);
      if q.ending.Residue? {
        PrependPrepend(PacketsOf(s.items), q.packets, ParseStream(dec, max, q.ending.bytes + bytes));
      }
    }
  }

  lemma ProcessingKeeps<P, T>(dec: BodyDecoder<P>, max: u32, s: State<P, T>, e: Event<T>)
    requires Inv(dec, max, s) && Enabled(s, e) && e.PollProcessing?
    ensures Inv(dec, max, Next(dec, max, s, e))
  {
    if e.ready == IsReady {
      var s1 := if e.keepAlive
                then s.(error := if s.error.None? then Some(KeepAlive) else s.error, stopped := true)
                else s;
      assert Inv(dec, max, s1);
      if s1.stopped {
        WindKeeps(dec, max, s1, e.answer, e.fault);
      } else {
        PumpKeeps(dec, max, s1, e.readable, e.answer, e.fault);
      }
    }
  }

  lemma SlotKeeps<P, T>(dec: BodyDecoder<P>, max: u32, s: State<P, T>, res: T, fault: Option<IoError>)
    requires Inv(dec, max, s) && Enabled(s, PollSlot(res, fault))
    ensures Inv(dec, max, Next(dec, max, s, PollSlot(res, fault)))
  {
    hide Reorder.Inv, ParseStream, PacketsOf;
    Reorder.NextKeeps(s.disp, Reorder.CompleteSlot(res));
    Reorder.NoneOutstanding(s.disp);
  }

  lemma SpawnKeeps<P, T>(dec: BodyDecoder<P>, max: u32, s: State<P, T>, k: nat, res: T, fault: Option<IoError>)
    requires Inv(dec, max, s) && Enabled(s, SpawnDone(k, res, fault))
    ensures Inv(dec, max, Next(dec, max, s, SpawnDone(k, res, fault)))
  {
    hide Reorder.Inv, Reorder.Next, ParseStream, PacketsOf, Coherent;
    Reorder.SpawnedEffect(s.disp, k, res);
    Reorder.NextKeeps(s.disp, Reorder.CompleteSpawned(k, res));
    Reorder.NoneOutstanding(s.disp);
  }

  lemma StopKeeps<P, T>(dec: BodyDecoder<P>, max: u32, s: State<P, T>, e: Event<T>)
    requires Inv(dec, max, s) && Enabled(s, e) && (e.TellToStop? || e.PollStop?)
    ensures Inv(dec, max, Next(dec, max, s, e))
  {
  }

  lemma NextKeeps<P, T>(dec: BodyDecoder<P>, max: u32, s: State<P, T>, e: Event<T>)
    requires Inv(dec, max, s) && Enabled(s, e)
    ensures Inv(dec, max, Next(dec, max, s, e))
  {
    hide Inv, Next, Enabled;
    match e
    case Arrive(bytes) => ArriveKeeps(dec, max, s, bytes);
    case TellToStop(_) => StopKeeps(dec, max, s, e);
    case PollSlot(res, fault) => SlotKeeps(dec, max, s, res, fault);
    case PollProcessing(_, _, _, _, _) => ProcessingKeeps(dec, max, s, e);
    case PollStop => StopKeeps(dec, max, s, e);
    case SpawnDone(k, res, fault) => SpawnKeeps(dec, max, s, k, res, fault);
  }

  lemma {:induction false} RunKeeps<P, T>(dec: BodyDecoder<P>, max: u32, es: seq<Event<T>>)
    ensures Run<P, T>(dec, max, es).Some? ==> Inv(dec, max, Run<P, T>(dec, max, es).value)
  {
    if es == [] {
      assert Pending(Machine(FrameHeader, [], [])) == [];
      PrependNone(ParseStream<P>(dec, max, []));
    } else if Run<P, T>(dec, max, es).Some? {
      RunKeeps<P, T>(dec, max, es[..|es| - 1]);
      NextKeeps(dec, max, Run<P, T>(dec, max, es[..|es| - 1]).value, es[|es| - 1]);
    }
  }

  lemma ReachableInv<P(!new), T(!new)>(dec: BodyDecoder<P>, max: u32, s: State<P, T>)
    requires Reachable(dec, max, s)
    ensures Inv(dec, max, s)
  {
    var es :| Run(dec, max, es) == Some(s);
    RunKeeps<P, T>(dec, max, es);
  }

  // ----- The theorems

  /**
    Drain before shutdown: once the IO tasks were told to shut down, every item the service
    was called with has been answered to the writer, in the order of the calls.
   */
  lemma DrainedBeforeShutdown<P(!new), T(!new)>(dec: BodyDecoder<P>, max: u32, s: State<P, T>)
    requires Reachable(dec, max, s) && s.ioClosed
    ensures s.disp.Outstanding() == {} && |s.disp.written| == |s.items|
    ensures forall k :: 0 <= k < |s.items| ==> k in s.disp.results && s.disp.written[k] == s.disp.results[k]
  {
    ReachableInv(dec, max, s);
    Reorder.NoneOutstanding(s.disp);
  }

  /** No lost wake-up: a task asleep in the Stop phase with nothing left to drain has been woken. */
  lemma NoLostWakeup<P(!new), T(!new)>(dec: BodyDecoder<P>, max: u32, s: State<P, T>)
    requires Reachable(dec, max, s) && s.parked && s.disp.Outstanding() == {}
    ensures s.woken && s.phase == Stop && Enabled(s, PollStop) && Next(dec, max, s, PollStop).ioClosed
  {
    ReachableInv(dec, max, s);
    Reorder.NoneOutstanding(s.disp);
  }

  /** Staying, or moving on to the very next phase. */
  predicate Advances(p: Phase, p': Phase) {
    p' == p || (p == Processing && p' == Stop) || (p == Stop && p' == Shutdown)
  }

  ghost predicate Grows<P, T>(s: State<P, T>, s': State<P, T>) {
    s.items <= s'.items && s.disp.written <= s'.disp.written
  }

  /** The service has been told that the stream cannot be decoded. */
  ghost predicate Reports<P>(items: seq<Item<P>>) {
    exists i :: 0 <= i < |items| && items[i].DecoderFailed?
  }

  /** It has been told exactly if the dispatcher left the Processing phase for that reason. */
  ghost predicate ReportsRight<P, T>(s: State<P, T>) {
    Reports(s.items) <==> s.leaving.Some? && s.leaving.value.DecodeFailure?
  }

  lemma ReportsAppend<P>(items: seq<Item<P>>, item: Item<P>)
    ensures Reports(items + [item]) <==> Reports(items) || item.DecoderFailed?
  {
    if Reports(items) {
      var i :| 0 <= i < |items| && items[i].DecoderFailed?;
      assert (items + [item])[i].DecoderFailed?;
    }
    assert (items + [item])[|items|] == item;
  }

  lemma CallEffect<P, T>(s: State<P, T>, item: Item<P>, answer: Option<T>, fault: Option<IoError>)
    requires |s.disp.buf.queue| + 1 < USIZE
    ensures var s' := Call(s, item, answer, fault);
            && s'.phase == s.phase && s'.leaving == s.leaving && Grows(s, s')
            && (Reports(s'.items) <==> Reports(s.items) || item.DecoderFailed?)
  {
    hide Reorder.Next;
    Reorder.WrittenGrows(s.disp, CallEvent(s.disp, answer));
    ReportsAppend(s.items, item);
  }

  /** An iteration in the Processing phase: nothing is taken back, and an error that ends it is reported. */
  ghost predicate Iterates<P, T>(s: State<P, T>, s': State<P, T>) {
    Grows(s, s') && s'.phase != Shutdown && (s.leaving.None? && ReportsRight(s) ==> ReportsRight(s'))
  }

  lemma WindIterates<P, T>(dec: BodyDecoder<P>, max: u32, s: State<P, T>, answer: Option<T>, fault: Option<IoError>)
    requires |s.disp.buf.queue| + 1 < USIZE && s.phase == Processing
    ensures Iterates(s, Wind(dec, max, s, answer, fault))
  {
    hide Call, Frames.Decode, TakeError, Reports;
    var (m, r) := Decode(dec, max, s.machine);
    if r.Packet? {
      CallEffect(s.(machine := m), Data(r.packet), answer, fault);
    } else {
      var (item, error, ioError) := TakeError<P>(s.error, s.ioError);
      if item.Some? {
        CallEffect(s.(machine := m, phase := Stop, leaving := Some(ToldToStop(s.received)),
                      error := error, ioError := ioError), item.value, answer, fault);
      }
    }
  }

  lemma PumpIterates<P, T>(dec: BodyDecoder<P>, max: u32, s: State<P, T>, readable: bool, answer: Option<T>,
                           fault: Option<IoError>)
    requires |s.disp.buf.queue| + 1 < USIZE && s.phase == Processing
    ensures Iterates(s, Pump(dec, max, s, readable, answer, fault))
  {
    hide Call, Frames.Decode, Reports;
    var (m, r) := Decode(dec, max, s.machine);
    if r.Packet? {
      CallEffect(s.(machine := m), Data(r.packet), answer, fault);
    } else if r.Failed? {
      CallEffect(s.(machine := m, phase := Stop, leaving := Some(DecodeFailure(s.received, r.error))),
                 DecoderFailed(r.error), answer, fault);
    }
  }

  lemma ProcessingIterates<P, T>(dec: BodyDecoder<P>, max: u32, s: State<P, T>, e: Event<T>)
    requires Enabled(s, e) && e.PollProcessing?
    ensures Iterates(s, Next(dec, max, s, e))
  {
    hide Reorder.Next, Wind, Pump, Reports;
    if e.ready == IsReady {
      var s1 := if e.keepAlive
                then s.(error := if s.error.None? then Some(KeepAlive) else s.error, stopped := true)
                else s;
      WindIterates(dec, max, s1, e.answer, e.fault);
      PumpIterates(dec, max, s1, e.readable, e.answer, e.fault);
    }
  }

  /** The phases only move on, and a dispatcher that left the Processing phase makes no more calls. */
  lemma PhasesAdvance<P, T>(dec: BodyDecoder<P>, max: u32, s: State<P, T>, e: Event<T>)
    requires Enabled(s, e)
    ensures var s' := Next(dec, max, s, e);
            && Advances(s.phase, s'.phase)
            && (s.phase != Processing ==> s'.leaving == s.leaving && s'.items == s.items)
  {
    hide Reorder.Next, Wind, Pump, Reports, Grows;
    if e.PollProcessing? { ProcessingIterates(dec, max, s, e); }
  }

  /** What was dispatched or handed to the writer is never taken back. */
  lemma NothingTakenBack<P, T>(dec: BodyDecoder<P>, max: u32, s: State<P, T>, e: Event<T>)
    requires Enabled(s, e)
    ensures Grows(s, Next(dec, max, s, e))
  {
    hide Reorder.Next, Wind, Pump, Reports;
    match e
    case PollSlot(res, _) => Reorder.WrittenGrows(s.disp, Reorder.CompleteSlot(res));
    case SpawnDone(k, res, _) => Reorder.WrittenGrows(s.disp, Reorder.CompleteSpawned(k, res));
    case PollProcessing(_, _, _, _, _) => ProcessingIterates(dec, max, s, e);
    case _ =>
  }

  lemma StepReports<P, T>(dec: BodyDecoder<P>, max: u32, s: State<P, T>, e: Event<T>)
    requires Enabled(s, e) && (s.phase == Processing ==> s.leaving.None?) && ReportsRight(s)
    ensures ReportsRight(Next(dec, max, s, e))
  {
    hide Reorder.Next, Wind, Pump, Reports, Grows;
    if e.PollProcessing? { ProcessingIterates(dec, max, s, e); }
  }

  lemma {:induction false} RunReports<P, T>(dec: BodyDecoder<P>, max: u32, es: seq<Event<T>>)
    ensures Run<P, T>(dec, max, es).Some? ==> ReportsRight(Run<P, T>(dec, max, es).value)
  {
    hide Next, Enabled, StreamKept, Left, Reorder.Inv;
    if es != [] && Run<P, T>(dec, max, es).Some? {
      var p := es[..|es| - 1];
      RunReports<P, T>(dec, max, p);
      RunKeeps<P, T>(dec, max, p);
      StepReports(dec, max, Run<P, T>(dec, max, p).value, es[|es| - 1]);
    }
  }

  /** A decoding error is reported exactly if the dispatcher stopped because of it, and not once it was told to stop. */
  lemma ErrorReportedIff<P(!new), T(!new)>(dec: BodyDecoder<P>, max: u32, s: State<P, T>)
    requires Reachable(dec, max, s)
    ensures (exists i :: 0 <= i < |s.items| && s.items[i].DecoderFailed?)
            <==> s.leaving.Some? && s.leaving.value.DecodeFailure?
  {
    var es :| Run(dec, max, es) == Some(s);
    RunReports<P, T>(dec, max, es);
  }

  /**
    Unhandled data is not lost: when the dispatcher was told to stop, it left the Processing
    phase having dispatched every packet of the bytes received by then, in order; it stopped
    on a decode error only after every packet before the error, with the error as the last
    item of all; and in any case the service
    has seen the packets of the byte stream, in order and without gaps.
   */
  lemma StreamDispatched<P(!new), T(!new)>(dec: BodyDecoder<P>, max: u32, s: State<P, T>)
    requires Reachable(dec, max, s)
    ensures s.leaving.None? <==> s.phase == Processing
    ensures s.phase == Processing ==> PacketsOf(s.items) <= ParseStream(dec, max, s.received).packets
    ensures s.leaving.Some? ==> PacketsOf(s.items) <= ParseStream(dec, max, s.leaving.value.received).packets
    ensures s.leaving.Some? && !s.leaving.value.NotReady? ==>
              PacketsOf(s.items) == ParseStream(dec, max, s.leaving.value.received).packets
    ensures s.leaving.Some? && s.leaving.value.DecodeFailure? ==>
              && ParseStream(dec, max, s.leaving.value.received).ending == Fault(s.leaving.value.cause)
              && s.items != [] && s.items[|s.items| - 1] == DecoderFailed(s.leaving.value.cause)
  {
    ReachableInv(dec, max, s);
  }
}
