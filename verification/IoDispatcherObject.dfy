/**
  The dispatcher as the source keeps it: cells updated by every poll and every finished task.
  Each method is proved to follow the step of the poll machine that its event takes.
 */
module IoDispatcherObject {
  import opened Wrappers
  import opened Words
  import opened Bytes
  import opened Frames
  import opened IoDispatcher
  import Reorder

  class Dispatcher<!P, T> {
    const codec: Codec<P>
    const inner: Reorder.DispatcherState<T>
    var st: Phase
    var error: Option<IoError>
    var stopped: bool
    var ioError: bool
    var ioClosed: bool
    var registered: bool              // the task's waker is registered for the Stop phase
    var response: bool                // the slot holds a future
    var responseIdx: usize

    constructor (dec: BodyDecoder<P>, max: u32)
      ensures Follows(Init()) && codec.dec == dec && codec.maxSize == max
      ensures fresh(codec) && fresh(inner)
    {
      codec := new Codec(dec, max);
      inner := new Reorder.DispatcherState();
      st, error, stopped, ioError, ioClosed, registered := Processing, None, false, false, false, false;
      response, responseIdx := false, 0;
    }

    /** The reorder cells are those of the modelled dispatch. */
    ghost predicate Holds(d: Reorder.Dispatch<T>)
      reads this, inner
    {
      && inner.Model() == d.buf && inner.out == d.written
      && response == d.slot.Some? && responseIdx == d.slotIdx
    }

    /** The cells are those of the modelled state. */
    ghost predicate Follows(s: State<P, T>)
      reads this, inner, codec
    {
      && Holds(s.disp) && codec.Model() == s.machine && inner.woken == s.woken
      && st == s.phase && error == s.error && stopped == s.stopped && ioError == s.ioError
      && ioClosed == s.ioClosed && registered == s.parked
    }

    /** Queues a call's answer; `answer` is what the first poll of its future returns. */
    method Enqueue(answer: Option<T>, ghost d: Reorder.Dispatch<T>)
      requires |inner.queue| + 1 < USIZE && Holds(d)
      modifies this`response, this`responseIdx, inner`queue, inner`out
      ensures Holds(Reorder.Next(d, CallEvent(d, answer)))
    {
      var idx := WrapAdd(inner.base, |inner.queue|);
      if !response {
        if answer.Some? {
          if inner.queue == [] {
            inner.out := inner.out + [answer.value];
          } else {
            responseIdx := idx;
            inner.queue := inner.queue + [Reorder.Ready(answer.value)];
          }
        } else {
          response, responseIdx := true, idx;
          inner.queue := inner.queue + [Reorder.Pending];
        }
      } else {
        inner.queue := inner.queue + [Reorder.Pending];
      }
    }

    method CallService(ghost item: Item<P>, answer: Option<T>, fault: Option<IoError>, ghost s: State<P, T>)
      requires |inner.queue| + 1 < USIZE && Follows(s)
      modifies this`response, this`responseIdx, this`error, inner`queue, inner`out
      ensures Follows(Call(s, item, answer, fault))
    {
      hide Reorder.Next;
      Enqueue(answer, s.disp);
      if fault.Some? { error := fault; }
    }

    /** The start of a poll whose slot future is ready. */
    method PollSlot(res: T, fault: Option<IoError>, ghost s: State<P, T>)
      requires Follows(s) && Enabled(s, Event.PollSlot(res, fault))
      modifies this, inner
      ensures Follows(Next(codec.dec, codec.maxSize, s, Event.PollSlot(res, fault)))
    {
      inner.HandleResult(res, responseIdx, false);
      response := false;
      registered, inner.woken := false, false;
      if fault.Some? { error := fault; }
    }

    /** A spawned response future, given `idx` when it was made, has finished. */
    method SpawnDone(res: T, idx: usize, fault: Option<IoError>, ghost call: nat, ghost s: State<P, T>)
      requires Follows(s) && Enabled(s, Event.SpawnDone(call, res, fault)) && s.disp.spawned[call] == idx
      modifies this, inner
      ensures Follows(Next(codec.dec, codec.maxSize, s, Event.SpawnDone(call, res, fault)))
    {
      inner.HandleResult(res, idx, true);
      if fault.Some? { error := fault; }
    }

    /** The branch that runs once the connection was told to stop. */
    method WindDown(answer: Option<T>, fault: Option<IoError>, ghost s: State<P, T>)
      requires |inner.queue| + 1 < USIZE && Follows(s)
      modifies this, inner, codec
      ensures Follows(Wind(codec.dec, codec.maxSize, s, answer, fault))
    {
      hide Call, Frames.Decode, TakeError;
      var el := codec.DecodeNext();
      ghost var s1 := s.(machine := codec.Model());
      if el.Packet? {
        CallService(Data(el.packet), answer, fault, s1);
      } else {
        Leave(answer, fault, s1);
      }
    }

    /** Enters the Stop phase and reports an error that waits to be reported. */
    method Leave(answer: Option<T>, fault: Option<IoError>, ghost s: State<P, T>)
      requires |inner.queue| + 1 < USIZE && Follows(s)
      modifies this, inner
      ensures var (item, err, io) := TakeError<P>(s.error, s.ioError);
              var s1 := s.(phase := Stop, leaving := Some(ToldToStop(s.received)), error := err, ioError := io);
              Follows(if item.Some? then Call(s1, item.value, answer, fault) else s1)
    {
      hide Call, TakeError;
      var (item, err, io) := TakeError<P>(error, ioError);
      error, ioError, st := err, io, Stop;
      if item.Some? {
        CallService(item.value, answer, fault,
                    s.(phase := Stop, leaving := Some(ToldToStop(s.received)), error := err, ioError := io));
      }
    }

    /** Enters the Stop phase because the stream cannot be decoded, and reports it. */
    method Refuse(e: DecodeError, answer: Option<T>, fault: Option<IoError>, ghost s: State<P, T>)
      requires |inner.queue| + 1 < USIZE && Follows(s)
      modifies this, inner
      ensures Follows(Call(s.(phase := Stop, leaving := Some(DecodeFailure(s.received, e))), DecoderFailed(e),
                           answer, fault))
    {
      hide Call;
      st := Stop;
      CallService(DecoderFailed(e), answer, fault, s.(phase := Stop, leaving := Some(DecodeFailure(s.received, e))));
    }

    /** Reads the next packet while the connection is up. */
    method ReadNext(readable: bool, answer: Option<T>, fault: Option<IoError>, ghost s: State<P, T>)
      requires |inner.queue| + 1 < USIZE && Follows(s)
      modifies this, inner, codec
      ensures Follows(Pump(codec.dec, codec.maxSize, s, readable, answer, fault))
    {
      hide Call, Frames.Decode;
      if readable {
        var el := codec.DecodeNext();
        ghost var s1 := s.(machine := codec.Model());
        if el.Packet? {
          CallService(Data(el.packet), answer, fault, s1);
        } else if el.Failed? {
          Refuse(el.error, answer, fault, s1);
        }
      }
    }

    /** One iteration of the Processing loop. */
    method PollProcessing(ready: Readiness, keepAlive: bool, readable: bool, answer: Option<T>,
                          fault: Option<IoError>, ghost s: State<P, T>)
      requires Follows(s) && Enabled(s, Event.PollProcessing(ready, keepAlive, readable, answer, fault))
      modifies this, inner, codec
      ensures Follows(Next(codec.dec, codec.maxSize, s,
                           Event.PollProcessing(ready, keepAlive, readable, answer, fault)))
    {
      hide Pump, Wind;
      if ready == IsError {
        st, error, stopped := Stop, Some(Service), true;
      } else if ready == IsReady {
        ghost var s1 := s;
        if keepAlive {
          if error.None? { error := Some(KeepAlive); }
          stopped := true;
          s1 := s.(error := error, stopped := true);
        }
        if stopped {
          WindDown(answer, fault, s1);
        } else {
          ReadNext(readable, answer, fault, s1);
        }
      }
    }

    /** Drains the answers, then shuts the connection down. */
    method PollStop(ghost s: State<P, T>)
      requires Follows(s) && st == Stop
      modifies this, inner
      ensures Follows(Next(codec.dec, codec.maxSize, s, Event.PollStop))
    {
      if inner.queue == [] {
        ioClosed, st, registered := true, Shutdown, false;
      } else {
        registered := true;
      }
      inner.woken := false;
    }
  }
}
