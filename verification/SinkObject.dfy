/** The sink as the source keeps it: shared cells and queues that every call updates in place. */
module SinkObject {
  import opened Wrappers
  import opened Words
  import opened PacketIds
  import opened Sink

  class MqttShared {
    const cap: usize
    var open: bool
    var inflightIdx: Counter
    var inflight: map<u16, Entry>
    var inflightOrder: seq<u16>
    var waiters: seq<nat>
    var parked: map<nat, Request>   // the receiving ends of the waiters' channels
    var woken: set<nat>
    var nextWaiter: nat
    var registered: seq<Registration>
    var delivered: seq<Delivery>
    ghost var failed: bool
    ghost var generated: nat

    constructor (cap: usize)
      ensures Model() == Init(cap)
    {
      this.cap, open, inflightIdx := cap, true, 0;
      inflight, inflightOrder, waiters, parked := map[], [], [], map[];
      registered, delivered := [], [];
      woken, nextWaiter, failed, generated := {}, 0, false, 0;
    }

    ghost function Model(): State
      reads this
    {
      State(open, cap, inflightIdx, inflight, inflightOrder, waiters, parked, woken, nextWaiter,
            registered, delivered, failed, generated)
    }

    method NextId() returns (id: PacketId)
      modifies this`inflightIdx, this`generated
      ensures id == PacketIds.NextId(old(inflightIdx)).0
      ensures Model() == old(Model()).(counter := PacketIds.NextId(old(inflightIdx)).1,
                                       generated := old(generated) + 1)
    {
      var idx := inflightIdx + 1;
      if idx == 65535 {
        inflightIdx := 0;
        id := 65535;
      } else {
        inflightIdx := idx;
        id := idx;
      }
      generated := generated + 1;
    }

    /** The part of a send that runs once the sender has credit. */
    method SendInner(req: Request) returns (r: Outcome)
      modifies this`inflightIdx, this`generated, this`inflight, this`inflightOrder, this`registered
      ensures (Model(), r) == Register(old(Model()), req)
    {
      var id: PacketId;
      if req.id == 0 {
        id := NextId();
      } else {
        id := req.id;
      }
      if id in inflight {
        return Failed(PacketIdInUse(id));
      }
      inflight := inflight[id := Entry(|registered|, req.kind)];
      inflightOrder := inflightOrder + [id];
      registered := registered + [Registration(id, req.kind)];
      r := Sends(id, req.kind);
    }

    method Send(req: Request) returns (r: Outcome)
      requires |inflight| < USIZE
      modifies this
      ensures (Model(), r) == Fresh(old(Model()), req)
    {
      if !open {
        r := Failed(Disconnected);
      } else if !(WrapSub(cap, |inflight|) > 0) {
        waiters := waiters + [nextWaiter];
        parked := parked[nextWaiter := req];
        r := Waits(nextWaiter);
        nextWaiter := nextWaiter + 1;
      } else {
        r := SendInner(req);
      }
    }

    /** Pops waiters until one of them can still be reached. */
    method WakeWaiter()
      modifies this`waiters, this`woken
      ensures Model() == WakeOne(old(Model()))
    {
      while waiters != []
        invariant Wake(waiters, parked.Keys) == Wake(old(waiters), parked.Keys)
        invariant woken == old(woken)
        decreases |waiters|
      {
        var tx := waiters[0];
        waiters := waiters[1..];
        if tx in parked {
          woken := woken + {tx};
          return;
        }
      }
    }

    /** Delivers an acknowledgement of the identifier just taken from the order. */
    method SettleAck(ack: Ack) returns (r: Result<(), ProtocolError>)
      modifies this`inflight, this`delivered, this`waiters, this`woken
      ensures (Model(), r) == Settle(old(Model()).(order := [ack.id] + old(inflightOrder)), ack)
    {
      if ack.id in inflight {
        var e := inflight[ack.id];
        inflight := inflight - {ack.id};
        if KindOf(ack) == e.kind {
          delivered := delivered + [Delivery(e.sender, ack)];
          WakeWaiter();
          r := Ok(());
        } else {
          r := Err(Unexpected(KindOf(ack), e.kind));
        }
      } else {
        r := Err(PacketIdMismatch);
      }
      assert ([ack.id] + inflightOrder)[1..] == inflightOrder;
    }

    method Close()
      modifies this
      ensures Model() == Sink.Close(old(Model()))
    {
      open := false;
      inflight := map[];
      waiters := [];
      parked := map w | w in parked && w in woken :: parked[w];
    }

    method PktAckV3(ack: Ack) returns (r: Result<(), ProtocolError>)
      modifies this
      ensures (Model(), r) == AckV3(old(Model()), ack)
    {
      if inflightOrder != [] {
        var idx := inflightOrder[0];
        assert inflightOrder == [idx] + inflightOrder[1..];
        inflightOrder := inflightOrder[1..];
        if idx != ack.id {
          r := Err(PacketIdMismatch);
        } else {
          r := SettleAck(ack);
        }
      } else {
        r := Err(PacketIdMismatch);
      }
      if r.Err? {
        Close();
        failed := true;
      }
    }

    method PktAckV5(ack: Ack) returns (r: Result<(), ProtocolError>)
      modifies this
      ensures (Model(), r) == AckV5(old(Model()), ack)
    {
      while true
        invariant AckV5(Model(), ack) == AckV5(old(Model()), ack)
        decreases |inflightOrder|
      {
        if inflightOrder != [] {
          var idx := inflightOrder[0];
          assert inflightOrder == [idx] + inflightOrder[1..];
          inflightOrder := inflightOrder[1..];
          if idx == 0 {
            continue;
          }
          if idx == ack.id {
            r := SettleAck(ack);
            if r.Err? { failed := true; }
            return;
          }
        }
        failed := true;
        return Err(PacketIdMismatch);
      }
    }
  }
}
