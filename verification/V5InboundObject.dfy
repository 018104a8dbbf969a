/** The dispatcher of src/v5/dispatcher.rs as the object it is, tied to the steps of `V5Inbound`. */
module V5InboundObject {
  import opened Wrappers
  import opened Words
  import opened Bytes
  import opened V5Inbound

  class Dispatcher {
    const maxReceive: nat
    const maxTopicAlias: u16
    var inflight: set<nz16>
    var aliases: set<nz16>
    var futures: seq<Future>         // in the order of the calls that made them
    ghost var handled: seq<Message>
    var asked: seq<Ask>              // the questions handed to the control service
    var duplicates: seq<Item>        // the items whose sender was told that the identifier is in use

    constructor (maxReceive: nat, maxTopicAlias: u16)
      ensures this.maxReceive == maxReceive && this.maxTopicAlias == maxTopicAlias
      ensures Model() == Initial()
    {
      this.maxReceive, this.maxTopicAlias := maxReceive, maxTopicAlias;
      inflight, aliases, futures, handled, asked, duplicates := {}, {}, [], [], [], [];
    }

    ghost function Model(): State
      reads this
    {
      State(inflight, aliases, futures, handled, asked, duplicates)
    }

    ghost function Cfg(): Config {
      Config(maxReceive, maxTopicAlias)
    }

    /** Adds an identifier; the answer tells whether it was new. */
    method Insert(id: nz16) returns (added: bool)
      modifies this`inflight
      ensures inflight == old(inflight) + {id} && added == (id !in old(inflight))
    {
      added := id !in inflight;
      inflight := inflight + {id};
    }

    method Spawn(f: Future)
      modifies this`futures
      ensures futures == old(futures) + [f]
    {
      futures := futures + [f];
    }

    /** Calls the control service for the call that is being made. */
    method Consult(f: Future, q: Question)
      modifies this`futures, this`asked
      ensures Model() == AskControl(old(Model()), f, q)
    {
      asked := asked + [Ask(|futures|, q)];
      Spawn(f);
    }

    /** Tells the sender that the identifier is in use. */
    method Refuse(item: Item)
      modifies this`futures, this`duplicates
      ensures Model() == RefuseDuplicate(old(Model()), item)
    {
      duplicates := duplicates + [item];
      Spawn(Finished(0));
    }

    /** Registers the identifier of a message, or refuses the message. */
    method TakeId(m: Message) returns (ok: bool)
      modifies this`inflight, this`futures, this`asked, this`duplicates
      ensures var s := old(Model());
              if m.id.Some? && maxReceive != 0 && |s.inflight| >= maxReceive then
                !ok && Model() == AskControl(s, Controlling(0, true, 0), AboutRefusal(ReceiveMaximumExceeded))
              else if m.id.Some? && m.id.value in s.inflight then
                !ok && Model() == RefuseDuplicate(s, Publish(m))
              else ok && Model() == s.(inflight := s.inflight + Ids(IdOr0(m.id)))
    {
      if m.id.Some? {
        if maxReceive != 0 && |inflight| >= maxReceive {
          Consult(Controlling(0, true, 0), AboutRefusal(ReceiveMaximumExceeded));
          return false;
        }
        ghost var before := inflight;
        var added := Insert(m.id.value);
        if !added {
          assert inflight == before;
          Refuse(Publish(m));
          return false;
        }
      }
      return true;
    }

    /** Registers the alias of a message; an alias that is unknown or too large is an error. */
    method TakeAlias(m: Message) returns (error: Option<ProtocolError>)
      modifies this`aliases
      ensures error ==
              if m.alias.Some? && m.topic == [] && m.alias.value !in old(aliases) then Some(UnknownTopicAlias)
              else if m.alias.Some? && m.topic != [] && m.alias.value > maxTopicAlias then Some(MaxTopicAlias)
              else None
      ensures aliases == if error.None? then old(aliases) + Registers(m) else old(aliases)
    {
      if m.alias.Some? {
        var alias := m.alias.value;
        if m.topic == [] {
          if alias !in aliases {
            return Some(UnknownTopicAlias);
          }
        } else {
          if alias > maxTopicAlias {
            return Some(MaxTopicAlias);
          }
          aliases := aliases + {alias};
        }
      }
      return None;
    }

    method CallPublish(m: Message)
      modifies this
      ensures Model() == ReceivePublish(Cfg(), old(Model()), m)
    {
      hide AskControl, RefuseDuplicate, Registers, IdOr0, Ids;
      var ok := TakeId(m);
      if !ok {
        return;
      }
      var error := TakeAlias(m);
      if error.Some? {
        Consult(Controlling(0, true, IdOr0(m.id)), AboutRefusal(error.value));
        return;
      }
      handled := handled + [m];
      Spawn(Publishing(IdOr0(m.id)));
    }

    method CallTracked(item: Item, id: nz16)
      modifies this
      ensures Model() == ReceiveTracked(old(Model()), item, id)
    {
      ghost var before := inflight;
      var added := Insert(id);
      if !added {
        assert inflight == before;
        Refuse(item);
      } else {
        Consult(Controlling(id, false, 0), AboutItem(item));
      }
    }

    method Call(item: Item)
      modifies this
      ensures Model() == Receive(Cfg(), old(Model()), item)
    {
      match item
      case Publish(m) => CallPublish(m);
      case Subscribe(id) => CallTracked(item, id);
      case Unsubscribe(id) => CallTracked(item, id);
      case Control => Consult(Controlling(0, false, 0), AboutItem(Control));
      case Fault => Consult(Controlling(0, true, 0), AboutItem(Fault));
      case Other => Spawn(Finished(0));
    }

    method Release(id: u16)
      modifies this`inflight
      ensures inflight == old(inflight) - Ids(id)
    {
      if id != 0 {
        inflight := inflight - {id};
      }
    }

    /** The publish service has answered the i-th future; the answer is the acknowledged identifier. */
    method PollPublish(i: nat, r: Completion) returns (acked: u16)
      requires i < |futures| && futures[i].Publishing?
      modifies this
      ensures Model() == Complete(old(Model()), i, r)
      ensures acked == if futures[i].Finished? then old(futures)[i].id else 0
    {
      var id := futures[i].id;
      acked := 0;
      if r.Failed? {
        if id == 0 || !r.asAck {
          futures := futures[i := Controlling(0, true, id)];
          asked := asked + [Ask(i, AboutFailure)];
          return;
        }
      }
      Release(id);
      futures := futures[i := Finished(0)];
      acked := id;
    }

    /** The control service has answered the i-th future; after a first error it is asked once more. */
    method PollControl(i: nat, r: Completion) returns (again: bool)
      requires i < |futures| && futures[i].Controlling?
      modifies this
      ensures Model() == Complete(old(Model()), i, r)
      ensures again <==> !futures[i].Finished?
    {
      var Controlling(id, error, lost) := futures[i];
      again := false;
      if r.Done? {
        Release(id);
        futures := futures[i := Finished(lost)];
      } else if error {
        futures := futures[i := Finished(if id != 0 then id else lost)];
      } else {
        futures := futures[i := Controlling(id, true, lost)];
        asked := asked + [Ask(i, AboutFailure)];
        again := true;
      }
    }
  }
}
