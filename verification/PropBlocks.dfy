/**
  A packet's property block: optional single-valued properties in a fixed order, then user
  properties and a reason string under a size limit (the encoders of
  src/v5/codec/packet/connack.rs, disconnect.rs, auth.rs and the ack_props of mod.rs).
 */
module PropBlocks {
  import opened Wrappers
  import opened Bytes
  import opened Props
  import opened LimitedProps
  import VarInt

  /** An optional single-valued property of a packet. */
  datatype Slot = Slot(id: byte, val: Option<Val>)

  function SlotProps(slots: seq<Slot>): seq<Prop> {
    if slots == [] then []
    else (if slots[0].val.Some? then [Prop(slots[0].id, slots[0].val.value)] else []) + SlotProps(slots[1..])
  }

  function SlotsSize(slots: seq<Slot>): nat {
    if slots == [] then 0
    else (if slots[0].val.Some? then 1 + ValSize(slots[0].val.value) else 0) + SlotsSize(slots[1..])
  }

  /** The slots hold values that the table allows, under pairwise different identifiers. */
  ghost predicate SlotsOk(table: Table, slots: seq<Slot>) {
    && (forall i :: 0 <= i < |slots| ==>
          && slots[i].id in table && slots[i].id != USER && slots[i].id != REASON_STRING
          && !Repeats(table[slots[i].id])
          && (slots[i].val.Some? ==> Suits(table[slots[i].id], slots[i].val.value)))
    && (forall i, j :: 0 <= i < j < |slots| ==> slots[i].id != slots[j].id)
    && USER in table && table[USER] == KUser
  }

  predicate SlotsFit(slots: seq<Slot>) {
    forall i :: 0 <= i < |slots| && slots[i].val.Some? ==> ValFits(slots[i].val.value)
  }

  /** All properties of a block, in the order they are written. */
  function BlockProps(slots: seq<Slot>, users: seq<UserProp>, reason: Option<Str>): seq<Prop> {
    SlotProps(slots) + (UserProps(users) + ReasonProps(reason))
  }

  // ----- Looking up a written block

  ghost predicate Among(slots: seq<Slot>, id: byte) {
    exists i :: 0 <= i < |slots| && slots[i].id == id
  }

  lemma {:induction false} SlotPropsIds(slots: seq<Slot>)
    ensures forall j :: 0 <= j < |SlotProps(slots)| ==> Among(slots, SlotProps(slots)[j].id)
  {
    if slots != [] {
      SlotPropsIds(slots[1..]);
      forall j | 0 <= j < |SlotProps(slots)| ensures Among(slots, SlotProps(slots)[j].id) {
        var id := SlotProps(slots)[j].id;
        var k := if slots[0].val.Some? then 1 else 0;
        if j >= k {
          assert SlotProps(slots)[j] == SlotProps(slots[1..])[j - k];
          var i :| 0 <= i < |slots[1..]| && slots[1..][i].id == id;
          assert slots[i + 1].id == id;
        } else {
          assert slots[0].id == id;
        }
      }
    }
  }

  lemma {:induction false} FindConcat(a: seq<Prop>, b: seq<Prop>, id: byte)
    ensures Find(a + b, id) == if Find(a, id).Some? then Find(a, id) else Find(b, id)
  {
    if a == [] {
      assert a + b == b;
    } else {
      FindConcat(a[1..], b, id);
      assert (a + b)[1..] == a[1..] + b;
    }
  }

  lemma {:induction false} FindAbsent(ps: seq<Prop>, id: byte)
    requires forall i :: 0 <= i < |ps| ==> ps[i].id != id
    ensures Find(ps, id) == None
  {
    if ps != [] { FindAbsent(ps[1..], id); }
  }

  lemma {:induction false} FindSlot(slots: seq<Slot>, i: nat)
    requires i < |slots| && forall j, k :: 0 <= j < k < |slots| ==> slots[j].id != slots[k].id
    ensures Find(SlotProps(slots), slots[i].id) == slots[i].val
  {
    var id := slots[i].id;
    var head := if slots[0].val.Some? then [Prop(slots[0].id, slots[0].val.value)] else [];
    FindConcat(head, SlotProps(slots[1..]), id);
    assert head != [] ==> head[1..] == [];
    if i == 0 {
      SlotPropsIds(slots[1..]);
      FindAbsent(SlotProps(slots[1..]), id);
    } else {
      FindSlot(slots[1..], i - 1);
    }
  }

  /** The user property at the front, if there is one. */
  function FirstUser(ps: seq<Prop>): seq<UserProp>
    requires ps != []
  {
    if ps[0].val.VPair? then [UserProp(ps[0].val.key, ps[0].val.value)] else []
  }

  lemma UsersOfStep(ps: seq<Prop>)
    requires ps != []
    ensures UsersOf(ps) == FirstUser(ps) + UsersOf(ps[1..])
  {
  }

  lemma {:induction false} UsersOfConcat(a: seq<Prop>, b: seq<Prop>)
    ensures UsersOf(a + b) == UsersOf(a) + UsersOf(b)
  {
    hide UsersOf, FirstUser;
    if a == [] {
      assert a + b == b && [] + UsersOf(b) == UsersOf(b);
      UsersOfEmpty();
    } else {
      UsersOfConcat(a[1..], b);
      assert (a + b)[1..] == a[1..] + b && FirstUser(a + b) == FirstUser(a) by { FirstUserPrefix(a, b); }
      UsersOfStep(a);
      UsersOfStep(a + b);
      var h, x, y := FirstUser(a), UsersOf(a[1..]), UsersOf(b);
      assert h + (x + y) == h + x + y;
    }
  }

  lemma UsersOfEmpty()
    ensures UsersOf([]) == []
  {
  }

  lemma FirstUserPrefix(a: seq<Prop>, b: seq<Prop>)
    requires a != []
    ensures FirstUser(a + b) == FirstUser(a)
  {
    assert (a + b)[0] == a[0];
  }

  lemma {:induction false} UsersOfUsers(users: seq<UserProp>)
    ensures UsersOf(UserProps(users)) == users
    ensures forall i :: 0 <= i < |UserProps(users)| ==> UserProps(users)[i].id == USER && UserProps(users)[i].val.VPair?
  {
    if users != [] {
      UsersOfUsers(users[1..]);
      assert UserProps(users)[1..] == UserProps(users[1..]);
      assert users == [users[0]] + users[1..];
    }
  }

  lemma {:induction false} UsersOfNone(ps: seq<Prop>)
    requires forall i :: 0 <= i < |ps| ==> !ps[i].val.VPair?
    ensures UsersOf(ps) == []
  {
    if ps != [] { UsersOfNone(ps[1..]); }
  }

  lemma {:induction false} SlotPropsSuit(table: Table, slots: seq<Slot>)
    requires SlotsOk(table, slots)
    ensures forall j :: 0 <= j < |SlotProps(slots)| ==>
              && SlotProps(slots)[j].id in table && !Repeats(table[SlotProps(slots)[j].id])
              && Suits(table[SlotProps(slots)[j].id], SlotProps(slots)[j].val)
              && SlotProps(slots)[j].id != USER && SlotProps(slots)[j].id != REASON_STRING
    ensures forall i, j :: 0 <= i < j < |SlotProps(slots)| ==> SlotProps(slots)[i].id != SlotProps(slots)[j].id
  {
    if slots != [] {
      SlotPropsSuit(table, slots[1..]);
      SlotPropsIds(slots[1..]);
    }
  }

  lemma {:induction false} SlotPropsWritable(table: Table, slots: seq<Slot>)
    requires SlotsOk(table, slots) && SlotsFit(slots)
    ensures Writable(SlotProps(slots)) && Weight(SlotProps(slots)) == SlotsSize(slots)
  {
    hide Suits, ValFits, ValSize;
    if slots != [] {
      SlotPropsWritable(table, slots[1..]);
      if slots[0].val.Some? {
        SuitsNotVar(table[slots[0].id], slots[0].val.value);
        assert SlotProps(slots)[1..] == SlotProps(slots[1..]);
      } else {
        assert SlotProps(slots) == SlotProps(slots[1..]);
      }
    }
  }

  lemma {:induction false} WritableSlotsFit(slots: seq<Slot>)
    requires Writable(SlotProps(slots))
    ensures SlotsFit(slots)
  {
    hide ValFits;
    if slots != [] {
      var ps, tail := SlotProps(slots), SlotProps(slots[1..]);
      if slots[0].val.Some? {
        assert ps[0] == Prop(slots[0].id, slots[0].val.value);
        assert forall i :: 0 <= i < |tail| ==> tail[i] == ps[i + 1];
      } else {
        assert ps == tail;
      }
      WritableSlotsFit(slots[1..]);
      assert forall i :: 0 < i < |slots| ==> slots[i] == slots[1..][i - 1];
    }
  }

  lemma SuitsNotVar(k: Kind, v: Val)
    requires Suits(k, v)
    ensures !v.VVar? && (v.VPair? <==> k.KUser?)
  {
  }

  /** What a reader finds in a written block: every slot, the user properties and the reason string. */
  lemma BlockLookup(table: Table, slots: seq<Slot>, users: seq<UserProp>, reason: Option<Str>)
    requires SlotsOk(table, slots)
    ensures var ps := BlockProps(slots, users, reason);
            && (forall i :: 0 <= i < |slots| ==> Find(ps, slots[i].id) == slots[i].val)
            && Find(ps, REASON_STRING) == (if reason.Some? then Some(VStr(reason.value)) else None)
            && UsersOf(ps) == users
  {
    hide Suits, Repeats;
    var sp, up, rp := SlotProps(slots), UserProps(users), ReasonProps(reason);
    UsersOfUsers(users);
    SlotPropsSuit(table, slots);
    forall i | 0 <= i < |slots| ensures Find(sp + (up + rp), slots[i].id) == slots[i].val {
      FindSlot(slots, i);
      FindConcat(sp, up + rp, slots[i].id);
      FindAbsent(up + rp, slots[i].id);
    }
    FindConcat(sp, up + rp, REASON_STRING);
    FindConcat(up, rp, REASON_STRING);
    FindAbsent(sp, REASON_STRING);
    FindAbsent(up, REASON_STRING);
    BlockUsers(table, slots, users, reason);
  }

  lemma BlockUsers(table: Table, slots: seq<Slot>, users: seq<UserProp>, reason: Option<Str>)
    requires SlotsOk(table, slots)
    ensures UsersOf(BlockProps(slots, users, reason)) == users
  {
    var sp, up, rp := SlotProps(slots), UserProps(users), ReasonProps(reason);
    UsersOfUsers(users);
    SlotPropsSuit(table, slots);
    UsersOfConcat(sp, up + rp);
    UsersOfConcat(up, rp);
    UsersOfNone(rp);
    forall j | 0 <= j < |sp| ensures !sp[j].val.VPair? {
      SuitsNotVar(table[sp[j].id], sp[j].val);
    }
    UsersOfNone(sp);
    assert [] + (users + []) == users;
  }

  lemma BlockLegal(table: Table, slots: seq<Slot>, users: seq<UserProp>, reason: Option<Str>)
    requires SlotsOk(table, slots)
    requires reason.Some? ==> REASON_STRING in table && table[REASON_STRING] == KStr
    ensures Legal(table, [], BlockProps(slots, users, reason))
  {
    var sp, up, rp := SlotProps(slots), UserProps(users), ReasonProps(reason);
    UsersOfUsers(users);
    SlotPropsSuit(table, slots);
    var ps := BlockProps(slots, users, reason);
    forall i | 0 <= i < |ps| ensures ps[i].id in table && Suits(table[ps[i].id], ps[i].val) {
      if i < |sp| {
        assert ps[i] == sp[i];
      } else if i < |sp| + |up| {
        assert ps[i] == up[i - |sp|];
      } else {
        assert ps[i] == rp[i - |sp| - |up|];
      }
    }
  }

  // ----- The two passes over a block

  /** The length of the block without its own length bytes. */
  function BlockLen(slots: seq<Slot>, users: seq<UserProp>, reason: Option<Str>, limit: nat): nat {
    SlotsSize(slots) + OptSize(users, reason, limit)
  }

  function BlockSize(slots: seq<Slot>, users: seq<UserProp>, reason: Option<Str>, limit: nat): nat {
    var n := BlockLen(slots, users, reason, limit);
    VarInt.Len(n) + n
  }

  /** A block of this size has a length that four bytes can announce. */
  predicate Announces(size: nat) {
    size >= 1 && VarInt.FromSize(size) <= VarInt.MAX_VARINT
  }

  /** What the write pass puts before the optional properties of a block of the given size. */
  function BlockHead(slots: seq<Slot>, size: nat): seq<byte>
    requires Writable(SlotProps(slots)) && Announces(size)
  {
    VarInt.Put(VarInt.FromSize(size)) + PutProps(SlotProps(slots))
  }

  /** The bytes that are left for the optional properties. */
  function BlockLeft(slots: seq<Slot>, size: nat): nat
    requires Writable(SlotProps(slots)) && Announces(size)
  {
    if |BlockHead(slots, size)| <= size then size - |BlockHead(slots, size)| else 0
  }

  /** The write pass: it knows the size of the whole block only. */
  function PutBlock(slots: seq<Slot>, users: seq<UserProp>, reason: Option<Str>, size: nat): seq<byte>
    requires Writable(SlotProps(slots)) && Announces(size)
    requires ReachedFit(users, reason, BlockLeft(slots, size))
  {
    BlockHead(slots, size) + PutOptProps(users, reason, BlockLeft(slots, size))
  }

  lemma {:induction false} PutPropsConcat(a: seq<Prop>, b: seq<Prop>)
    requires Writable(a) && Writable(b)
    ensures Writable(a + b) && PutProps(a + b) == PutProps(a) + PutProps(b)
    decreases |a|
  {
    hide PutVal, ValFits;
    if a == [] {
      assert a + b == b;
    } else {
      PutPropsConcat(a[1..], b);
      assert (a + b)[1..] == a[1..] + b && (a + b)[0] == a[0];
      var h, x, y := [a[0].id] + PutVal(a[0].val), PutProps(a[1..]), PutProps(b);
      assert PutProps(a + b) == h + (x + y);
      assert h + (x + y) == h + x + y;
    }
  }

  /**
    Told the size that the size pass counted, the write pass writes exactly that many bytes,
    and a reader gets back the slots, the kept user properties and the kept reason string.
   */
  lemma BlockTwoPass(table: Table, slots: seq<Slot>, users: seq<UserProp>, reason: Option<Str>, limit: nat,
                     rest: seq<byte>)
    requires SlotsOk(table, slots) && SlotsFit(slots) && KeptFits(users, reason, limit)
    requires reason.Some? ==> REASON_STRING in table && table[REASON_STRING] == KStr
    requires BlockLen(slots, users, reason, limit) <= VarInt.MAX_VARINT
    ensures Writable(SlotProps(slots))
    ensures var size := BlockSize(slots, users, reason, limit);
            && VarInt.FromSize(size) == BlockLen(slots, users, reason, limit)
            && ReachedFit(users, reason, BlockLeft(slots, size))
            && |PutBlock(slots, users, reason, size)| == size
            && GetBlock(table, PutBlock(slots, users, reason, size) + rest)
               == Ok(Read(BlockProps(slots, KeptUsers(users, limit), KeptReason(users, reason, limit)), rest))
  {
    hide GetBlock, PutProps, SlotProps, SlotsSize, SlotsOk, OptSize, PutOptProps, ReachedFit, KeptFits, Suits;
    hide UserProps, ReasonProps, KeptUsers, KeptReason;
    hide VarInt.Put, VarInt.Len, VarInt.FromSize, Weight, Writable, Legal, SlotsFit;
    var size := BlockSize(slots, users, reason, limit);
    SlotPropsWritable(table, slots);
    LeftIsOptSize(slots, users, reason, limit);
    WritePassRecovers(users, reason, limit);
    var kept := KeptProps(users, reason, limit);
    PutPropsConcat(SlotProps(slots), kept);
    WeightAppend(SlotProps(slots), kept);
    var ps := BlockProps(slots, KeptUsers(users, limit), KeptReason(users, reason, limit));
    assert ps == SlotProps(slots) + kept;
    assert PutBlock(slots, users, reason, size) == VarInt.Put(VarInt.FromSize(size)) + PutProps(ps);
    KeptReasonSome(users, reason, limit);
    BlockLegal(table, slots, KeptUsers(users, limit), KeptReason(users, reason, limit));
    BlockRoundTrip(table, ps, rest);
  }

  /** The size of the whole block tells the write pass how many bytes the size pass gave to the optional properties. */
  lemma LeftIsOptSize(slots: seq<Slot>, users: seq<UserProp>, reason: Option<Str>, limit: nat)
    requires Writable(SlotProps(slots)) && Weight(SlotProps(slots)) == SlotsSize(slots)
    requires BlockLen(slots, users, reason, limit) <= VarInt.MAX_VARINT
    ensures var size := BlockSize(slots, users, reason, limit);
            && VarInt.FromSize(size) == BlockLen(slots, users, reason, limit)
            && |VarInt.Put(VarInt.FromSize(size))| + VarInt.FromSize(size) == size
            && BlockLeft(slots, size) == OptSize(users, reason, limit)
  {
  }

  lemma KeptReasonSome(users: seq<UserProp>, reason: Option<Str>, limit: nat)
    ensures KeptReason(users, reason, limit).Some? ==> KeptReason(users, reason, limit) == reason
  {
  }
}
