/**
  The size-limited two-pass encoder of MQTT 5.0 (src/v5/codec/encode.rs:120-171 and 248-272,
  src/v5/codec/packet/mod.rs:116-171). The size pass decides which user properties and
  whether the reason string fit under a limit; the write pass gets only the resulting byte
  count and recovers that decision from it.
 */
module LimitedProps {
  import opened Wrappers
  import opened Bytes
  import opened Props

  // ----- The two passes

  /** Property type byte, key and value. */
  function UserSize(u: UserProp): nat {
    1 + (2 + |u.key|) + (2 + |u.value|)
  }

  /** Bytes of the optional properties that fit under the limit. */
  function OptSize(users: seq<UserProp>, reason: Option<Str>, limit: nat): nat {
    if users == [] then
      (if reason.Some? && 1 + 2 + |reason.value| <= limit then 1 + 2 + |reason.value| else 0)
    else
      var n := UserSize(users[0]);
      if n > limit then 0 else n + OptSize(users[1..], reason, limit - n)
  }

  method EncodedSizeOptProps(users: seq<UserProp>, reason: Option<Str>, limit: nat) returns (len: nat)
    ensures len == OptSize(users, reason, limit)
  {
    len := 0;
    var left: nat := limit;
    for i := 0 to |users|
      invariant len + OptSize(users[i..], reason, left) == OptSize(users, reason, limit)
    {
      var n := UserSize(users[i]);
      if n > left {
        return;
      }
      left := left - n;
      len := len + n;
    }
    if reason.Some? {
      var n := 1 + 2 + |reason.value|;
      if n <= left {
        len := len + n;
      }
    }
  }

  /** All keys and values fit their length bytes. */
  predicate UsersFit(users: seq<UserProp>) {
    forall i :: 0 <= i < |users| ==> Fits(users[i].key) && Fits(users[i].value)
  }

  predicate ReasonFits(reason: Option<Str>) {
    reason.Some? ==> Fits(reason.value)
  }

  function PutUser(u: UserProp): (b: seq<byte>)
    requires Fits(u.key) && Fits(u.value)
    ensures |b| == UserSize(u)
  {
    [USER] + PutBytes(u.key) + PutBytes(u.value)
  }

  /** Every string that the write pass reaches fits its length bytes. */
  predicate ReachedFit(users: seq<UserProp>, reason: Option<Str>, size: nat) {
    if users == [] then reason.Some? && |reason.value| < size ==> Fits(reason.value)
    else
      var n := UserSize(users[0]);
      n > size || (Fits(users[0].key) && Fits(users[0].value) && ReachedFit(users[1..], reason, size - n))
  }

  /** What the write pass writes when it is told to write `size` bytes. */
  function PutOptProps(users: seq<UserProp>, reason: Option<Str>, size: nat): seq<byte>
    requires ReachedFit(users, reason, size)
  {
    if users == [] then
      (if reason.Some? && |reason.value| < size then [REASON_STRING] + PutBytes(reason.value) else [])
    else
      var n := UserSize(users[0]);
      if n > size then [] else PutUser(users[0]) + PutOptProps(users[1..], reason, size - n)
  }

  /** What the write pass leaves in its buffer, or its error. */
  function Written(buf: seq<byte>, users: seq<UserProp>, reason: Option<Str>, size: nat)
    : Result<seq<byte>, EncodeError>
  {
    if ReachedFit(users, reason, size) then Ok(buf + PutOptProps(users, reason, size)) else Err(EncInvalidLength)
  }

  lemma WrittenStep(buf: seq<byte>, users: seq<UserProp>, reason: Option<Str>, size: nat)
    requires users != []
    ensures var n := UserSize(users[0]);
            Written(buf, users, reason, size) ==
              if n > size then Ok(buf)
              else if !Fits(users[0].key) || !Fits(users[0].value) then Err(EncInvalidLength)
              else Written(buf + PutUser(users[0]), users[1..], reason, size - n)
  {
    hide UserSize, PutUser;
    assert buf + [] == buf;
    if ReachedFit(users, reason, size) && UserSize(users[0]) <= size {
      var rest := PutOptProps(users[1..], reason, size - UserSize(users[0]));
      assert buf + (PutUser(users[0]) + rest) == buf + PutUser(users[0]) + rest;
    }
  }

  method EncodeOptProps(users: seq<UserProp>, reason: Option<Str>, size: nat)
    returns (r: Result<seq<byte>, EncodeError>)
    ensures r == if ReachedFit(users, reason, size) then Ok(PutOptProps(users, reason, size)) else Err(EncInvalidLength)
  {
    hide UserSize, PutUser, ReachedFit, PutOptProps;
    var buf := [];
    var left: nat := size;
    assert ReachedFit(users, reason, size) ==>
             buf + PutOptProps(users, reason, size) == PutOptProps(users, reason, size);
    for i := 0 to |users|
      invariant Written(buf, users[i..], reason, left) == Written([], users, reason, size)
    {
      var n := UserSize(users[i]);
      WrittenStep(buf, users[i..], reason, left);
      assert users[i..][1..] == users[i + 1..];
      if n > left {
        return Ok(buf);
      }
      if !Fits(users[i].key) || !Fits(users[i].value) {
        return Err(EncInvalidLength);
      }
      buf := buf + PutUser(users[i]);
      left := left - n;
    }
    WrittenReason(buf, reason, left);
    if reason.Some? && |reason.value| < left {
      if !Fits(reason.value) {
        return Err(EncInvalidLength);
      }
      buf := buf + ([REASON_STRING] + PutBytes(reason.value));
    }
    return Ok(buf);
  }

  lemma WrittenReason(buf: seq<byte>, reason: Option<Str>, size: nat)
    ensures Written(buf, [], reason, size) ==
            if reason.None? || |reason.value| >= size then Ok(buf)
            else if !Fits(reason.value) then Err(EncInvalidLength)
            else Ok(buf + ([REASON_STRING] + PutBytes(reason.value)))
  {
    assert buf + [] == buf;
  }

  // ----- What is kept under a limit

  function UsersSize(users: seq<UserProp>): nat {
    if users == [] then 0 else UserSize(users[0]) + UsersSize(users[1..])
  }

  /** How many user properties come before the first that does not fit. */
  function KeptCount(users: seq<UserProp>, limit: nat): (k: nat)
    ensures k <= |users|
  {
    if users == [] || UserSize(users[0]) > limit then 0
    else 1 + KeptCount(users[1..], limit - UserSize(users[0]))
  }

  function KeptUsers(users: seq<UserProp>, limit: nat): seq<UserProp> {
    users[..KeptCount(users, limit)]
  }

  /** The reason string is kept if all user properties are, and it still fits after them. */
  function KeptReason(users: seq<UserProp>, reason: Option<Str>, limit: nat): Option<Str> {
    if reason.Some? && UsersSize(users) + 1 + 2 + |reason.value| <= limit then reason else None
  }

  /** The kept user properties are the longest prefix whose size is within the limit. */
  lemma {:induction false} KeptCountIsLongest(users: seq<UserProp>, limit: nat, k: nat)
    requires k <= |users|
    ensures UsersSize(users[..k]) <= limit <==> k <= KeptCount(users, limit)
  {
    if k > 0 {
      assert users[..k][0] == users[0] && users[..k][1..] == users[1..][..k - 1];
      if UserSize(users[0]) <= limit {
        KeptCountIsLongest(users[1..], limit - UserSize(users[0]), k - 1);
      }
    }
  }

  // ----- The properties as they are written

  function UserProps(users: seq<UserProp>): seq<Prop> {
    if users == [] then [] else [Prop(USER, VPair(users[0].key, users[0].value))] + UserProps(users[1..])
  }

  function ReasonProps(reason: Option<Str>): seq<Prop> {
    if reason.Some? then [Prop(REASON_STRING, VStr(reason.value))] else []
  }

  function KeptProps(users: seq<UserProp>, reason: Option<Str>, limit: nat): seq<Prop> {
    UserProps(KeptUsers(users, limit)) + ReasonProps(KeptReason(users, reason, limit))
  }

  lemma {:induction false} UserPropsWritable(users: seq<UserProp>)
    requires UsersFit(users)
    ensures Writable(UserProps(users)) && Weight(UserProps(users)) == UsersSize(users)
    ensures |UserProps(users)| == |users|
    ensures forall i :: 0 <= i < |users| ==>
              UserProps(users)[i] == Prop(USER, VPair(users[i].key, users[i].value))
  {
    if users != [] {
      UserPropsWritable(users[1..]);
    }
  }

  /** The strings that are kept under a limit fit their length bytes. */
  predicate KeptFits(users: seq<UserProp>, reason: Option<Str>, limit: nat) {
    UsersFit(KeptUsers(users, limit)) && ReasonFits(KeptReason(users, reason, limit))
  }

  lemma KeptFitsStep(users: seq<UserProp>, reason: Option<Str>, limit: nat)
    requires users != [] && UserSize(users[0]) <= limit
    ensures KeptFits(users, reason, limit) <==>
            Fits(users[0].key) && Fits(users[0].value) && KeptFits(users[1..], reason, limit - UserSize(users[0]))
  {
  }

  /** The write pass reaches exactly what is kept: it fails if and only if a kept string is too long. */
  lemma {:induction false} ReachesKept(users: seq<UserProp>, reason: Option<Str>, limit: nat)
    ensures ReachedFit(users, reason, OptSize(users, reason, limit)) <==> KeptFits(users, reason, limit)
    decreases |users|
  {
    hide UserSize, KeptUsers;
    if users == [] {
      assert KeptUsers(users, limit) == [] by { KeptNoUsers(users, limit); }
    } else if UserSize(users[0]) > limit {
      KeptNoUsers(users, limit);
      UserSizePositive(users[0]);
      UsersSizeBound(users);
    } else {
      KeptFitsStep(users, reason, limit);
      ReachesKept(users[1..], reason, limit - UserSize(users[0]));
    }
  }

  lemma {:induction false} OptSizeBound(users: seq<UserProp>, reason: Option<Str>, limit: nat)
    ensures OptSize(users, reason, limit) <= limit
    decreases |users|
  {
    if users != [] && UserSize(users[0]) <= limit {
      OptSizeBound(users[1..], reason, limit - UserSize(users[0]));
    }
  }

  /** The size pass counts nothing exactly if nothing is kept, and a kept property takes at least three bytes. */
  lemma {:induction false} OptSizeZero(users: seq<UserProp>, reason: Option<Str>, limit: nat)
    ensures OptSize(users, reason, limit) == 0 <==>
            KeptUsers(users, limit) == [] && KeptReason(users, reason, limit).None?
    ensures OptSize(users, reason, limit) == 0 || OptSize(users, reason, limit) >= 3
  {
    hide UserSize, KeptUsers;
    if users == [] {
      KeptNoUsers(users, limit);
    } else {
      UserSizePositive(users[0]);
      UsersSizeBound(users);
      if UserSize(users[0]) > limit { KeptNoUsers(users, limit); } else { KeptSomeUsers(users, limit); }
    }
  }

  lemma KeptSomeUsers(users: seq<UserProp>, limit: nat)
    requires users != [] && UserSize(users[0]) <= limit
    ensures KeptUsers(users, limit) != []
  {
  }

  lemma KeptNoUsers(users: seq<UserProp>, limit: nat)
    requires users == [] || UserSize(users[0]) > limit
    ensures KeptUsers(users, limit) == []
  {
  }

  lemma UserSizePositive(u: UserProp)
    ensures UserSize(u) >= 5
  {
  }

  lemma UsersSizeBound(users: seq<UserProp>)
    requires users != []
    ensures UserSize(users[0]) <= UsersSize(users)
  {
  }

  lemma PutPropsUser(u: UserProp, ps: seq<Prop>)
    requires Fits(u.key) && Fits(u.value) && Writable(ps)
    ensures Writable([Prop(USER, VPair(u.key, u.value))] + ps)
    ensures PutProps([Prop(USER, VPair(u.key, u.value))] + ps) == PutUser(u) + PutProps(ps)
  {
  }

  lemma KeptStep(users: seq<UserProp>, reason: Option<Str>, limit: nat)
    requires users != [] && UserSize(users[0]) <= limit
    ensures KeptProps(users, reason, limit)
         == [Prop(USER, VPair(users[0].key, users[0].value))]
            + KeptProps(users[1..], reason, limit - UserSize(users[0]))
  {
    var rest := limit - UserSize(users[0]);
    assert KeptUsers(users, limit)[1..] == KeptUsers(users[1..], rest);
    assert KeptReason(users, reason, limit) == KeptReason(users[1..], reason, rest);
  }

  lemma KeptNone(users: seq<UserProp>, reason: Option<Str>, limit: nat)
    requires users != [] && UserSize(users[0]) > limit
    ensures KeptProps(users, reason, limit) == []
  {
  }

  lemma PairSize(u: UserProp)
    ensures 1 + ValSize(VPair(u.key, u.value)) == UserSize(u)
  {
  }

  lemma WriteReasonOnly(users: seq<UserProp>, reason: Option<Str>, limit: nat)
    requires users == [] && KeptFits(users, reason, limit)
    ensures ReachedFit(users, reason, OptSize(users, reason, limit))
    ensures Writable(KeptProps(users, reason, limit))
    ensures PutOptProps(users, reason, OptSize(users, reason, limit)) == PutProps(KeptProps(users, reason, limit))
    ensures Weight(KeptProps(users, reason, limit)) == OptSize(users, reason, limit) <= limit
  {
  }

  /**
    The write pass recovers the size pass: told to write as many bytes as the size pass
    counted, it writes exactly that many, and they are the properties kept under the limit.
   */
  lemma {:induction false} WritePassRecovers(users: seq<UserProp>, reason: Option<Str>, limit: nat)
    requires KeptFits(users, reason, limit)
    ensures ReachedFit(users, reason, OptSize(users, reason, limit))
    ensures Writable(KeptProps(users, reason, limit))
    ensures PutOptProps(users, reason, OptSize(users, reason, limit)) == PutProps(KeptProps(users, reason, limit))
    ensures Weight(KeptProps(users, reason, limit)) == OptSize(users, reason, limit) <= limit
    decreases |users|
  {
    hide KeptProps, KeptFits, PutUser, PutBytes, PutVal, ValSize, UserSize;
    ReachesKept(users, reason, limit);
    if users == [] {
      WriteReasonOnly(users, reason, limit);
    } else if UserSize(users[0]) > limit {
      KeptNone(users, reason, limit);
    } else {
      var rest := limit - UserSize(users[0]);
      KeptFitsStep(users, reason, limit);
      WritePassRecovers(users[1..], reason, rest);
      KeptStep(users, reason, limit);
      PutPropsUser(users[0], KeptProps(users[1..], reason, rest));
      var p := Prop(USER, VPair(users[0].key, users[0].value));
      assert ([p] + KeptProps(users[1..], reason, rest))[1..] == KeptProps(users[1..], reason, rest);
      PairSize(users[0]);
    }
  }
}
