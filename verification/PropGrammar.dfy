/** The language of MQTT 5.0 property blocks: which bytes a packet's property loop takes for which properties. */
module PropGrammar {
  import opened Wrappers
  import opened Words
  import opened Bytes
  import opened Props
  import VarInt

  /** A value that a property of this kind can have; identifiers are variable byte integers other than zero. */
  predicate Typed(k: Kind, v: Val) {
    if k.KId? || k.KIds? then v.VVar? && v.n <= VarInt.MAX_VARINT else Suits(k, v)
  }

  /** What is left of bytes that start with a value; an identifier may be written longer than needed. */
  function After(src: seq<byte>, v: Val): (r: Option<seq<byte>>)
    ensures r.Some? ==> |r.value| <= |src|
  {
    if v.VVar? then
      match VarInt.Get(src)
      case Err(_) => None
      case Ok(Read(n, rest)) => if n == v.n then Some(rest) else None
    else if ValFits(v) && PutVal(v) <= src then Some(src[ValSize(v)..])
    else None
  }

  /** The bytes are the properties one after the other, each behind its type byte. */
  predicate PropsForm(src: seq<byte>, ps: seq<Prop>)
    decreases |ps|
  {
    if ps == [] then src == []
    else
      && src != [] && src[0] == ps[0].id
      && After(src[1..], ps[0].val).Some? && PropsForm(After(src[1..], ps[0].val).value, ps[1..])
  }

  /** Properties of the table with values of their kinds, each single one once and not among those before. */
  ghost predicate Allowed(table: Table, acc: seq<Prop>, ps: seq<Prop>) {
    && (forall i :: 0 <= i < |ps| ==> ps[i].id in table && Typed(table[ps[i].id], ps[i].val))
    && (forall i, j :: 0 <= i < j < |ps| && ps[i].id == ps[j].id ==> Repeats(table[ps[i].id]))
    && (forall i :: 0 <= i < |ps| && Has(acc, ps[i].id) ==> Repeats(table[ps[i].id]))
  }

  /** A length, that many bytes of properties, and the rest. */
  ghost predicate BlockForm(table: Table, src: seq<byte>, ps: seq<Prop>, rest: seq<byte>) {
    match VarInt.Get(src)
    case Err(_) => false
    case Ok(Read(n, r)) => n <= |r| && PropsForm(r[..n], ps) && Allowed(table, [], ps) && r[n..] == rest
  }

  // ----- Values

  lemma WordsLanguage(src: seq<byte>, v: Val, rest: seq<byte>)
    requires v.VU16? || v.VU32?
    ensures v.VU16? ==> (GetU16(src) == Ok(Read(v.n16, rest)) <==> After(src, v) == Some(rest))
    ensures v.VU32? ==> (GetU32(src) == Ok(Read(v.n32, rest)) <==> After(src, v) == Some(rest))
  {
    hide GetU16, GetU32, PutU16, PutU32;
    if v.VU16? {
      if GetU16(src).Ok? { U16Inverse(src); }
      if After(src, v) == Some(rest) { assert src == PutU16(v.n16) + rest; U16RoundTrip(v.n16, rest); }
    } else {
      if GetU32(src).Ok? { U32Inverse(src); }
      if After(src, v) == Some(rest) { assert src == PutU32(v.n32) + rest; U32RoundTrip(v.n32, rest); }
    }
  }

  lemma TextLanguage(src: seq<byte>, v: Val, rest: seq<byte>)
    requires v.VStr? || v.VBin?
    ensures v.VStr? ==> (GetStr(src) == Ok(Read(v.s, rest)) <==> After(src, v) == Some(rest))
    ensures v.VBin? ==> (GetBytes(src) == Ok(Read(v.bin, rest)) <==> After(src, v) == Some(rest))
  {
    hide GetStr, GetBytes, PutBytes;
    if v.VStr? {
      if GetStr(src).Ok? { StrInverse(src); }
      if After(src, v) == Some(rest) { assert src == PutBytes(v.s) + rest; StrRoundTrip(v.s, rest); }
    } else {
      if GetBytes(src).Ok? { BytesInverse(src); }
      if After(src, v) == Some(rest) { assert src == PutBytes(v.bin) + rest; BytesRoundTrip(v.bin, rest); }
    }
  }

  lemma PairLanguage(src: seq<byte>, v: Val, rest: seq<byte>)
    requires v.VPair?
    ensures GetPair(src) == Ok(Read(v, rest)) <==> After(src, v) == Some(rest)
  {
    hide GetStr, PutBytes;
    if GetPair(src) == Ok(Read(v, rest)) {
      StrInverse(src);
      StrInverse(GetStr(src).value.rest);
      assert src == PutVal(v) + rest;
    }
    if After(src, v) == Some(rest) {
      assert src == PutBytes(v.key) + (PutBytes(v.value) + rest);
      StrRoundTrip(v.key, PutBytes(v.value) + rest);
      StrRoundTrip(v.value, rest);
    }
  }

  lemma SmallLanguage(k: Kind, src: seq<byte>, v: Val, rest: seq<byte>)
    requires k.KBool? || k.KQos?
    ensures GetVal(k, src) == Ok(Read(v, rest)) <==> Typed(k, v) && After(src, v) == Some(rest)
  {
  }

  lemma IdLanguage(src: seq<byte>, v: Val, rest: seq<byte>)
    ensures GetId(src) == Ok(Read(v, rest)) <==> Typed(KId, v) && After(src, v) == Some(rest)
  {
    hide VarInt.Get;
    if VarInt.Get(src).Ok? { VarInt.GetBounds(src); }
  }

  lemma ValLanguage(k: Kind, src: seq<byte>, v: Val, rest: seq<byte>)
    ensures GetVal(k, src) == Ok(Read(v, rest)) <==> Typed(k, v) && After(src, v) == Some(rest)
  {
    hide GetU16, GetU32, GetStr, GetBytes, GetPair, GetId, After;
    match k
    case KBool => SmallLanguage(k, src, v, rest);
    case KQos => SmallLanguage(k, src, v, rest);
    case KU16 => if v.VU16? { WordsLanguage(src, v, rest); }
    case KNz16 => if v.VU16? { WordsLanguage(src, v, rest); }
    case KU32 => if v.VU32? { WordsLanguage(src, v, rest); }
    case KNz32 => if v.VU32? { WordsLanguage(src, v, rest); }
    case KStr => if v.VStr? { TextLanguage(src, v, rest); }
    case KBin => if v.VBin? { TextLanguage(src, v, rest); }
    case KId => IdLanguage(src, v, rest);
    case KIds => IdLanguage(src, v, rest);
    case KUser => if v.VPair? { PairLanguage(src, v, rest); } else { NotPair(src); }
  }

  lemma NotPair(src: seq<byte>)
    ensures GetPair(src).Ok? ==> GetPair(src).value.value.VPair?
  {
  }

  // ----- Property loops

  lemma AllowedStep(table: Table, acc: seq<Prop>, ps: seq<Prop>)
    requires ps != []
    ensures Allowed(table, acc, ps) <==>
            && ps[0].id in table && Typed(table[ps[0].id], ps[0].val)
            && (Has(acc, ps[0].id) ==> Repeats(table[ps[0].id]))
            && Allowed(table, acc + [ps[0]], ps[1..])
  {
    var p, tail := ps[0], ps[1..];
    assert ps == [p] + tail;
    forall id ensures Has(acc + [p], id) <==> Has(acc, id) || p.id == id { HasAppend(acc, p, id); }
    if Allowed(table, acc + [p], tail) {
      assert forall i :: 0 < i < |ps| ==> ps[i] == tail[i - 1];
    }
    if Allowed(table, acc, ps) {
      assert forall i :: 0 <= i < |tail| ==> tail[i] == ps[i + 1];
    }
  }

  lemma HasAppend(acc: seq<Prop>, p: Prop, id: byte)
    ensures Has(acc + [p], id) <==> Has(acc, id) || p.id == id
  {
    if Has(acc, id) {
      var i :| 0 <= i < |acc| && acc[i].id == id;
      assert (acc + [p])[i].id == id;
    }
    assert (acc + [p])[|acc|] == p;
  }

  /** The loop extends what it has read. */
  lemma {:induction false} LoopExtends(table: Table, src: seq<byte>, acc: seq<Prop>)
    requires GetProps(table, src, acc).Ok?
    ensures acc <= GetProps(table, src, acc).value
    ensures src != [] ==> |acc| < |GetProps(table, src, acc).value|
    decreases |src|
  {
    hide GetVal;
    if src != [] {
      var Read(v, rest) := GetVal(table[src[0]], src[1..]).value;
      LoopExtends(table, rest, acc + [Prop(src[0], v)]);
    }
  }

  /** The loop accepts exactly the form of the properties that the table allows. */
  lemma {:induction false} PropsLanguage(table: Table, src: seq<byte>, acc: seq<Prop>, ps: seq<Prop>)
    ensures GetProps(table, src, acc) == Ok(acc + ps) <==> Allowed(table, acc, ps) && PropsForm(src, ps)
    decreases |src|
  {
    hide GetVal, After, Allowed;
    if src == [] {
      assert acc + ps == acc <==> ps == [];
      NothingAllowed(table, acc);
    } else if ps == [] {
      assert acc + ps == acc;
      if GetProps(table, src, acc).Ok? { LoopExtends(table, src, acc); }
    } else {
      PropsStep(table, src, acc, ps);
      AllowedStep(table, acc, ps);
      if ps[0].id in table {
        ValForms(table[ps[0].id], src[1..], ps[0].val);
        if After(src[1..], ps[0].val).Some? {
          PropsLanguage(table, After(src[1..], ps[0].val).value, acc + [ps[0]], ps[1..]);
          assert acc + [ps[0]] + ps[1..] == acc + ps;
        }
      }
    }
  }

  lemma NothingAllowed(table: Table, acc: seq<Prop>)
    ensures Allowed(table, acc, [])
  {
  }

  lemma ValForms(k: Kind, src: seq<byte>, v: Val)
    ensures Typed(k, v) && After(src, v).Some? <==> GetVal(k, src).Ok? && GetVal(k, src).value.value == v
    ensures Typed(k, v) && After(src, v).Some? ==> GetVal(k, src).value.rest == After(src, v).value
  {
    hide GetVal, After, Typed;
    if After(src, v).Some? { ValLanguage(k, src, v, After(src, v).value); }
    if GetVal(k, src).Ok? { ValLanguage(k, src, v, GetVal(k, src).value.rest); }
  }

  /** One iteration, told by the property that it must read. */
  lemma PropsStep(table: Table, src: seq<byte>, acc: seq<Prop>, ps: seq<Prop>)
    requires src != [] && ps != []
    ensures GetProps(table, src, acc) == Ok(acc + ps) <==>
            && src[0] == ps[0].id && ps[0].id in table && (Has(acc, ps[0].id) ==> Repeats(table[ps[0].id]))
            && GetVal(table[ps[0].id], src[1..]).Ok? && GetVal(table[ps[0].id], src[1..]).value.value == ps[0].val
            && GetProps(table, GetVal(table[ps[0].id], src[1..]).value.rest, acc + [ps[0]]) == Ok(acc + ps)
  {
    hide GetVal;
    if GetProps(table, src, acc) == Ok(acc + ps) {
      var Read(v, rest) := GetVal(table[src[0]], src[1..]).value;
      var p := Prop(src[0], v);
      LoopExtends(table, rest, acc + [p]);
      assert (acc + ps)[|acc|] == ps[0];
      assert (acc + [p])[|acc|] == p;
    }
  }

  lemma BlockLanguage(table: Table, src: seq<byte>, ps: seq<Prop>, rest: seq<byte>)
    ensures GetBlock(table, src) == Ok(Read(ps, rest)) <==> BlockForm(table, src, ps, rest)
  {
    hide GetProps, PropsForm, Allowed, VarInt.Get;
    match VarInt.Get(src)
    case Err(_) =>
    case Ok(Read(n, r)) =>
      if n <= |r| {
        PropsLanguage(table, r[..n], [], ps);
        assert [] + ps == ps;
      }
  }

  /** What a reader finds in a block is of the property's kind. */
  lemma FoundTyped(table: Table, ps: seq<Prop>, id: byte)
    requires Allowed(table, [], ps) && id in table
    ensures Find(ps, id).Some? ==> Typed(table[id], Find(ps, id).value)
  {
    FindMeans(ps, id);
    if Find(ps, id).Some? {
      var i :| 0 <= i < |ps| && ps[i] == Prop(id, Find(ps, id).value);
    }
  }
}
