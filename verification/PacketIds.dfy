/** The packet-identifier generator of the outgoing sinks (src/v3/shared.rs, src/v5/shared.rs). */
module PacketIds {

  const IDS: int := 65535

  type PacketId = x: int | 1 <= x <= 65535 witness 1

  /** The generator's cell: it is reset to 0 instead of ever holding 65535. */
  type Counter = x: int | 0 <= x < 65535

  /** The generated identifier and the new value of the cell. */
  function NextId(counter: Counter): (PacketId, Counter) {
    var idx := counter + 1;
    if idx == 65535 then (65535, 0) else (idx, idx)
  }

  /** The identifier that the generator returns after having returned `n` others. */
  function Generated(n: nat): PacketId {
    n % IDS + 1
  }

  lemma NextIdGenerates(n: nat)
    ensures NextId(n % IDS) == (Generated(n), (n + 1) % IDS)
  {
  }

  /** An identifier comes again exactly after every 65535 others. */
  lemma GeneratedRepeats(m: nat, n: nat)
    ensures Generated(m) == Generated(n) <==> (n - m) % IDS == 0
    ensures m < n <= m + IDS ==> (Generated(m) == Generated(n) <==> n == m + IDS)
  {
    var qm, qn := m / IDS, n / IDS;
    assert m == qm * IDS + m % IDS && n == qn * IDS + n % IDS;
    assert n - m == (qn - qm) * IDS + (n % IDS - m % IDS);
  }

  /** Every identifier comes among any 65535 consecutive ones. */
  lemma GeneratedCovers(start: nat, id: PacketId) returns (n: nat)
    ensures start <= n < start + IDS && Generated(n) == id
  {
    n := start + (id - 1 - start) % IDS;
    assert n % IDS == (id - 1) % IDS;
  }
}
