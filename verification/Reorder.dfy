/**
  The response reorder buffer of the framed dispatcher (src/io.rs).

  Requests are handed to the service in arrival order and complete in any order:
  inline, in the dispatcher's single response slot, or in a spawned task. The buffer
  holds one cell per unanswered request and is addressed by a wrapping base counter.
 */
module Reorder {
  import opened Wrappers
  import opened Words

  datatype Cell<T> = Pending | Ready(result: T)

  datatype Buffer<T> = Buffer(base: usize, queue: seq<Cell<T>>)

  /** The results at the front of the queue that may be written at once. */
  function ReadyPrefix<T>(q: seq<Cell<T>>): (r: seq<T>)
    ensures |r| <= |q|
    ensures forall i :: 0 <= i < |r| ==> q[i] == Ready(r[i])
    ensures |r| < |q| ==> q[|r|].Pending?
  {
    if q == [] || q[0].Pending? then [] else [q[0].result] + ReadyPrefix(q[1..])
  }

  /** The index names the front of the queue or one of its cells. */
  predicate Addresses<T>(b: Buffer<T>, idx: usize) {
    var i := WrapSub(idx, b.base);
    |b.queue| < USIZE && (i == 0 || i < |b.queue|)
  }

  /** What completing the request addressed by `idx` leaves behind, and what it writes. */
  function Handled<T>(b: Buffer<T>, item: T, idx: usize): (Buffer<T>, seq<T>)
    requires Addresses(b, idx)
  {
    var i := WrapSub(idx, b.base);
    if i == 0 then
      var q := if b.queue == [] then [] else b.queue[1..];
      var ready := ReadyPrefix(q);
      (Buffer(WrapAdd(b.base, 1 + |ready|), q[|ready|..]), [item] + ready)
    else
      (b.(queue := b.queue[i := Ready(item)]), [])
  }

  /**
    A dispatcher between two of its atomic steps. `slot` and `spawned` are the unfinished
    response futures with the index each was given; `calls`, `results` and `written`
    record the history: how many requests were dispatched, what each answered, and what
    was handed to the writer.
   */
  datatype Dispatch<T> = Dispatch(
    buf: Buffer<T>,
    slot: Option<nat>,
    slotIdx: usize,
    spawned: map<nat, usize>,
    calls: nat,
    results: map<nat, T>,
    written: seq<T>)
  {
    function Outstanding(): set<nat> {
      spawned.Keys + if slot.Some? then {slot.value} else {}
    }

    function IndexOf(k: nat): usize
      requires k in Outstanding()
    {
      if k in spawned then spawned[k] else slotIdx
    }
  }

  function Init<T>(): Dispatch<T> {
    Dispatch(Buffer(0, []), None, 0, map[], 0, map[], [])
  }

  datatype Event<T> =
    | CallInline(res: T)                    // answered by the poll made right after the call
    | CallPending                           // left in the free slot, or spawned if it is taken
    | CompleteSlot(res: T)
    | CompleteSpawned(call: nat, res: T)

  predicate Enabled<T>(s: Dispatch<T>, e: Event<T>) {
    match e
    case CallInline(_) => s.slot.None? && |s.buf.queue| + 1 < USIZE
    case CallPending => |s.buf.queue| + 1 < USIZE
    case CompleteSlot(_) => s.slot.Some? && Addresses(s.buf, s.slotIdx)
    case CompleteSpawned(k, _) => k in s.spawned && Addresses(s.buf, s.spawned[k])
  }

  /** The index given to the next request: one past the last cell. */
  function NextIndex<T>(b: Buffer<T>): usize
    requires |b.queue| < USIZE
  {
    WrapAdd(b.base, |b.queue|)
  }

  function Complete<T>(s: Dispatch<T>, k: nat, idx: usize, res: T): Dispatch<T>
    requires Addresses(s.buf, idx)
  {
    var (b, out) := Handled(s.buf, res, idx);
    s.(buf := b, results := s.results[k := res], written := s.written + out)
  }

  function Next<T>(s: Dispatch<T>, e: Event<T>): Dispatch<T>
    requires Enabled(s, e)
  {
    match e
    case CallInline(res) =>
      var s1 := s.(calls := s.calls + 1, results := s.results[s.calls := res]);
      if s.buf.queue == [] then
        s1.(written := s.written + [res])
      else
        s1.(buf := s.buf.(queue := s.buf.queue + [Ready(res)]), slotIdx := NextIndex(s.buf))
    case CallPending =>
      var s1 := s.(calls := s.calls + 1, buf := s.buf.(queue := s.buf.queue + [Pending]));
      if s.slot.None? then
        s1.(slot := Some(s.calls), slotIdx := NextIndex(s.buf))
      else
        s1.(spawned := s.spawned[s.calls := NextIndex(s.buf)])
    case CompleteSlot(res) =>
      Complete(s, s.slot.value, s.slotIdx, res).(slot := None)
    case CompleteSpawned(k, res) =>
      Complete(s, k, s.spawned[k], res).(spawned := s.spawned - {k})
  }

  /** The state after a sequence of events, or None if one of them could not happen. */
  function Run<T>(es: seq<Event<T>>): Option<Dispatch<T>> {
    if es == [] then Some(Init())
    else
      var s := Run(es[..|es| - 1]);
      var e := es[|es| - 1];
      if s.Some? && Enabled(s.value, e) then Some(Next(s.value, e)) else None
  }

  // ----- The invariant: every unfinished future owns exactly one pending cell

  /** Every call is either written or has a cell. */
  ghost predicate Counted<T>(s: Dispatch<T>) {
    && s.calls == |s.written| + |s.buf.queue|
    && |s.buf.queue| < USIZE
    && (forall k :: k in s.Outstanding() ==> |s.written| <= k < s.calls)
    && (s.slot.Some? ==> s.slot.value !in s.spawned)
  }

  /** The cell of a call that is not written yet. */
  ghost function CellOf<T>(s: Dispatch<T>, k: nat): Cell<T>
    requires Counted(s) && |s.written| <= k < s.calls
  {
    s.buf.queue[k - |s.written|]
  }

  ghost predicate Owned<T>(s: Dispatch<T>)
    requires Counted(s)
  {
    forall k :: |s.written| <= k < s.calls ==> (CellOf(s, k).Pending? <==> k in s.Outstanding())
  }

  ghost predicate Indexed<T>(s: Dispatch<T>)
    requires Counted(s)
  {
    forall k :: k in s.Outstanding() ==> s.IndexOf(k) == WrapAdd(s.buf.base, k - |s.written|)
  }

  ghost predicate Kept<T>(s: Dispatch<T>)
    requires Counted(s)
  {
    && (forall k: nat :: k in s.results <==> k < s.calls && k !in s.Outstanding())
    && (forall k :: 0 <= k < |s.written| ==> s.written[k] == s.results[k])
    && (forall k :: |s.written| <= k < s.calls && k in s.results ==> CellOf(s, k) == Ready(s.results[k]))
  }

  ghost predicate FrontPending<T>(s: Dispatch<T>) {
    s.buf.queue != [] ==> s.buf.queue[0].Pending?
  }

  ghost predicate Inv<T>(s: Dispatch<T>) {
    Counted(s) && Owned(s) && Indexed(s) && Kept(s) && FrontPending(s)
  }

  /** A request answered at once while nothing is queued is written at once. */
  lemma CallWrittenKeeps<T>(s: Dispatch<T>, res: T)
    requires Inv(s) && Enabled(s, CallInline(res)) && s.buf.queue == []
    ensures Inv(Next(s, CallInline(res)))
  {
    var s' := Next(s, CallInline(res));
    assert s'.Outstanding() == s.Outstanding() == {};
    assert Counted(s');
  }

  lemma CallQueuedKeeps<T>(s: Dispatch<T>, res: T)
    requires Inv(s) && Enabled(s, CallInline(res)) && s.buf.queue != []
    ensures Inv(Next(s, CallInline(res)))
  {
    var s' := Next(s, CallInline(res));
    assert s.calls !in s.Outstanding() && s'.Outstanding() == s.Outstanding() == s.spawned.Keys;
    assert Counted(s');
    assert forall k :: |s.written| <= k < s.calls ==> CellOf(s', k) == CellOf(s, k);
    assert CellOf(s', s.calls) == Ready(res);
  }

  lemma CallPendingIndexed<T>(s: Dispatch<T>)
    requires Counted(s) && Indexed(s) && Enabled(s, CallPending)
    ensures Counted(Next(s, CallPending)) && Indexed(Next(s, CallPending))
    ensures s.calls !in s.Outstanding() && Next(s, CallPending).Outstanding() == s.Outstanding() + {s.calls}
  {
    hide WrapAdd;
    var s' := Next(s, CallPending);
    assert s.calls !in s.Outstanding() && s'.Outstanding() == s.Outstanding() + {s.calls};
    assert forall k :: k in s.Outstanding() ==> s'.IndexOf(k) == s.IndexOf(k);
    assert s'.IndexOf(s.calls) == NextIndex(s.buf);
  }

  lemma CallPendingKeeps<T>(s: Dispatch<T>)
    requires Inv(s) && Enabled(s, CallPending)
    ensures Inv(Next(s, CallPending))
  {
    hide Indexed, NextIndex;
    CallPendingIndexed(s);
    var s' := Next(s, CallPending);
    assert forall k :: |s.written| <= k < s.calls ==> CellOf(s', k) == CellOf(s, k);
    assert CellOf(s', s.calls) == Pending;
  }

  /** An unfinished future's index leads to its own cell. */
  lemma IndexReachesCell<T>(s: Dispatch<T>, k: nat)
    requires Inv(s) && k in s.Outstanding()
    ensures WrapSub(s.IndexOf(k), s.buf.base) == k - |s.written| < |s.buf.queue|
    ensures Addresses(s.buf, s.IndexOf(k))
  {
  }

  /** `s'` is `s` after unfinished call `k` answered `res`. */
  ghost predicate Completes<T>(s: Dispatch<T>, s': Dispatch<T>, k: nat, res: T)
    requires k in s.Outstanding()
  {
    && Addresses(s.buf, s.IndexOf(k))
    && s'.Outstanding() == s.Outstanding() - {k}
    && s'.spawned == s.spawned - {k}
    && (s'.slot == s.slot || s'.slot.None?)
    && s' == Complete(s, k, s.IndexOf(k), res).(slot := s'.slot, spawned := s'.spawned)
  }

  lemma CompleteBehind<T>(s: Dispatch<T>, s': Dispatch<T>, k: nat, res: T)
    requires Inv(s) && k in s.Outstanding() && k != |s.written|
    requires Completes(s, s', k, res)
    ensures Inv(s')
  {
    hide Indexed, Owned, Kept;
    IndexReachesCell(s, k);
    assert s'.buf == s.buf.(queue := s.buf.queue[k - |s.written| := Ready(res)]);
    assert s'.written == s.written + [] == s.written;
    BehindIndexed(s, s', k);
    BehindKept(s, s', k, res);
  }

  lemma BehindKept<T>(s: Dispatch<T>, s': Dispatch<T>, k: nat, res: T)
    requires Counted(s) && Owned(s) && Kept(s) && Counted(s') && k in s.Outstanding() && k != |s.written|
    requires s'.buf.queue == s.buf.queue[k - |s.written| := Ready(res)]
    requires s'.Outstanding() == s.Outstanding() - {k} && s'.results == s.results[k := res]
    requires s'.written == s.written && s'.calls == s.calls
    ensures Owned(s') && Kept(s')
  {
    assert forall j :: |s.written| <= j < s.calls ==> CellOf(s', j) == if j == k then Ready(res) else CellOf(s, j);
  }

  lemma BehindIndexed<T>(s: Dispatch<T>, s': Dispatch<T>, k: nat)
    requires Counted(s) && Indexed(s) && k in s.Outstanding()
    requires s'.Outstanding() == s.Outstanding() - {k} && s'.spawned == s.spawned - {k}
    requires s'.slot == s.slot || s'.slot.None?
    requires s'.buf.base == s.buf.base && |s'.buf.queue| == |s.buf.queue| && s'.slotIdx == s.slotIdx
    requires s'.written == s.written && s'.calls == s.calls
    ensures Counted(s') && Indexed(s')
  {
  }

  lemma HandledFront<T>(b: Buffer<T>, item: T, idx: usize) returns (out: seq<T>)
    requires Addresses(b, idx) && WrapSub(idx, b.base) == 0 && b.queue != []
    ensures 1 <= |out| <= |b.queue| && out[0] == item
    ensures Handled(b, item, idx) == (Buffer(WrapAdd(b.base, |out|), b.queue[|out|..]), out)
    ensures forall i :: 0 < i < |out| ==> b.queue[i] == Ready(out[i])
    ensures |out| < |b.queue| ==> b.queue[|out|].Pending?
  {
    var q := b.queue[1..];
    out := [item] + ReadyPrefix(q);
    assert b.queue[|out|..] == q[|ReadyPrefix(q)|..];
    assert forall i :: 0 < i < |out| ==> b.queue[i] == q[i - 1];
  }

  /** `s'` has written `out`, the answers of call `k` and of those right behind it. */
  ghost predicate WroteFront<T>(s: Dispatch<T>, s': Dispatch<T>, k: nat, out: seq<T>)
  {
    && 1 <= |out| <= |s.buf.queue| < USIZE
    && s'.buf == Buffer(WrapAdd(s.buf.base, |out|), s.buf.queue[|out|..])
    && s'.written == s.written + out
    && s'.calls == s.calls
    && s'.Outstanding() == s.Outstanding() - {k}
    && s'.results == s.results[k := out[0]]
    && (forall i :: 0 < i < |out| ==> s.buf.queue[i] == Ready(out[i]))
    && (|out| < |s.buf.queue| ==> s.buf.queue[|out|].Pending?)
  }

  /** Completing the first unwritten call writes it and every answered call right behind it. */
  lemma CompleteFrontKeeps<T>(s: Dispatch<T>, s': Dispatch<T>, k: nat, res: T)
    requires Inv(s) && k in s.Outstanding() && k == |s.written|
    requires Completes(s, s', k, res)
    ensures Inv(s')
  {
    IndexReachesCell(s, k);
    var out := HandledFront(s.buf, res, s.IndexOf(k));
    assert WroteFront(s, s', k, out);
    assert s'.slot.Some? ==> s'.slot.value !in s'.spawned;
    FrontCounted(s, s', k, out);
    assert forall j :: j in s'.Outstanding() ==> j in s.Outstanding() && s'.IndexOf(j) == s.IndexOf(j);
    FrontIndexed(s, s', k, |out|);
    FrontOwned(s, s', k, out);
    FrontKept(s, s', k, out);
  }

  lemma FrontCounted<T>(s: Dispatch<T>, s': Dispatch<T>, k: nat, out: seq<T>)
    requires Counted(s) && Owned(s) && k == |s.written| && WroteFront(s, s', k, out)
    requires s'.slot.Some? ==> s'.slot.value !in s'.spawned
    ensures Counted(s')
  {
  }

  lemma FrontIndexed<T>(s: Dispatch<T>, s': Dispatch<T>, k: nat, n: nat)
    requires Counted(s) && Indexed(s) && Counted(s') && k == |s.written| && |s'.written| == k + n
    requires n <= |s.buf.queue| && s'.buf.base == WrapAdd(s.buf.base, n) && s'.calls == s.calls
    requires forall j :: j in s'.Outstanding() ==> j in s.Outstanding() && s'.IndexOf(j) == s.IndexOf(j)
    ensures Indexed(s')
  {
  }

  lemma FrontOwned<T>(s: Dispatch<T>, s': Dispatch<T>, k: nat, out: seq<T>)
    requires Counted(s) && Owned(s) && Counted(s') && k == |s.written| && WroteFront(s, s', k, out)
    ensures Owned(s') && FrontPending(s')
  {
  }

  lemma FrontKept<T>(s: Dispatch<T>, s': Dispatch<T>, k: nat, out: seq<T>)
    requires Counted(s) && Owned(s) && Kept(s) && Counted(s')
    requires k == |s.written| && k in s.Outstanding() && WroteFront(s, s', k, out)
    ensures Kept(s')
  {
    assert forall j :: |s'.written| <= j < s.calls ==> CellOf(s', j) == CellOf(s, j);
    forall j | 0 <= j < |s'.written|
      ensures j in s'.results && s'.written[j] == s'.results[j]
    {
      if k < j {
        assert CellOf(s, j) == Ready(out[j - k]);
        assert j !in s.Outstanding();
      }
    }
  }

  lemma NextKeeps<T>(s: Dispatch<T>, e: Event<T>)
    requires Inv(s) && Enabled(s, e)
    ensures Inv(Next(s, e))
  {
    hide Owned, Indexed, Kept, FrontPending, Handled;
    match e
    case CallInline(res) =>
      if s.buf.queue == [] { CallWrittenKeeps(s, res); } else { CallQueuedKeeps(s, res); }
    case CallPending => CallPendingKeeps(s);
    case CompleteSlot(res) =>
      var k := s.slot.value;
      assert k !in s.spawned && s.spawned - {k} == s.spawned;
      if k == |s.written| { CompleteFrontKeeps(s, Next(s, e), k, res); } else { CompleteBehind(s, Next(s, e), k, res); }
    case CompleteSpawned(k, res) =>
      if k == |s.written| { CompleteFrontKeeps(s, Next(s, e), k, res); } else { CompleteBehind(s, Next(s, e), k, res); }
  }

  /** Only the completion of the front cell can empty the queue. */
  lemma SpawnedEffect<T>(s: Dispatch<T>, k: nat, res: T)
    requires Enabled(s, CompleteSpawned(k, res))
    ensures var s' := Next(s, CompleteSpawned(k, res));
            && s'.calls == s.calls
            && (s'.buf.queue == [] ==> WrapSub(s.spawned[k], s.buf.base) == 0)
  {
  }

  /** The writer's log only grows. */
  lemma WrittenGrows<T>(s: Dispatch<T>, e: Event<T>)
    requires Enabled(s, e)
    ensures s.written <= Next(s, e).written
  {
  }

  /** The states of all runs. */
  ghost predicate Reachable<T(!new)>(s: Dispatch<T>) {
    exists es :: Run(es) == Some(s)
  }

  lemma {:induction false} RunKeeps<T>(es: seq<Event<T>>)
    ensures Run(es).Some? ==> Inv(Run(es).value)
  {
    if es != [] && Run(es).Some? {
      RunKeeps(es[..|es| - 1]);
      NextKeeps(Run(es[..|es| - 1]).value, es[|es| - 1]);
    }
  }

  lemma ReachableInv<T(!new)>(s: Dispatch<T>)
    requires Reachable(s)
    ensures Inv(s)
  {
    var es :| Run(es) == Some(s);
    RunKeeps(es);
  }

  // ----- The simple form: write the longest prefix of the calls that are answered

  /** Answers of the calls from `from` on, up to the first unanswered one. */
  function AnsweredPrefix<T>(results: map<nat, T>, from: nat, calls: nat): seq<T>
    decreases calls - from
  {
    if from < calls && from in results then
      [results[from]] + AnsweredPrefix(results, from + 1, calls)
    else []
  }

  lemma {:induction false} AnsweredPrefixIs<T>(results: map<nat, T>, from: nat, calls: nat, out: seq<T>)
    requires from + |out| <= calls
    requires forall k :: from <= k < from + |out| ==> k in results && results[k] == out[k - from]
    requires from + |out| == calls || from + |out| !in results
    ensures AnsweredPrefix(results, from, calls) == out
    decreases |out|
  {
    if out != [] {
      AnsweredPrefixIs(results, from + 1, calls, out[1..]);
    }
  }

  /**
    Refinement: whatever the interleaving of calls and completions, the writer has been
    given exactly the answers of the longest answered prefix of the calls, in call order.
   */
  lemma WritesAreAnsweredPrefix<T(!new)>(s: Dispatch<T>)
    requires Reachable(s)
    ensures s.written == AnsweredPrefix(s.results, 0, s.calls)
  {
    ReachableInv(s);
    if |s.written| < s.calls {
      assert CellOf(s, |s.written|).Pending?;
    }
    AnsweredPrefixIs(s.results, 0, s.calls, s.written);
  }

  /** Whatever future completes, its index is in bounds and names a pending cell of its own. */
  lemma OwnersDistinct<T(!new)>(s: Dispatch<T>, j: nat, k: nat)
    requires Reachable(s) && j in s.Outstanding() && k in s.Outstanding()
    ensures Addresses(s.buf, s.IndexOf(j)) && Addresses(s.buf, s.IndexOf(k))
    ensures var cj := WrapSub(s.IndexOf(j), s.buf.base);
            var ck := WrapSub(s.IndexOf(k), s.buf.base);
            && cj < |s.buf.queue| && s.buf.queue[cj].Pending?
            && (cj == ck <==> j == k)
  {
    ReachableInv(s);
    IndexReachesCell(s, j);
    IndexReachesCell(s, k);
    assert CellOf(s, j).Pending?;
  }

  lemma NoneOutstanding<T>(s: Dispatch<T>)
    requires Inv(s)
    ensures s.buf.queue == [] <==> s.Outstanding() == {}
    ensures s.buf.queue != [] ==> |s.written| in s.Outstanding()
  {
    if |s.written| < s.calls {
      assert CellOf(s, |s.written|).Pending?;
    }
  }

  /** A non-empty queue never starts with a result that could have been written. */
  lemma FrontNeverReady<T(!new)>(s: Dispatch<T>)
    requires Reachable(s)
    ensures s.buf.queue != [] ==> s.buf.queue[0].Pending? && |s.written| in s.Outstanding()
  {
    ReachableInv(s);
    NoneOutstanding(s);
  }

  /** The queue is empty exactly when no future is left, and then every call was answered on the wire. */
  lemma EmptyIffAllWritten<T(!new)>(s: Dispatch<T>)
    requires Reachable(s)
    ensures s.buf.queue == [] <==> s.Outstanding() == {}
    ensures s.buf.queue == [] <==> |s.written| == s.calls
    ensures s.buf.queue == [] ==> forall k :: 0 <= k < s.calls ==> k in s.results && s.written[k] == s.results[k]
  {
    ReachableInv(s);
    NoneOutstanding(s);
  }

  // ----- The buffer as the source keeps it: fields updated in place

  lemma WriteFront<T>(out: seq<T>, q: seq<Cell<T>>)
    requires q != [] && q[0].Ready?
    ensures out + ReadyPrefix(q) == out + [q[0].result] + ReadyPrefix(q[1..])
    ensures |ReadyPrefix(q)| == 1 + |ReadyPrefix(q[1..])|
  {
  }

  class DispatcherState<T> {
    var base: usize
    var queue: seq<Cell<T>>
    var woken: bool       // the dispatcher's task was woken
    var out: seq<T>       // what was handed to the writer, in order

    constructor ()
      ensures Model() == Buffer(0, []) && out == [] && !woken
    {
      base, queue, woken, out := 0, [], false, [];
    }

    function Model(): Buffer<T>
      reads this
    {
      Buffer(base, queue)
    }

    /** Writes every result that has become the first one, in order. */
    method WriteReady()
      requires |queue| < USIZE
      modifies this`base, this`queue, this`out
      ensures var ready := ReadyPrefix(old(queue));
              && Model() == Buffer(WrapAdd(old(base), |ready|), old(queue)[|ready|..])
              && out == old(out) + ready
    {
      ghost var q := queue;
      ghost var n := 0;
      while queue != [] && queue[0].Ready?
        invariant 0 <= n <= |q| && queue == q[n..]
        invariant base == WrapAdd(old(base), n)
        invariant n + |ReadyPrefix(queue)| == |ReadyPrefix(q)|
        invariant out + ReadyPrefix(queue) == old(out) + ReadyPrefix(q)
        decreases |queue|
      {
        WriteFront(out, queue);
        out := out + [queue[0].result];
        queue := queue[1..];
        base := WrapAdd(base, 1);
        n := n + 1;
      }
      assert out + ReadyPrefix(queue) == out;
    }

    /** Takes a result and writes all that may now be written, waking the dispatcher if asked to. */
    method HandleResult(item: T, responseIdx: usize, wake: bool)
      requires Addresses(Model(), responseIdx)
      modifies this
      ensures var (b, written) := Handled(old(Model()), item, responseIdx);
              Model() == b && out == old(out) + written
      ensures woken == (old(woken) || (wake && WrapSub(responseIdx, old(base)) == 0 && queue == []))
    {
      hide ReadyPrefix;
      var idx := WrapSub(responseIdx, base);
      if idx == 0 {
        if queue != [] {
          queue := queue[1..];
        }
        base := WrapAdd(base, 1);
        out := out + [item];
        ghost var ready := ReadyPrefix(queue);
        WriteReady();
        assert out == old(out) + ([item] + ready);
        if wake && queue == [] {
          woken := true;
        }
      } else {
        queue := queue[idx := Ready(item)];
      }
    }
  }
}
