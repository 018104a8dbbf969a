/**
  The simple form of the reorder buffer: no queue, no base and no indices. Answers are kept by the
  number of their call, and the writer is given the longest answered prefix of the calls.
 */
module OrderedAnswers {
  import opened Wrappers
  import opened Words
  import Reorder

  datatype Answers<T> = Answers(calls: nat, slot: Option<nat>, spawned: set<nat>, results: map<nat, T>)

  function Init<T>(): Answers<T> {
    Answers(0, None, {}, map[])
  }

  function Written<T>(a: Answers<T>): seq<T> {
    Reorder.AnsweredPrefix(a.results, 0, a.calls)
  }

  /** Calls are limited only by the word that addresses the unwritten ones. */
  predicate Enabled<T>(a: Answers<T>, e: Reorder.Event<T>) {
    match e
    case CallInline(_) => a.slot.None? && a.calls - |Written(a)| + 1 < USIZE
    case CallPending => a.calls - |Written(a)| + 1 < USIZE
    case CompleteSlot(_) => a.slot.Some?
    case CompleteSpawned(k, _) => k in a.spawned
  }

  function Next<T>(a: Answers<T>, e: Reorder.Event<T>): Answers<T>
    requires Enabled(a, e)
  {
    match e
    case CallInline(res) => a.(calls := a.calls + 1, results := a.results[a.calls := res])
    case CallPending =>
      if a.slot.None? then a.(calls := a.calls + 1, slot := Some(a.calls))
      else a.(calls := a.calls + 1, spawned := a.spawned + {a.calls})
    case CompleteSlot(res) => a.(slot := None, results := a.results[a.slot.value := res])
    case CompleteSpawned(k, res) => a.(spawned := a.spawned - {k}, results := a.results[k := res])
  }

  function Run<T>(es: seq<Reorder.Event<T>>): Option<Answers<T>> {
    if es == [] then Some(Init())
    else
      var a := Run(es[..|es| - 1]);
      var e := es[|es| - 1];
      if a.Some? && Enabled(a.value, e) then Some(Next(a.value, e)) else None
  }

  /** What the buffer stands for. */
  function Meaning<T>(s: Reorder.Dispatch<T>): Answers<T> {
    Answers(s.calls, s.slot, s.spawned.Keys, s.results)
  }

  lemma WrittenMeans<T>(s: Reorder.Dispatch<T>)
    requires Reorder.Inv(s)
    ensures Written(Meaning(s)) == s.written && |s.buf.queue| == s.calls - |s.written|
  {
    if |s.written| < s.calls {
      assert Reorder.CellOf(s, |s.written|).Pending?;
    }
    Reorder.AnsweredPrefixIs(s.results, 0, s.calls, s.written);
  }

  lemma EnabledMeans<T>(s: Reorder.Dispatch<T>, e: Reorder.Event<T>)
    requires Reorder.Inv(s)
    ensures Reorder.Enabled(s, e) <==> Enabled(Meaning(s), e)
  {
    WrittenMeans(s);
    if e.CompleteSlot? && s.slot.Some? {
      Reorder.IndexReachesCell(s, s.slot.value);
    } else if e.CompleteSpawned? && e.call in s.spawned {
      Reorder.IndexReachesCell(s, e.call);
    }
  }

  lemma NextMeans<T>(s: Reorder.Dispatch<T>, e: Reorder.Event<T>)
    requires Reorder.Enabled(s, e) && Enabled(Meaning(s), e)
    ensures Meaning(Reorder.Next(s, e)) == Next(Meaning(s), e)
  {
    hide Reorder.Handled, Written;
  }

  /**
    Refinement: the buffer with its wrapping base can do exactly what the simple form can, event by event, ends
    with the same unfinished calls and answers, and has written what the simple form writes.
   */
  lemma {:induction false} Refines<T>(es: seq<Reorder.Event<T>>)
    ensures Run(es).Some? <==> Reorder.Run(es).Some?
    ensures Run(es).Some? ==>
              && Run(es).value == Meaning(Reorder.Run(es).value)
              && Written(Run(es).value) == Reorder.Run(es).value.written
  {
    hide Reorder.Inv, Reorder.Next, Reorder.Enabled, Next, Enabled, Written;
    Reorder.RunKeeps(es);
    if es == [] {
      WrittenMeans(Reorder.Init<T>());
    } else {
      var before, e := es[..|es| - 1], es[|es| - 1];
      Refines(before);
      Reorder.RunKeeps(before);
      if Run(before).Some? {
        EnabledMeans(Reorder.Run(before).value, e);
        if Enabled(Run(before).value, e) {
          NextMeans(Reorder.Run(before).value, e);
        }
      }
      if Reorder.Run(es).Some? { WrittenMeans(Reorder.Run(es).value); }
    }
  }
}
