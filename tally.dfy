/** The per-run accounting every stage keeps: the `succeeded`, `skipped`
    and `failed` counters of the shared context object, and the outcome of
    one file. */
module Tally {
  import opened Js

  /** How one file ended. */
  datatype Outcome = Succeeded | Skipped | Failed(error: JsError)

  /** A snapshot of the three counters. */
  datatype Counts = Counts(succeeded: nat, skipped: nat, failed: nat) {
    function Total(): nat { succeeded + skipped + failed }

    /** The counters after one file with outcome `o`. */
    function Add(o: Outcome): (c: Counts)
      ensures c.Total() == Total() + 1
      ensures o.Succeeded? <==> c.succeeded == succeeded + 1
      ensures o.Skipped? <==> c.skipped == skipped + 1
      ensures o.Failed? <==> c.failed == failed + 1
      ensures c.succeeded >= succeeded && c.skipped >= skipped && c.failed >= failed
    {
      match o
      case Succeeded => Counts(succeeded + 1, skipped, failed)
      case Skipped => Counts(succeeded, skipped + 1, failed)
      case Failed(_) => Counts(succeeded, skipped, failed + 1)
    }
  }

  /** The counters after a sequence of outcomes. */
  function AddAll(c: Counts, os: seq<Outcome>): (r: Counts)
    ensures r.Total() == c.Total() + |os|
    decreases |os|
  {
    if os == [] then c else AddAll(c.Add(os[0]), os[1..])
  }

  /** One more outcome moves the counters as one Add does. */
  lemma {:induction false} AddAllSnoc(c: Counts, os: seq<Outcome>, o: Outcome)
    ensures AddAll(c, os + [o]) == AddAll(c, os).Add(o)
    decreases |os|
  {
    if os != [] {
      assert (os + [o])[1..] == os[1..] + [o];
      AddAllSnoc(c.Add(os[0]), os[1..], o);
    }
  }

  /** Counting two runs one after the other is counting their outcomes
      together. */
  lemma {:induction false} AddAllAppend(c: Counts, a: seq<Outcome>, b: seq<Outcome>)
    ensures AddAll(c, a + b) == AddAll(AddAll(c, a), b)
    decreases |a|
  {
    if a != [] {
      assert (a + b)[1..] == a[1..] + b;
      AddAllAppend(c.Add(a[0]), a[1..], b);
    } else {
      assert a + b == b;
    }
  }

  /** The number of outcomes in `os` with property `p`. */
  function CountOf(os: seq<Outcome>, p: Outcome -> bool): (n: nat)
    ensures n <= |os|
    decreases |os|
  {
    if os == [] then 0 else (if p(os[0]) then 1 else 0) + CountOf(os[1..], p)
  }

  /** Each counter counts the outcomes of its kind. */
  lemma {:induction false} AddAllCounts(c: Counts, os: seq<Outcome>)
    ensures AddAll(c, os).succeeded == c.succeeded + CountOf(os, (o: Outcome) => o.Succeeded?)
    ensures AddAll(c, os).skipped == c.skipped + CountOf(os, (o: Outcome) => o.Skipped?)
    ensures AddAll(c, os).failed == c.failed + CountOf(os, (o: Outcome) => o.Failed?)
    decreases |os|
  {
    if os != [] {
      AddAllCounts(c.Add(os[0]), os[1..]);
    }
  }

  /** The outcomes, in order, and the final state of handing `items` one
      by one to `step`, each seeing its position and the state the items
      before it left. This is the loop every stage's main() runs. */
  function Fold<S(!new), I(!new)>(step: (S, nat, I) --> (Outcome, S), st: S, items: seq<I>): (r: (seq<Outcome>, S))
    requires forall t, i, x :: x in items ==> step.requires(t, i, x)
    ensures |r.0| == |items|
    decreases |items|
  {
    if items == [] then ([], st)
    else
      var before := Fold(step, st, items[..|items| - 1]);
      var last := step(before.1, |items| - 1, items[|items| - 1]);
      (before.0 + [last.0], last.1)
  }

  /** One more item handed on. */
  lemma FoldStep<S(!new), I(!new)>(step: (S, nat, I) --> (Outcome, S), st: S, items: seq<I>, i: nat)
    requires forall t, j, x :: x in items ==> step.requires(t, j, x)
    requires i < |items|
    ensures forall t, j, x :: x in items[..i] ==> step.requires(t, j, x)
    ensures var before := Fold(step, st, items[..i]);
      var last := step(before.1, i, items[i]);
      Fold(step, st, items[..i + 1]) == (before.0 + [last.0], last.1)
  {
    assert items[..i + 1][..i] == items[..i];
  }

  /** The outcome of item i is what the step gives it in the state the
      items before it left: how an earlier item ended does not decide
      whether a later one is handed on. */
  lemma {:induction false} FoldAt<S(!new), I(!new)>(step: (S, nat, I) --> (Outcome, S), st: S, items: seq<I>, i: nat)
    requires forall t, j, x :: x in items ==> step.requires(t, j, x)
    requires i < |items|
    ensures forall t, j, x :: x in items[..i] ==> step.requires(t, j, x)
    ensures Fold(step, st, items).0[i] == step(Fold(step, st, items[..i]).1, i, items[i]).0
    decreases |items|
  {
    var init := items[..|items| - 1];
    if i < |items| - 1 {
      FoldAt(step, st, init, i);
      assert init[..i] == items[..i] && init[i] == items[i];
    } else {
      assert init == items[..i];
    }
  }

  /** The counters of the context object the stages share. */
  class Context {
    var succeeded: nat
    var skipped: nat
    var failed: nat

    constructor ()
      ensures Current() == Counts(0, 0, 0)
    {
      succeeded, skipped, failed := 0, 0, 0;
    }

    function Current(): Counts
      reads this
    {
      Counts(succeeded, skipped, failed)
    }

    /** `++context.succeeded`, `++context.skipped` or `++context.failed`. */
    method Record(o: Outcome)
      modifies this
      ensures Current() == old(Current()).Add(o)
    {
      match o
      case Succeeded => succeeded := succeeded + 1;
      case Skipped => skipped := skipped + 1;
      case Failed(_) => failed := failed + 1;
    }
  }
}
