/**
 * The per-year scan over the one-time events, and the mortgage gating that every
 * yearly step applies.
 */
module CashFlows {
  import opened Types

  /** What one event contributes to the scan for `age`: its amount, when it falls due that year and is positive. */
  function Due(e: ExtraEvent, age: int): real
  {
    if e.age == age as real && e.amount > 0.0 then e.amount else 0.0
  }

  /** The sum of the due amounts of `events` at `age`, in list order. */
  function SumDue(events: seq<ExtraEvent>, age: int): real
  {
    if events == [] then 0.0
    else SumDue(events[..|events| - 1], age) + Due(events[|events| - 1], age)
  }

  /** The net one-time cash of a year: due incomes minus due expenses. */
  function NetFlow(incomes: seq<ExtraEvent>, expenses: seq<ExtraEvent>, age: int): real
  {
    SumDue(incomes, age) - SumDue(expenses, age)
  }

  /**
   * The two `forEach` scans: add every due income, subtract every due expense.
   */
  method NetExtraCashFlow(incomes: seq<ExtraEvent>, expenses: seq<ExtraEvent>, age: int) returns (net: real)
    ensures net == NetFlow(incomes, expenses, age)
  {
    net := 0.0;
    var i := 0;
    while i < |incomes|
      invariant 0 <= i <= |incomes|
      invariant net == SumDue(incomes[..i], age)
    {
      assert incomes[..i + 1][..i] == incomes[..i];
      if incomes[i].age == age as real && incomes[i].amount > 0.0 {
        net := net + incomes[i].amount;
      }
      i := i + 1;
    }
    assert incomes[..i] == incomes;
    var j := 0;
    while j < |expenses|
      invariant 0 <= j <= |expenses|
      invariant net == SumDue(incomes, age) - SumDue(expenses[..j], age)
    {
      assert expenses[..j + 1][..j] == expenses[..j];
      if expenses[j].age == age as real && expenses[j].amount > 0.0 {
        net := net - expenses[j].amount;
      }
      j := j + 1;
    }
    assert expenses[..j] == expenses;
  }

  /** Due amounts are never negative, so neither is their sum. */
  lemma {:induction false} SumDueNonNegative(events: seq<ExtraEvent>, age: int)
    ensures SumDue(events, age) >= 0.0
  {
    if events != [] {
      SumDueNonNegative(events[..|events| - 1], age);
    }
  }

  /** Scanning a concatenation is adding the two scans. */
  lemma {:induction false} SumDueAppend(a: seq<ExtraEvent>, b: seq<ExtraEvent>, age: int)
    ensures SumDue(a + b, age) == SumDue(a, age) + SumDue(b, age)
    decreases |b|
  {
    if b != [] {
      var b' := b[..|b| - 1];
      assert (a + b)[..|a + b| - 1] == a + b';
      SumDueAppend(a, b', age);
    } else {
      assert a + b == a;
    }
  }

  /** The order of the events does not change the scan: any reordering of the list gives the same flow. */
  lemma {:induction false} SumDuePermutation(a: seq<ExtraEvent>, b: seq<ExtraEvent>, age: int)
    requires multiset(a) == multiset(b)
    ensures SumDue(a, age) == SumDue(b, age)
    decreases |a|
  {
    if a == [] {
      assert |b| == |multiset(b)| == 0;
    } else {
      var x := a[|a| - 1];
      var a' := a[..|a| - 1];
      assert a == a' + [x];
      assert x in multiset(b);
      var i :| 0 <= i < |b| && b[i] == x;
      var b' := b[..i] + b[i + 1..];
      assert b == b[..i] + [x] + b[i + 1..];
      assert multiset(a') == multiset(a) - multiset{x};
      assert multiset(b') == multiset(b) - multiset{x} by {
        assert multiset(b) == multiset(b[..i]) + multiset{x} + multiset(b[i + 1..]);
      }
      SumDuePermutation(a', b', age);
      SumDueAppend(b[..i] + [x], b[i + 1..], age);
      SumDueAppend(b[..i], [x], age);
      SumDueAppend(b[..i], b[i + 1..], age);
      SumDueSingle(x, age);
    }
  }

  /** A list of one event contributes that event's amount exactly when it is due and positive. */
  lemma SumDueSingle(e: ExtraEvent, age: int)
    ensures SumDue([e], age) == (if e.age == age as real && e.amount > 0.0 then e.amount else 0.0)
  {
    assert [e][..0] == [];
  }

  /** Events at other ages, or with a non-positive amount, contribute nothing. */
  lemma {:induction false} SumDueNoneDue(events: seq<ExtraEvent>, age: int)
    requires forall k :: 0 <= k < |events| ==> events[k].age != age as real || events[k].amount <= 0.0
    ensures SumDue(events, age) == 0.0
  {
    if events != [] {
      SumDueNoneDue(events[..|events| - 1], age);
    }
  }

  /** Adding an event that is not due at `age` does not change the flow of that year. */
  lemma SumDueIgnores(events: seq<ExtraEvent>, e: ExtraEvent, age: int)
    requires e.age != age as real || e.amount <= 0.0
    ensures SumDue(events + [e], age) == SumDue(events, age)
    ensures SumDue([e] + events, age) == SumDue(events, age)
  {
    SumDueAppend(events, [e], age);
    SumDueAppend([e], events, age);
    SumDueSingle(e, age);
  }

  /** The mortgage is paid in every year up to and including `endAge`, and never after. */
  function MortgageDue(mortgage: real, endAge: int, age: int): real
  {
    if age <= endAge then mortgage else 0.0
  }
}
