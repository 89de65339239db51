/**
 * The stepper page: a row of numbered step indicators, each classified
 * against the current step, and a pair of buttons that move the current
 * step by one, clamped to [0, NumberOfSteps].
 */
module Stepper {

  /** The visual status of one indicator (the variant names of the page). */
  datatype Status = Checked | Current | Inactive

  /** The number of indicators the page renders. */
  const NumberOfSteps: nat := 4

  /** Status of the indicator `step` when the page is at `currentStep`. */
  function GetStatus(step: int, currentStep: int): (s: Status)
    ensures s == Checked <==> step < currentStep
    ensures s == Current <==> step == currentStep
    ensures s == Inactive <==> step > currentStep
  {
    if step < currentStep then Checked
    else if step == currentStep then Current
    else Inactive
  }

  /** Whether the checkmark overlay is drawn on indicator `step`. */
  function ShowsCheckmark(step: int, currentStep: int): (shown: bool)
    ensures shown <==> GetStatus(step, currentStep) == Checked
  {
    step < currentStep
  }

  /** How far along an indicator is: inactive, then current, then checked. */
  function Rank(s: Status): nat
  {
    match s
    case Inactive => 0
    case Current => 1
    case Checked => 2
  }

  /** Moving the current step forward never moves an indicator backward. */
  lemma StatusMonotone(step: int, c1: int, c2: int)
    requires c1 <= c2
    ensures Rank(GetStatus(step, c1)) <= Rank(GetStatus(step, c2))
  {
  }

  /** The two buttons of the page: "previous" (-1) and "next" (+1). */
  datatype Direction = Previous | Next

  function Delta(d: Direction): int
  {
    match d
    case Previous => -1
    case Next => 1
  }

  /** The step the page holds after one button press. */
  function Advance(step: int, d: Direction): (r: int)
    ensures 0 <= step <= NumberOfSteps ==> 0 <= r <= NumberOfSteps
    ensures r == step || r == step + Delta(d)
  {
    if d == Previous && step == 0 then step
    else if d == Next && step == NumberOfSteps then step
    else step + Delta(d)
  }

  /** The clamp: presses past either end are absorbed, every other press moves by one. */
  lemma AdvanceCases(step: int, d: Direction)
    requires 0 <= step <= NumberOfSteps
    ensures d == Previous && step == 0 ==> Advance(step, d) == 0
    ensures d == Next && step == NumberOfSteps ==> Advance(step, d) == NumberOfSteps
    ensures (d == Previous && step > 0) || (d == Next && step < NumberOfSteps)
            ==> Advance(step, d) == step + Delta(d)
  {
  }

  /** A press of "next" from a step before the last checks exactly the current
      indicator, makes the following one (when the page has it) current, and
      leaves every other indicator as it was. */
  lemma NextChecksCurrentIndicator(step: int, i: int)
    requires 0 <= step < NumberOfSteps
    ensures GetStatus(step, Advance(step, Next)) == Checked
    ensures step + 1 < NumberOfSteps ==> GetStatus(step + 1, Advance(step, Next)) == Current
    ensures i != step && i != step + 1 ==> GetStatus(i, Advance(step, Next)) == GetStatus(i, step)
  {
  }

  /** The step reached from `step` by pressing the buttons in `moves` in order. */
  function Run(step: int, moves: seq<Direction>): (r: int)
    ensures 0 <= step <= NumberOfSteps ==> 0 <= r <= NumberOfSteps
    decreases |moves|
  {
    if moves == [] then step else Run(Advance(step, moves[0]), moves[1..])
  }

  /** `k` presses of the same button. */
  function Presses(d: Direction, k: nat): seq<Direction>
  {
    seq(k, _ => d)
  }

  function Min(a: int, b: int): int { if a <= b then a else b }
  function Max(a: int, b: int): int { if a <= b then b else a }

  /** Pressing "next" k times reaches NumberOfSteps after enough presses and no further. */
  lemma {:induction false} RepeatedNext(step: int, k: nat)
    requires 0 <= step <= NumberOfSteps
    ensures Run(step, Presses(Next, k)) == Min(step + k, NumberOfSteps)
    decreases k
  {
    if k > 0 {
      assert Presses(Next, k)[1..] == Presses(Next, k - 1);
      RepeatedNext(Advance(step, Next), k - 1);
    }
  }

  /** Pressing "previous" k times reaches 0 after enough presses and no further. */
  lemma {:induction false} RepeatedPrevious(step: int, k: nat)
    requires 0 <= step <= NumberOfSteps
    ensures Run(step, Presses(Previous, k)) == Max(step - k, 0)
    decreases k
  {
    if k > 0 {
      assert Presses(Previous, k)[1..] == Presses(Previous, k - 1);
      RepeatedPrevious(Advance(step, Previous), k - 1);
    }
  }

  /** The statuses of indicators 0 .. n-1, in the order the page renders them. */
  function Indicators(n: nat, currentStep: int): (row: seq<Status>)
    ensures |row| == n
    ensures forall i :: 0 <= i < n ==> row[i] == GetStatus(i, currentStep)
  {
    if n == 0 then [] else Indicators(n - 1, currentStep) + [GetStatus(n - 1, currentStep)]
  }

  /** `c` clamped to [0, n]. */
  function Clamp(c: int, n: nat): nat
  {
    if c <= 0 then 0 else if c >= n then n else c
  }

  /** Appending one status adds one to its own count and nothing to the others. */
  lemma CountSnoc(row: seq<Status>, last: Status, x: Status)
    ensures multiset(row + [last])[x] == multiset(row)[x] + (if last == x then 1 else 0)
  {
    assert multiset(row + [last]) == multiset(row) + multiset{last};
  }

  /** Among the first n indicators, as many are checked as the current step, clamped to [0, n]. */
  lemma {:induction false} CheckedCount(n: nat, currentStep: int)
    ensures multiset(Indicators(n, currentStep))[Checked] == Clamp(currentStep, n)
    decreases n
  {
    if n > 0 {
      var prefix, last := Indicators(n - 1, currentStep), GetStatus(n - 1, currentStep);
      assert Indicators(n, currentStep) == prefix + [last];
      CheckedCount(n - 1, currentStep);
      CountSnoc(prefix, last, Checked);
      if last == Checked {
        assert n - 1 < currentStep;
        assert Clamp(currentStep, n) == Clamp(currentStep, n - 1) + 1;
        assert multiset(prefix + [last])[Checked] == multiset(prefix)[Checked] + 1;
      } else {
        assert currentStep <= n - 1;
        assert Clamp(currentStep, n) == Clamp(currentStep, n - 1);
        assert multiset(prefix + [last])[Checked] == multiset(prefix)[Checked];
      }
    }
  }

  /** Among the first n indicators, exactly one is current when the current
      step is one of them, none otherwise. */
  lemma {:induction false} CurrentCount(n: nat, currentStep: int)
    ensures multiset(Indicators(n, currentStep))[Current] == if 0 <= currentStep < n then 1 else 0
    decreases n
  {
    if n > 0 {
      var prefix, last := Indicators(n - 1, currentStep), GetStatus(n - 1, currentStep);
      assert Indicators(n, currentStep) == prefix + [last];
      CurrentCount(n - 1, currentStep);
      CountSnoc(prefix, last, Current);
      if currentStep == n - 1 {
        assert last == Current;
        assert multiset(prefix)[Current] == 0;
        assert multiset(prefix + [last])[Current] == 1;
      } else {
        assert last != Current;
        assert multiset(prefix + [last])[Current] == multiset(prefix)[Current];
      }
    }
  }

  /** On the page, exactly `step` indicators are checked and at most one is current. */
  lemma PageIndicatorCounts(step: int)
    requires 0 <= step <= NumberOfSteps
    ensures multiset(Indicators(NumberOfSteps, step))[Checked] == step
    ensures multiset(Indicators(NumberOfSteps, step))[Current] <= 1
    ensures multiset(Indicators(NumberOfSteps, step))[Current] == 1 <==> step < NumberOfSteps
  {
    CheckedCount(NumberOfSteps, step);
    CurrentCount(NumberOfSteps, step);
  }

  /** The page's state: the current step, owned by the page and changed only by its buttons. */
  class StepperPage {
    var step: int

    ghost predicate Valid()
      reads this
    {
      0 <= step <= NumberOfSteps
    }

    /** The page opens at step 0. */
    constructor ()
      ensures Valid() && step == 0
    {
      step := 0;
    }

    /** The statuses the page currently renders. */
    function Rendered(): (row: seq<Status>)
      reads this
      requires Valid()
      ensures |row| == NumberOfSteps
      ensures multiset(row)[Checked] == step
    {
      PageIndicatorCounts(step);
      Indicators(NumberOfSteps, step)
    }

    /** A press of one of the two buttons. */
    method OnChangeStep(d: Direction)
      requires Valid()
      modifies this
      ensures Valid()
      ensures step == Advance(old(step), d)
      ensures d == Previous && old(step) == 0 ==> step == old(step)
      ensures d == Next && old(step) == NumberOfSteps ==> step == old(step)
    {
      if d == Previous && step == 0 {
        return;
      }
      if d == Next && step == NumberOfSteps {
        return;
      }
      step := step + Delta(d);
    }
  }
}
