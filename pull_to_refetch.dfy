/**
 * The pull-to-refetch page: the content is pulled down by a distance
 * `scrollY`; a release at or past the activation threshold pins the
 * distance, starts the spinner and schedules a completion which shows the
 * next meme, stops the spinner and lets the content go back to 0.
 */
module PullToRefetch {

  /** The pull distance at which a release triggers a refetch. */
  const Threshold: real := 30.0

  /** The number of memes the page cycles through (its list is fixed). */
  const MemeCount: nat := 3

  /** The spinner's animation: no variant applied yet, spinning, or stopped at rest. */
  datatype SpinnerPhase = NotStarted | StartLoading | EndLoading

  /** The meme shown after a completion when `index` was shown before. */
  function NextMemeIndex(index: nat): (r: nat)
    ensures r < MemeCount
    ensures index + 1 < MemeCount ==> r == index + 1
    ensures index + 1 == MemeCount ==> r == 0
  {
    (index + 1) % MemeCount
  }

  /** The meme shown after `k` completions when `index` was shown before. */
  function AfterCompletions(index: nat, k: nat): nat
  {
    if k == 0 then index else NextMemeIndex(AfterCompletions(index, k - 1))
  }

  /** The memes come round in a cycle: k completions move the index k places. */
  lemma {:induction false} CompletionsCycle(index: nat, k: nat)
    requires index < MemeCount
    ensures AfterCompletions(index, k) == (index + k) % MemeCount
    decreases k
  {
    if k > 0 {
      CompletionsCycle(index, k - 1);
      var m := (index + k - 1) % MemeCount;
      assert index + k - 1 == ((index + k - 1) / MemeCount) * MemeCount + m;
      assert (index + k) % MemeCount == (m + 1) % MemeCount;
    }
  }

  /** Every MemeCount completions the page shows the same meme again. */
  lemma FullCycleReturns(index: nat)
    requires index < MemeCount
    ensures AfterCompletions(index, MemeCount) == index
  {
    CompletionsCycle(index, MemeCount);
  }

  /** The state of the page that its handlers read and write. */
  class RefetchPage {
    /** The pull distance (a spring value; set by dragging and by the handlers). */
    var scrollY: real
    /** The variant last started on the spinner. */
    var phase: SpinnerPhase
    /** Which meme is shown. */
    var memeIndex: nat
    /** Completions scheduled by a release and not yet run. */
    var scheduled: nat

    ghost predicate Valid()
      reads this
    {
      memeIndex < MemeCount
    }

    /** The page opens at rest, showing the first meme. */
    constructor ()
      ensures Valid()
      ensures scrollY == 0.0 && phase == NotStarted && memeIndex == 0 && scheduled == 0
    {
      scrollY := 0.0;
      phase := NotStarted;
      memeIndex := 0;
      scheduled := 0;
    }

    /** The gesture moves the content to distance `y`. */
    method Drag(y: real)
      requires Valid()
      modifies this
      ensures Valid()
      ensures scrollY == y
      ensures phase == old(phase) && memeIndex == old(memeIndex) && scheduled == old(scheduled)
    {
      scrollY := y;
    }

    /** The release handler: at or past the threshold it pins the distance,
        starts the spinner and schedules a completion; below it, nothing. */
    method OnDragEnd()
      requires Valid()
      modifies this
      ensures Valid()
      ensures memeIndex == old(memeIndex)
      ensures old(scrollY) >= Threshold ==>
                scrollY == Threshold && phase == StartLoading && scheduled == old(scheduled) + 1
      ensures old(scrollY) < Threshold ==>
                scrollY == old(scrollY) && phase == old(phase) && scheduled == old(scheduled)
    {
      var y := scrollY;
      if y >= Threshold {
        scrollY := Threshold;
        phase := StartLoading;
        scheduled := scheduled + 1;
      }
    }

    /** The scheduled completion: next meme, spinner back to rest, distance 0. */
    method OnRefetchTimeout()
      requires Valid() && scheduled > 0
      modifies this
      ensures Valid()
      ensures memeIndex == NextMemeIndex(old(memeIndex))
      ensures phase == EndLoading && scrollY == 0.0
      ensures scheduled == old(scheduled) - 1
    {
      memeIndex := NextMemeIndex(memeIndex);
      phase := EndLoading;
      scrollY := 0.0;
      scheduled := scheduled - 1;
    }
  }

  /** A pull to 35 refetches; a pull to 20 does not; the first completion
      shows the second meme, and three completions bring back the first. */
  method Scenario() returns (shown: nat)
    ensures shown == 0
  {
    var page := new RefetchPage();
    page.Drag(20.0);
    page.OnDragEnd();
    assert page.scheduled == 0 && page.phase == NotStarted;
    page.Drag(35.0);
    page.OnDragEnd();
    assert page.scrollY == Threshold && page.phase == StartLoading;
    page.OnRefetchTimeout();
    assert page.memeIndex == 1 && page.scrollY == 0.0 && page.phase == EndLoading;
    page.Drag(40.0);
    page.OnDragEnd();
    page.Drag(31.0);
    page.OnDragEnd();
    assert page.scheduled == 2;
    page.OnRefetchTimeout();
    assert page.memeIndex == 2;
    page.OnRefetchTimeout();
    shown := page.memeIndex;
  }
}
