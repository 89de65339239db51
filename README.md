# Stepper and pull-to-refetch pages, modelled in Dafny

This project models the logic of two demo pages. Everything else in them is
rendering and calls into the animation library.

- **Stepper** (`stepper.dfy`). The page renders `NumberOfSteps` (4) indicators.
  Each indicator is classified against the current step as checked, current or
  inactive. A checkmark overlay is drawn on exactly the checked ones. The
  "previous" and "next" buttons move the current step by one and are clamped to
  `[0, NumberOfSteps]`: a press past either end is silently ignored. The
  classification is a pure function. The page state is the class `StepperPage`
  with its single `step` field.
- **Pull to refetch** (`pull_to_refetch.dfy`). The class `RefetchPage` holds:
  - the pull distance `scrollY`;
  - the spinner phase;
  - the index of the meme shown, into a fixed list of 3;
  - the number of completions scheduled and not yet run.

  A release at or past 30 pins the distance to 30, starts the spinner and
  schedules a completion. A release below 30 changes nothing. A completion
  advances the index modulo 3, stops the spinner and resets the distance to 0.
  The 2000 ms timer is modelled as an explicit call to `OnRefetchTimeout`,
  allowed once per scheduled completion. As in the source, nothing prevents a
  second release from scheduling another completion while one is pending.

The page has no re-entrancy guard and no way to cancel a scheduled completion,
so every release at or past 30 schedules one, even while another is pending.
The spinner has no variant applied until the first qualifying release, so the
model has three phases: `NotStarted`, `StartLoading` and `EndLoading`.

## Model

| member | source | states |
|---|---|---|
| Stepper.GetStatus | src/pages/stepper.tsx:4-13 | the status is checked exactly when step < currentStep, current exactly when step == currentStep, inactive exactly when step > currentStep (so always exactly one of the three) |
| Stepper.ShowsCheckmark | src/pages/stepper.tsx:60 | the checkmark overlay is drawn exactly when the indicator's status is checked |
| Stepper.StatusMonotone | src/pages/stepper.tsx:4-13 | raising the current step never moves an indicator back from checked to current or from current to inactive |
| Stepper.Advance | src/pages/stepper.tsx:92-97 | one press keeps the step in [0, NumberOfSteps] when it started there, and either leaves the step alone or moves it by the press's direction |
| Stepper.AdvanceCases | src/pages/stepper.tsx:90-97 | "previous" at 0 and "next" at NumberOfSteps (4) leave the step unchanged; every other press sets it to step + direction |
| Stepper.NextChecksCurrentIndicator | src/pages/stepper.tsx:4-13 | "next" from a step before the last turns exactly that indicator to checked and the next one, when the page has it, to current; all other indicators keep their status |
| Stepper.Run | src/pages/stepper.tsx:92-97 | any sequence of presses from a step in [0, NumberOfSteps] ends in [0, NumberOfSteps] |
| Stepper.RepeatedNext | src/pages/stepper.tsx:90-97 | k presses of "next" from step s reach min(s + k, NumberOfSteps): exactly NumberOfSteps after enough presses, and no further |
| Stepper.RepeatedPrevious | src/pages/stepper.tsx:92-97 | k presses of "previous" from step s reach max(s - k, 0): exactly 0 after enough presses, and no further |
| Stepper.Indicators | src/pages/stepper.tsx:104-106 | the rendered row has one entry per indicator index i < n, and entry i is the status of indicator i against the current step |
| Stepper.CheckedCount | src/pages/stepper.tsx:4-13 | among n indicators, the number checked is the current step clamped to [0, n] |
| Stepper.CurrentCount | src/pages/stepper.tsx:4-13 | among n indicators, exactly one is current if the current step is in [0, n), none otherwise |
| Stepper.PageIndicatorCounts | src/pages/stepper.tsx:104-106 | on the page, exactly `step` indicators are checked and at most one is current, with one current exactly when step < NumberOfSteps |
| Stepper.StepperPage.constructor | src/pages/stepper.tsx:88 | the page opens at step 0, inside [0, NumberOfSteps] |
| Stepper.StepperPage.Rendered | src/pages/stepper.tsx:104-106 | the page renders NumberOfSteps indicators, of which exactly `step` are checked |
| Stepper.StepperPage.OnChangeStep | src/pages/stepper.tsx:92-97 | a press keeps the invariant 0 <= step <= NumberOfSteps; presses past either end leave step unchanged, any other sets it to step + direction |
| PullToRefetch.NextMemeIndex | src/pages/pull-to-refetch.tsx:54 | the next index is (prev + 1) % 3: always a valid index into the 3 memes; from 0 it is 1, from 2 it wraps to 0 |
| PullToRefetch.CompletionsCycle | src/pages/pull-to-refetch.tsx:38-54 | k completions from a valid index i show meme (i + k) % 3 |
| PullToRefetch.FullCycleReturns | src/pages/pull-to-refetch.tsx:39-54 | three completions bring back the meme that was shown before them |
| PullToRefetch.RefetchPage.constructor | src/pages/pull-to-refetch.tsx:5-38 | the page opens at distance 0, spinner not started, first meme shown, nothing scheduled |
| PullToRefetch.RefetchPage.Drag | src/pages/pull-to-refetch.tsx:89-97 | dragging sets the distance and nothing else |
| PullToRefetch.RefetchPage.OnDragEnd | src/pages/pull-to-refetch.tsx:45-59 | a release at distance >= 30 pins the distance to exactly 30, starts the spinner and schedules one completion; a release below 30 changes nothing; a release never changes the meme index |
| PullToRefetch.RefetchPage.OnRefetchTimeout | src/pages/pull-to-refetch.tsx:53-57 | a completion sets the index to (prev + 1) % 3, keeping it in [0, 3), puts the spinner in endLoading and resets the distance to 0 |
| PullToRefetch.Scenario | src/pages/pull-to-refetch.tsx:45-57 | a pull to 20 does not refetch; a pull to 35 pins to 30 and spins; completions show memes 1, then 2, then 0 again, including two releases before their completions |

## Left out

- Rendering, class names, colours and the variant style bundles of both pages are not modelled. They are presentational only.
- The spring dynamics of `scrollY` are not modelled. This includes the spring-back toward 0 after a release below the threshold: that motion belongs to the animation library, and `OnDragEnd` leaves the distance as it was.
- The opacity and loader-offset interpolations are not modelled. They are library calls on floating-point values. The comment beside the loader-offset mapping states it backwards: the mapping sends distance 0 to -48 and 30 to 0.
- PullToRefetch.RefetchPage.Drag: does not model the drag constraints or the 15% bottom elasticity. The gesture runtime applies those; the model lets a drag set any distance.
- Real timing is not modelled. This covers the 2000 ms delay, the one-second infinite linear rotation and the checkmark-draw timing. A completion is an explicit call. The `scheduled` counter is the only thing the model keeps of the timer queue.
- `AnimatePresence` mount and unmount behaviour is not modelled. Only the condition under which the checkmark is drawn is.
- The meme URLs are not modelled. Only the list's length (3) matters to the logic.
