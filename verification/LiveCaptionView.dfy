/** The live caption view: throttled refreshes, held finals, and a pending candidate with wake-up times. */
module LiveCaptionView {
  import opened Outcome

  datatype Status = Draft | Final
  datatype Candidate = Candidate(key: string, segment: string, revision: int, status: Status, text: string)
  datatype Transition = NoTransition | FinalReplace

  datatype View = View(
    visible: Option<Candidate>,
    pending: Option<Candidate>,
    lastRefresh: Option<real>,
    holdUntil: Option<real>,
    transition: Transition
  )

  datatype Timing = Timing(refresh: real, hold: real)

  const BLANK := View(None, None, None, None, NoTransition)

  predicate Same(x: Candidate, y: Candidate) { x.key == y.key && x.status == y.status && x.text == y.text }

  predicate Stale(visible: Candidate, c: Candidate) {
    && visible.segment == c.segment
    && (c.revision < visible.revision || (c.revision == visible.revision && visible.status.Final? && c.status.Draft?))
  }

  function Install(c: Candidate, now: real, timing: Timing, transition: Transition): View {
    View(Some(c), None, Some(now), if c.status.Final? then Some(now + timing.hold) else None, transition)
  }

  predicate ValidTiming(timing: Timing) { timing.refresh > 0.0 && timing.hold >= 0.0 }

  function RefreshAt(v: View, now: real, timing: Timing): real {
    if v.lastRefresh.None? then now else v.lastRefresh.value + timing.refresh
  }

  predicate Matching(visible: Candidate, c: Candidate) {
    c.segment == visible.segment && c.status.Final? && c.revision >= visible.revision
  }

  datatype Frame = Frame(view: View, wakeAt: Option<real>, installed: bool)

  /** The candidate a step works on: the given one, or the pending one once it is due. */
  function Chosen(v: View, input: Option<Candidate>, now: real, timing: Timing): Option<Candidate> {
    if input.Some? then input
    else if v.pending.Some? && now >= RefreshAt(v, now, timing) then v.pending
    else None
  }

  /** `advanceLiveCaptionView`; `installed` records that the visible candidate was installed by this step. */
  function Advance(v: View, input: Option<Candidate>, now: real, timing: Timing): Result<Frame, string> {
    if timing.refresh <= 0.0 then Failure("refreshIntervalMs must be positive")
    else if timing.hold < 0.0 then Failure("minimumFinalHoldMs must not be negative")
    else Success(Step(v, input, now, timing))
  }

  function Step(v: View, input: Option<Candidate>, now: real, timing: Timing): Frame {
    var refreshAt := RefreshAt(v, now, timing);
    var chosen := Chosen(v, input, now, timing);
    if chosen.None? then
      if v.pending.None? then Frame(BLANK, None, false)
      else Frame(v.(transition := NoTransition), Some(refreshAt), false)
    else
      var c := chosen.value;
      if v.visible.None? then Frame(Install(c, now, timing, NoTransition), None, true)
      else if Same(v.visible.value, c) then Frame(v.(pending := None, transition := NoTransition), None, false)
      else if Stale(v.visible.value, c) then
        Frame(v.(transition := NoTransition), if v.pending.None? then None else Some(refreshAt), false)
      else if Matching(v.visible.value, c) then Frame(Install(c, now, timing, FinalReplace), None, true)
      else if now < refreshAt then Frame(v.(pending := Some(c), transition := NoTransition), Some(refreshAt), false)
      else if v.visible.value.status.Final? && c.status.Final? && v.holdUntil.Some? && now < v.holdUntil.value then
        Frame(v.(pending := Some(c), transition := NoTransition), v.holdUntil, false)
      else Frame(Install(c, now, timing, NoTransition), None, true)
  }

  // ----- the state invariant

  /** A pending candidate differs from the visible one, is not older than it, and is no final of the same segment. */
  predicate WellFormed(v: View, timing: Timing) {
    && (v.visible.Some? <==> v.lastRefresh.Some?)
    && (v.visible.None? ==> v.pending.None? && v.holdUntil.None?)
    && (v.visible.Some? ==>
          v.holdUntil == if v.visible.value.status.Final? then Some(v.lastRefresh.value + timing.hold) else None)
    && (v.pending.Some? ==>
          && !Same(v.visible.value, v.pending.value)
          && !Stale(v.visible.value, v.pending.value)
          && !Matching(v.visible.value, v.pending.value))
  }

  datatype Input = Input(candidate: Option<Candidate>, now: real)

  /** The frames of a run, one for each input. */
  function Run(v: View, inputs: seq<Input>, timing: Timing): (frames: seq<Frame>)
    ensures |frames| == |inputs|
    decreases |inputs|
  {
    if inputs == [] then []
    else
      var o := Step(v, inputs[0].candidate, inputs[0].now, timing);
      [o] + Run(o.view, inputs[1..], timing)
  }

  /** The view before input `i`. */
  function Before(v: View, frames: seq<Frame>, i: nat): View
    requires i <= |frames|
  {
    if i == 0 then v else frames[i - 1].view
  }

  lemma {:induction false} StepInvariant(v: View, input: Option<Candidate>, now: real, timing: Timing)
    requires ValidTiming(timing) && WellFormed(v, timing)
    ensures var o := Step(v, input, now, timing);
            && WellFormed(o.view, timing)
            && (o.view.pending.Some? <==> o.wakeAt.Some?)
  {
  }

  lemma {:induction false} RunSteps(v: View, inputs: seq<Input>, timing: Timing, i: nat)
    requires ValidTiming(timing) && WellFormed(v, timing) && i < |inputs|
    ensures var os := Run(v, inputs, timing);
            && os[i] == Step(Before(v, os, i), inputs[i].candidate, inputs[i].now, timing)
            && WellFormed(Before(v, os, i), timing)
    decreases |inputs|
  {
    var o := Step(v, inputs[0].candidate, inputs[0].now, timing);
    StepInvariant(v, inputs[0].candidate, inputs[0].now, timing);
    if i > 0 {
      RunSteps(o.view, inputs[1..], timing, i - 1);
      var os, rest := Run(v, inputs, timing), Run(o.view, inputs[1..], timing);
      assert os == [o] + rest;
      assert Before(v, os, i) == Before(o.view, rest, i - 1);
    }
  }

  /** In every state of every run a wake-up is scheduled exactly when a candidate is pending, and the pending one is never stale. */
  lemma {:induction false} PendingMeansScheduled(inputs: seq<Input>, timing: Timing, i: nat)
    requires ValidTiming(timing) && i < |inputs|
    ensures var o := Run(BLANK, inputs, timing)[i];
            && (o.view.pending.Some? <==> o.wakeAt.Some?)
            && (o.view.pending.Some? ==> o.view.visible.Some? && !Stale(o.view.visible.value, o.view.pending.value))
  {
    RunSteps(BLANK, inputs, timing, i);
    var os := Run(BLANK, inputs, timing);
    StepInvariant(Before(BLANK, os, i), inputs[i].candidate, inputs[i].now, timing);
  }

  // ----- what one step does, in terms of its input

  /** `c` says the same as `w`: same key, status and text. */
  ghost predicate Repeats(w: Candidate, c: Candidate) { c.key == w.key && c.status == w.status && c.text == w.text }

  /** Older than `w`: a lower revision of its segment, or a draft of the revision that is final. */
  ghost predicate Older(w: Candidate, c: Candidate) {
    && c.segment == w.segment
    && (c.revision < w.revision || (c.revision == w.revision && c.status == Draft && w.status == Final))
  }

  /** A final of the visible segment that is not older. */
  ghost predicate Finishes(w: Candidate, c: Candidate) {
    c.segment == w.segment && c.status == Final && c.revision >= w.revision
  }

  /** When a candidate that is not a replacing final may be shown over `w`. */
  ghost predicate Due(w: Candidate, shownAt: real, c: Candidate, now: real, timing: Timing) {
    now >= shownAt + timing.refresh && (w.status == Final && c.status == Final ==> now >= shownAt + timing.hold)
  }

  /** The screen goes blank exactly when nothing is given and nothing waits, and then nothing at all is left. */
  lemma {:induction false} ClearsExactly(v: View, input: Option<Candidate>, now: real, timing: Timing)
    requires ValidTiming(timing) && WellFormed(v, timing)
    ensures var o := Step(v, input, now, timing);
            && (o.view.visible.None? <==> input.None? && v.pending.None?)
            && (o.view.visible.None? ==> o == Frame(View(None, None, None, None, NoTransition), None, false))
  {
  }

  ghost predicate ShowsAtOnce(v: View, c: Candidate, now: real, timing: Timing)
    requires WellFormed(v, timing)
  {
    || v.visible.None?
    || (var w := v.visible.value;
        && !Repeats(w, c)
        && (Finishes(w, c) || (!Older(w, c) && Due(w, v.lastRefresh.value, c, now, timing))))
  }

  /** Exactly when a given candidate is shown by this very step, and the whole view it then leaves. */
  lemma {:induction false} ShownAtOnceExactly(v: View, c: Candidate, now: real, timing: Timing)
    requires ValidTiming(timing) && WellFormed(v, timing)
    ensures var o := Step(v, Some(c), now, timing);
            && (o.installed <==> ShowsAtOnce(v, c, now, timing))
            && (o.installed ==>
                  && o.view.visible == Some(c) && o.view.pending == None && o.view.lastRefresh == Some(now) && o.wakeAt == None
                  && o.view.holdUntil == (if c.status == Final then Some(now + timing.hold) else None)
                  && (o.view.transition == FinalReplace <==> v.visible.Some? && Finishes(v.visible.value, c)))
  {
  }

  /**
    * A given candidate that is not shown: a repeat clears what waits, an older one changes nothing,
    * and any other waits in place of what waited, for the refresh or, past that, for the end of the hold.
    */
  lemma {:induction false} NotShownExactly(v: View, c: Candidate, now: real, timing: Timing)
    requires ValidTiming(timing) && WellFormed(v, timing) && !ShowsAtOnce(v, c, now, timing)
    ensures var o, w, shownAt := Step(v, Some(c), now, timing), v.visible.value, v.lastRefresh.value;
            && o.view == v.(transition := NoTransition,
                         pending := if Repeats(w, c) then None else if Older(w, c) then v.pending else Some(c))
            && o.wakeAt == (if o.view.pending.None? then None
                            else if Older(w, c) || now < shownAt + timing.refresh then Some(shownAt + timing.refresh)
                            else Some(shownAt + timing.hold))
  {
  }

  /** With nothing given, what waits is treated as given once the refresh is due, and is left waiting before. */
  lemma {:induction false} WakeUpDelivers(v: View, now: real, timing: Timing)
    requires ValidTiming(timing) && WellFormed(v, timing) && v.pending.Some?
    ensures Step(v, None, now, timing) ==
            if now >= v.lastRefresh.value + timing.refresh then Step(v, v.pending, now, timing)
            else Frame(v.(transition := NoTransition), Some(v.lastRefresh.value + timing.refresh), false)
  {
  }

  /** On every run the screen is blank after an input exactly when that input is empty and nothing waited before it. */
  lemma {:induction false} BlankExactly(inputs: seq<Input>, timing: Timing, i: nat)
    requires ValidTiming(timing) && i < |inputs|
    ensures var frames := Run(BLANK, inputs, timing);
            frames[i].view.visible.None? <==>
            inputs[i].candidate.None? && (i == 0 || frames[i - 1].view.pending.None?)
  {
    var frames := Run(BLANK, inputs, timing);
    RunSteps(BLANK, inputs, timing, i);
    ClearsExactly(Before(BLANK, frames, i), inputs[i].candidate, inputs[i].now, timing);
  }

  // ----- throttling

  /** One step: an install over a visible candidate that is not a final-replace waits for the refresh time. */
  lemma {:induction false} StepThrottled(v: View, input: Option<Candidate>, now: real, timing: Timing)
    requires ValidTiming(timing) && WellFormed(v, timing)
    ensures var o := Step(v, input, now, timing);
            && (o.installed ==> o.view.lastRefresh == Some(now))
            && (!o.installed && o.view.visible.Some? ==> o.view.visible == v.visible && o.view.lastRefresh == v.lastRefresh)
            && (o.installed && v.visible.Some? && o.view.transition.NoTransition? ==> now >= v.lastRefresh.value + timing.refresh)
            && (o.view.transition.FinalReplace? ==>
                  o.installed && v.visible.Some? && o.view.visible.value.status.Final? &&
                  o.view.visible.value.segment == v.visible.value.segment && o.view.visible.value.revision >= v.visible.value.revision)
  {
  }

  /** No clear between input `i` and input `j`. */
  predicate Uncleared(os: seq<Frame>, i: nat, j: nat)
    requires i <= j < |os|
  {
    forall k | i <= k < j :: os[k].view.visible.Some?
  }

  predicate NoInstallBetween(os: seq<Frame>, i: nat, j: nat)
    requires i < j < |os|
  {
    forall k | i < k < j :: !os[k].installed
  }

  lemma {:induction false} RefreshTimeStays(v: View, inputs: seq<Input>, timing: Timing, i: nat, j: nat)
    requires ValidTiming(timing) && WellFormed(v, timing) && i < j < |inputs|
    requires var os := Run(v, inputs, timing); os[i].installed && Uncleared(os, i, j) && NoInstallBetween(os, i, j)
    ensures Before(v, Run(v, inputs, timing), j).lastRefresh == Some(inputs[i].now)
    ensures Before(v, Run(v, inputs, timing), j).visible == Run(v, inputs, timing)[i].view.visible
    decreases j
  {
    var os := Run(v, inputs, timing);
    if j == i + 1 {
      RunSteps(v, inputs, timing, i);
      StepThrottled(Before(v, os, i), inputs[i].candidate, inputs[i].now, timing);
    } else {
      RefreshTimeStays(v, inputs, timing, i, j - 1);
      RunSteps(v, inputs, timing, j - 1);
      StepThrottled(Before(v, os, j - 1), inputs[j - 1].candidate, inputs[j - 1].now, timing);
    }
  }

  /**
    * Throttling on every run: between clears, two consecutive installs are at least the refresh
    * interval apart, unless the later one is a final replacing its own segment.
    */
  lemma {:induction false} InstallsThrottled(inputs: seq<Input>, timing: Timing, i: nat, j: nat)
    requires ValidTiming(timing) && i < j < |inputs|
    requires var os := Run(BLANK, inputs, timing);
             && os[i].installed && os[j].installed && os[j].view.transition.NoTransition?
             && Uncleared(os, i, j) && NoInstallBetween(os, i, j)
    ensures inputs[j].now >= inputs[i].now + timing.refresh
  {
    var os := Run(BLANK, inputs, timing);
    RefreshTimeStays(BLANK, inputs, timing, i, j);
    RunSteps(BLANK, inputs, timing, j);
    StepThrottled(Before(BLANK, os, j), inputs[j].candidate, inputs[j].now, timing);
  }

  // ----- holding finals

  lemma {:induction false} StepHolds(v: View, input: Option<Candidate>, now: real, timing: Timing)
    requires ValidTiming(timing) && WellFormed(v, timing)
    requires v.visible.Some? && v.visible.value.status.Final?
    ensures var o := Step(v, input, now, timing);
            o.installed && o.view.visible.value.status.Final? && o.view.visible.value.segment != v.visible.value.segment
            ==> now >= v.lastRefresh.value + timing.hold
  {
  }

  /** On every run, a final of another segment replaces a visible final only after the hold has expired. */
  lemma {:induction false} FinalsHeld(inputs: seq<Input>, timing: Timing, i: nat, j: nat)
    requires ValidTiming(timing) && i < j < |inputs|
    requires var os := Run(BLANK, inputs, timing);
             && os[i].installed && os[j].installed && Uncleared(os, i, j) && NoInstallBetween(os, i, j)
             && os[i].view.visible.Some? && os[j].view.visible.Some?
             && os[i].view.visible.value.status.Final? && os[j].view.visible.value.status.Final?
             && os[i].view.visible.value.segment != os[j].view.visible.value.segment
    ensures inputs[j].now >= inputs[i].now + timing.hold
  {
    var os := Run(BLANK, inputs, timing);
    RefreshTimeStays(BLANK, inputs, timing, i, j);
    RunSteps(BLANK, inputs, timing, j);
    StepHolds(Before(BLANK, os, j), inputs[j].candidate, inputs[j].now, timing);
  }

  // ----- wake-ups

  /** A wake-up that does not show the pending candidate found it held, and schedules the end of the hold. */
  lemma {:induction false} WakeUp(v: View, now: real, timing: Timing)
    requires ValidTiming(timing) && WellFormed(v, timing) && v.pending.Some?
    requires now >= v.lastRefresh.value + timing.refresh
    ensures var o := Step(v, None, now, timing);
            if v.holdUntil.Some? && v.pending.value.status.Final? && now < v.holdUntil.value
            then o.view == v.(transition := NoTransition) && o.wakeAt == v.holdUntil
            else o.installed && o.view.visible == v.pending && o.view.pending.None?
  {
  }

  /** From any reachable state, a pending candidate is shown after at most two wake-ups at or after their scheduled times. */
  lemma {:induction false} ShownWithinTwoWakeUps(v: View, input: Option<Candidate>, now: real, first: real, second: real, timing: Timing)
    requires ValidTiming(timing) && WellFormed(v, timing)
    requires Step(v, input, now, timing).view.pending.Some?
    requires first >= Step(v, input, now, timing).wakeAt.value
    requires var woken := Step(Step(v, input, now, timing).view, None, first, timing);
             woken.wakeAt.Some? ==> second >= woken.wakeAt.value
    ensures var waiting := Step(v, input, now, timing).view;
            var woken := Step(waiting, None, first, timing);
            || woken.view.visible == waiting.pending
            || (woken.wakeAt.Some? && Step(woken.view, None, second, timing).view.visible == waiting.pending)
  {
    StepInvariant(v, input, now, timing);
    ScheduledAfterRefresh(v, input, now, timing);
    var waiting := Step(v, input, now, timing).view;
    WakeUp(waiting, first, timing);
    var woken := Step(waiting, None, first, timing);
    if woken.wakeAt.Some? {
      StepInvariant(waiting, None, first, timing);
      WakeUp(woken.view, second, timing);
    }
  }

  lemma {:induction false} ScheduledAfterRefresh(v: View, input: Option<Candidate>, now: real, timing: Timing)
    requires ValidTiming(timing) && WellFormed(v, timing)
    requires Step(v, input, now, timing).view.pending.Some?
    ensures var o := Step(v, input, now, timing);
            o.view.lastRefresh.Some? && o.wakeAt.Some? && o.wakeAt.value >= o.view.lastRefresh.value + timing.refresh
  {
  }
}
