/** Whole runs of the stick-to-bottom viewport: why follow is lost, when it holds, and what the reader sees. */
module ViewportRuns {
  import opened Wrappers
  import opened Viewport

  datatype Step = Step(before: View, event: Event, now: real, anchor: Option<real>)

  function After(threshold: real, s: Step): View {
    Next(threshold, s.before, s.event, s.now, s.anchor)
  }

  ghost predicate Linked(threshold: real, run: seq<Step>) {
    && (forall i :: 0 <= i < |run| ==> run[i].now >= 0.0)
    && (forall i :: 0 < i < |run| ==> run[i].before == After(threshold, run[i - 1]))
  }

  ghost predicate IsRun(threshold: real, run: seq<Step>) {
    && Linked(threshold, run)
    && (run != [] ==> run[0].before == Fresh(run[0].before.metrics, run[0].before.clientWidth, run[0].before.clamps))
  }

  // ----- why follow is lost -----

  datatype Window = Interaction | Upward

  function Length(w: Window): real {
    if w.Interaction? then INTENT_DECAY_MS else UPWARD_INTENT_DECAY_MS
  }

  predicate IsUpwardIntent(s: Step) {
    (s.event.Wheel? && s.event.deltaY < 0.0) || (s.event.KeyDown? && s.event.key in UPWARD_KEYS)
  }

  predicate IsDownwardIntent(s: Step) {
    || (s.event.Wheel? && s.event.deltaY >= 0.0)
    || (s.event.KeyDown? && s.event.key in PAGING_KEYS && s.event.key !in UPWARD_KEYS)
  }

  /** A wheel, touch, paging key or press on the scrollbar. */
  predicate IsIntent(s: Step) {
    || IsUpwardIntent(s) || IsDownwardIntent(s) || s.event.Touch?
    || (s.event.PointerDown? && s.event.offsetX > s.before.clientWidth)
  }

  predicate HandlesScroll(s: Step) {
    (s.event.Scroll? && !s.event.coalesce) || (s.event.ScheduledScroll? && s.before.scheduled)
  }

  predicate MovesUp(s: Step) {
    HandlesScroll(s) && s.before.metrics.scrollTop < s.before.lastScrollTop
  }

  predicate Starts(s: Step, w: Window) {
    if w.Interaction? then IsIntent(s) else IsUpwardIntent(s)
  }

  predicate Closes(s: Step, w: Window) {
    s.event.Send? || (w.Upward? && IsDownwardIntent(s))
  }

  /**
   * The window ending at `until` chains back to the reader: a real intent event opened it, upward
   * scrolling inside it may have extended it, again and again, and nothing closed it since.
   */
  ghost predicate Chained(run: seq<Step>, until: real, w: Window)
    decreases |run|, 0
  {
    run != [] &&
    var last := run[|run| - 1];
    var earlier := run[..|run| - 1];
    && !Closes(last, w)
    && (|| (Starts(last, w) && until == last.now + Length(w))
        || (MovesUp(last) && until == last.now + Length(w) && WindowOpen(earlier, last.now, w))
        || Chained(earlier, until, w))
  }

  ghost predicate WindowOpen(run: seq<Step>, now: real, w: Window)
    decreases |run|, 1
  {
    exists until :: now < until && Chained(run, until, w)
  }

  function Until(v: View, w: Window): real {
    if w.Interaction? then v.interactingUntil else v.upwardInteractingUntil
  }

  lemma ContentKeepsWindows(threshold: real, v: View, now: real, anchor: Option<real>, w: Window)
    ensures Until(ContentChanged(v, threshold, now, anchor), w) == Until(v, w)
  {
  }

  lemma ScrollExtendsWindow(threshold: real, v: View, now: real, anchor: Option<real>, w: Window)
    ensures var until := Until(ScrollHandled(v, threshold, now, anchor), w);
      || until == Until(v, w)
      || (v.metrics.scrollTop < v.lastScrollTop && until == now + Length(w) && now < Until(v, w))
  {
  }

  /** What one step can do to a window. */
  lemma WindowAfter(threshold: real, s: Step, w: Window)
    ensures var until := Until(After(threshold, s), w);
      || until == 0.0
      || (!Closes(s, w) && Starts(s, w) && until == s.now + Length(w))
      || (!Closes(s, w) && MovesUp(s) && until == s.now + Length(w) && s.now < Until(s.before, w))
      || (!Closes(s, w) && until == Until(s.before, w))
  {
    match s.event
    case Content => ContentKeepsWindows(threshold, s.before, s.now, s.anchor, w);
    case Resize(_) =>
      ContentKeepsWindows(threshold, s.before.(pendingAttachedSendFollow := false), s.now, s.anchor, w);
    case Scroll(_) => ScrollExtendsWindow(threshold, s.before, s.now, s.anchor, w);
    case ScheduledScroll =>
      ScrollExtendsWindow(threshold, s.before.(scheduled := false), s.now, s.anchor, w);
    case _ =>
  }

  lemma {:induction false} WindowsChain(threshold: real, run: seq<Step>, w: Window)
    requires IsRun(threshold, run) && run != []
    ensures var until := Until(After(threshold, run[|run| - 1]), w);
      until > 0.0 ==> Chained(run, until, w)
  {
    var last := run[|run| - 1];
    var earlier := run[..|run| - 1];
    WindowAfter(threshold, last, w);
    if earlier == [] {
    } else {
      WindowsChain(threshold, earlier, w);
      assert earlier[|earlier| - 1] == run[|run| - 2];
    }
    assert last.now >= 0.0;
    assert Until(last.before, w) > 0.0 ==> Chained(earlier, Until(last.before, w), w);
  }

  /** The reasons the code has for losing follow. */
  ghost predicate Reason(run: seq<Step>) {
    run != [] &&
    var last := run[|run| - 1];
    var earlier := run[..|run| - 1];
    || last.event.Open?
    || last.event.Top?
    || IsUpwardIntent(last)
    || (HandlesScroll(last) && WindowOpen(earlier, last.now, Interaction))
    || ((last.event.Content? || last.event.Resize?)
        && (WindowOpen(earlier, last.now, Interaction) || WindowOpen(earlier, last.now, Upward)))
  }

  lemma ReleaseNeedsWindow(threshold: real, s: Step)
    requires !s.before.stick.released && After(threshold, s).stick.released
    ensures
      || s.event.Open? || s.event.Top? || IsUpwardIntent(s)
      || (HandlesScroll(s) && s.now < s.before.interactingUntil)
      || ((s.event.Content? || s.event.Resize?)
          && (s.now < s.before.interactingUntil || s.now < s.before.upwardInteractingUntil))
  {
  }

  /** In every run, follow is only ever lost for one of those reasons. */
  lemma FollowLossHasAReason(threshold: real, run: seq<Step>)
    requires IsRun(threshold, run) && run != []
    requires !run[|run| - 1].before.stick.released && After(threshold, run[|run| - 1]).stick.released
    ensures Reason(run)
  {
    var last := run[|run| - 1];
    var earlier := run[..|run| - 1];
    ReleaseNeedsWindow(threshold, last);
    if earlier != [] {
      WindowsChain(threshold, earlier, Interaction);
      WindowsChain(threshold, earlier, Upward);
      assert earlier[|earlier| - 1] == run[|run| - 2];
    }
    assert last.now >= 0.0;
    assert last.now < last.before.interactingUntil ==> Chained(earlier, last.before.interactingUntil, Interaction);
    assert last.now < last.before.upwardInteractingUntil ==>
      Chained(earlier, last.before.upwardInteractingUntil, Upward);
  }

  // ----- after a send -----

  /** Neither a reader's intent nor a request to be somewhere else. */
  predicate IsQuiet(event: Event) {
    || event.Scroll? || event.ScheduledScroll? || event.Content? || event.Resize? || event.Layout?
    || event.Send? || event.Jump?
  }

  predicate Attached(v: View) {
    !v.stick.released && v.interactingUntil == 0.0 && v.upwardInteractingUntil == 0.0
  }

  lemma QuietKeepsAttached(threshold: real, s: Step)
    requires s.now >= 0.0 && IsQuiet(s.event) && Attached(s.before)
    ensures Attached(After(threshold, s))
  {
  }

  /** After a send no interleaving of scroll events, layout and content changes releases follow. */
  lemma {:induction false} SendHoldsFollow(threshold: real, run: seq<Step>, n: nat)
    requires Linked(threshold, run) && n < |run| && run[0].event.Send?
    requires forall i :: 0 < i <= n ==> IsQuiet(run[i].event)
    ensures Attached(After(threshold, run[n]))
  {
    if n == 0 {
    } else {
      SendHoldsFollow(threshold, run, n - 1);
      QuietKeepsAttached(threshold, run[n]);
    }
  }

  /** The height has changed by more than half a pixel. */
  predicate Grown(m: Metrics, height: real) {
    Abs(m.scrollHeight - height) > 0.5
  }

  /** Scroll events, layout, and resizes whose notification is held back while the height has not changed. */
  predicate IsWaiting(s: Step, height: real) {
    || s.event.Scroll? || s.event.ScheduledScroll? || s.event.Layout?
    || (s.event.Resize? && !s.event.notify && !Grown(s.before.metrics, height))
  }

  predicate Pending(v: View, height: real) {
    Attached(v) && v.pendingAttachedSendFollow && v.previousContentHeight == height
  }

  lemma WaitingKeepsPending(threshold: real, s: Step, height: real)
    requires s.now >= 0.0 && Pending(s.before, height) && IsWaiting(s, height)
    ensures Pending(After(threshold, s), height)
  {
  }

  lemma {:induction false} SendStaysPending(threshold: real, run: seq<Step>, n: nat)
    requires Linked(threshold, run) && n < |run| && run[0].event.Send?
    requires forall i :: 0 < i <= n ==> IsWaiting(run[i], run[0].before.metrics.scrollHeight)
    ensures Pending(After(threshold, run[n]), run[0].before.metrics.scrollHeight)
  {
    if n == 0 {
    } else {
      SendStaysPending(threshold, run, n - 1);
      WaitingKeepsPending(threshold, run[n], run[0].before.metrics.scrollHeight);
    }
  }

  /**
   * However many scroll events, layouts and held-back resizes come in between, the first resize that
   * finds the height changed after a send ends at the live edge, even if notifications are held back.
   */
  lemma SendFollowsFirstGrowth(threshold: real, run: seq<Step>, n: nat)
    requires Linked(threshold, run) && 0 < n < |run| && run[0].event.Send? && run[n].event.Resize?
    requires forall i :: 0 < i < n ==> IsWaiting(run[i], run[0].before.metrics.scrollHeight)
    requires Grown(run[n].before.metrics, run[0].before.metrics.scrollHeight)
    ensures var shown := After(threshold, run[n]);
      && Attached(shown) && shown.metrics.scrollTop == MaxScrollTop(run[n].before.metrics)
      && shown.metrics.scrollHeight == run[n].before.metrics.scrollHeight
  {
    SendStaysPending(threshold, run, n - 1);
    assert run[n].before == After(threshold, run[n - 1]) && run[n].now >= 0.0;
  }

  // ----- our own scrolls -----

  /** A content change that pins the view to an edge it was not at. */
  predicate Pins(threshold: real, s: Step) {
    && s.event.Content?
    && !s.before.stick.released && !ReleasesOnContent(s.before, threshold, s.now)
    && s.before.metrics.scrollTop != MaxScrollTop(s.before.metrics)
  }

  predicate IsBurst(s: Step, pinned: real) {
    (s.event.Scroll? || s.event.ScheduledScroll? || s.event.Layout?) && s.now < pinned + PROGRAMMATIC_SUPPRESS_MS
  }

  /**
   * A pin is not misread as the reader's doing: for 120 ms no burst of scroll events releases follow,
   * wherever layout takes the view in between and even if the reader touched it just before.
   */
  lemma {:induction false} PinIsNotMisread(threshold: real, run: seq<Step>, n: nat)
    requires Linked(threshold, run) && n < |run| && Pins(threshold, run[0])
    requires forall i :: 0 < i <= n ==> IsBurst(run[i], run[0].now)
    ensures var shown := After(threshold, run[n]);
      && !shown.stick.released
      && shown.suppressReleaseUntil == run[0].now + PROGRAMMATIC_SUPPRESS_MS
      && (n == 0 ==> shown.metrics.scrollTop == MaxScrollTop(run[0].before.metrics))
  {
    if n == 0 {
    } else {
      PinIsNotMisread(threshold, run, n - 1);
      assert run[n].before == After(threshold, run[n - 1]);
    }
  }

  // ----- the unread flag -----

  predicate UnreadOk(v: View) {
    v.stick.hasUnreadBelow ==> v.stick.released
  }

  lemma StepKeepsUnreadOk(threshold: real, s: Step)
    requires UnreadOk(s.before)
    ensures UnreadOk(After(threshold, s))
  {
    match s.event
    case Content => ContentKeepsUnreadOk(threshold, s.before, s.now, s.anchor);
    case Resize(_) => ContentKeepsUnreadOk(threshold, s.before.(pendingAttachedSendFollow := false), s.now, s.anchor);
    case _ =>
  }

  lemma ContentKeepsUnreadOk(threshold: real, v: View, now: real, anchor: Option<real>)
    requires UnreadOk(v)
    ensures UnreadOk(ContentChanged(v, threshold, now, anchor))
  {
  }

  /** In every run the unread flag is up only while the reader is away from the edge. */
  lemma {:induction false} UnreadOnlyWhileReleased(threshold: real, run: seq<Step>, n: nat)
    requires IsRun(threshold, run) && n < |run|
    ensures UnreadOk(After(threshold, run[n]))
  {
    if n == 0 {
    } else {
      UnreadOnlyWhileReleased(threshold, run, n - 1);
    }
    StepKeepsUnreadOk(threshold, run[n]);
  }

  /** While released, a content change raises it exactly when more than half a pixel was added below the anchor row. */
  lemma UnreadRaised(threshold: real, v: View, now: real, top: real)
    requires Reading(v)
    ensures var drift := top - v.anchorBaselineTopPx.value;
      var growth := v.metrics.scrollHeight - v.previousContentHeight;
      var below := if drift > 0.0 then growth - drift else growth;
      ContentChanged(v, threshold, now, Some(top)).stick.hasUnreadBelow <==> v.stick.hasUnreadBelow || below > 0.5
  {
  }

  // ----- while released: the anchor row stays put -----

  /** Of all the positions the controller asks for, a clamping host changes only a correction beyond the content. */
  lemma OnlyCorrectionsAreClamped(m: Metrics, action: Action, rowTop: Option<real>)
    ensures Target(m, true, action, rowTop) == Target(m, false, action, rowTop)
       <==> !(action.PreserveAnchor? && Max(0.0, m.scrollTop + action.deltaPx) > MaxScrollTop(m))
  {
  }

  /** Where the anchor row stands on screen. */
  function Offset(v: View): real
    requires v.anchorBaselineTopPx.Some?
  {
    v.anchorBaselineTopPx.value - v.metrics.scrollTop
  }

  predicate Reading(v: View) {
    v.stick.released && v.anchorBaselineTopPx.Some?
  }

  /** The host can go where the correction for a row moved by `drift` asks. */
  predicate CanCorrect(v: View, drift: real) {
    && v.metrics.scrollTop + drift >= 0.0
    && (v.clamps ==> v.metrics.scrollTop + drift <= MaxScrollTop(v.metrics))
  }

  /**
   * A content change keeps the row where it was exactly when the correction does not run into the top,
   * nor on a clamping host into the end of the content.
   */
  lemma ContentKeepsOffset(threshold: real, v: View, now: real, top: real)
    requires Reading(v)
    ensures var shown := ContentChanged(v, threshold, now, Some(top));
      && Reading(shown)
      && shown.anchorBaselineTopPx == Some(top)
      && (Offset(shown) == Offset(v) <==>
          top == v.anchorBaselineTopPx.value || CanCorrect(v, top - v.anchorBaselineTopPx.value))
  {
  }

  /**
   * A step of reading: content changes that can be corrected, layout that leaves the position
   * alone, and scroll events away from the edge that find the row where it was last measured.
   */
  predicate IsReadingStep(threshold: real, s: Step) {
    && s.anchor.Some?
    && s.before.anchorBaselineTopPx.Some?
    && var moved := s.anchor.value - s.before.anchorBaselineTopPx.value;
       match s.event
       case Content => moved == 0.0 || CanCorrect(s.before, moved)
       case Resize(notify) => !notify || moved == 0.0 || CanCorrect(s.before, moved)
       case Layout(metrics, _) => metrics.scrollTop == s.before.metrics.scrollTop
       case Scroll(_) => moved == 0.0 && !Reengages(threshold, s)
       case ScheduledScroll => moved == 0.0 && !Reengages(threshold, s)
       case _ => false
  }

  /** A handled scroll at the edge takes follow up again, unless the reader was just moving up. */
  predicate Reengages(threshold: real, s: Step) {
    && HandlesScroll(s)
    && IsAtBottom(s.before.metrics, threshold)
    && !(s.now < s.before.upwardInteractingUntil && s.before.stick.released)
  }

  lemma ScrollReengages(threshold: real, s: Step)
    requires HandlesScroll(s) && s.before.stick.released
    ensures !After(threshold, s).stick.released <==> Reengages(threshold, s)
    ensures Reengages(threshold, s) ==> After(threshold, s).stick == INITIAL_STICK
  {
  }

  lemma ReadingStepKeepsOffset(threshold: real, s: Step)
    requires Reading(s.before) && IsReadingStep(threshold, s)
    ensures Reading(After(threshold, s)) && Offset(After(threshold, s)) == Offset(s.before)
  {
    if s.event.Content? || s.event.Resize? {
      ContentKeepsOffset(threshold, s.before, s.now, s.anchor.value);
      ContentKeepsOffset(threshold, s.before.(pendingAttachedSendFollow := false), s.now, s.anchor.value);
    }
  }

  /** Over any number of such steps the anchor row does not move on screen. */
  lemma {:induction false} AnchorStaysPut(threshold: real, run: seq<Step>, n: nat)
    requires Linked(threshold, run) && n < |run| && Reading(run[0].before)
    requires forall i :: 0 <= i <= n ==> IsReadingStep(threshold, run[i])
    ensures Reading(After(threshold, run[n])) && Offset(After(threshold, run[n])) == Offset(run[0].before)
  {
    if n == 0 {
    } else {
      AnchorStaysPut(threshold, run, n - 1);
    }
    ReadingStepKeepsOffset(threshold, run[n]);
  }

  /**
   * The measuring condition is needed: a scroll event handled between a layout change and its
   * notification re-measures the row, and the notification then corrects nothing.
   */
  lemma ScrollBeforeNotifyLosesCorrection(threshold: real, v: View, now: real, top: real)
    requires Reading(v) && !IsAtBottom(v.metrics, threshold)
    ensures var scrolled := ScrollHandled(v, threshold, now, Some(top));
      var shown := ContentChanged(scrolled, threshold, now, Some(top));
      && Reading(shown) && shown.metrics.scrollTop == v.metrics.scrollTop
      && Offset(shown) - Offset(v) == top - v.anchorBaselineTopPx.value
  {
  }

  // ----- while following: every frame ends at the live edge (contentVisibilityTrace.ts) -----

  datatype Frame = Frame(index: nat, stick: Stick, metrics: Metrics, distanceFromBottomPx: real, atBottom: bool)

  datatype Moment = Moment(now: real, anchor: Option<real>)

  function Snapshot(index: nat, v: View, threshold: real): Frame {
    Frame(index, v.stick, v.metrics, DistanceFromBottom(v.metrics), IsAtBottom(v.metrics, threshold))
  }

  /** The view after the first `n` heights have been applied and notified. */
  function Remeasured(own: real, v: View, heights: seq<real>, moments: seq<Moment>, n: nat): View
    requires n <= |heights| && |moments| == |heights|
  {
    if n == 0 then v
    else HeightApplied(own, Remeasured(own, v, heights, moments, n - 1), heights[n - 1], moments[n - 1])
  }

  function HeightApplied(own: real, v: View, height: real, moment: Moment): View {
    ContentChanged(v.(metrics := v.metrics.(scrollHeight := height)), own, moment.now, moment.anchor)
  }

  function Traced(own: real, v: View, heights: seq<real>, moments: seq<Moment>, threshold: real, n: nat): seq<Frame>
    requires n <= |heights| && |moments| == |heights|
  {
    if n == 0 then [Snapshot(0, v, threshold)]
    else Traced(own, v, heights, moments, threshold, n - 1)
         + [Snapshot(n, Remeasured(own, v, heights, moments, n), threshold)]
  }

  method ApplyHeight(c: Controller, height: real, moment: Moment)
    modifies c, c.host
    ensures c.Current() == HeightApplied(c.threshold, old(c.Current()), height, moment)
  {
    c.host.metrics := c.host.metrics.(scrollHeight := height);
    c.NotifyContentChanged(moment.now, moment.anchor);
  }

  method TraceContentVisibilityRemeasure(c: Controller, heights: seq<real>, moments: seq<Moment>, threshold: real)
      returns (frames: seq<Frame>)
    requires |moments| == |heights|
    modifies c, c.host
    ensures frames == Traced(c.threshold, old(c.Current()), heights, moments, threshold, |heights|)
    ensures c.Current() == Remeasured(c.threshold, old(c.Current()), heights, moments, |heights|)
  {
    ghost var start := c.Current();
    frames := [Snapshot(0, c.Current(), threshold)];
    var index := 1;
    while index <= |heights|
      invariant 1 <= index <= |heights| + 1
      invariant c.Current() == Remeasured(c.threshold, start, heights, moments, index - 1)
      invariant frames == Traced(c.threshold, start, heights, moments, threshold, index - 1)
    {
      ApplyHeight(c, heights[index - 1], moments[index - 1]);
      frames := frames + [Snapshot(index, c.Current(), threshold)];
      index := index + 1;
    }
  }

  lemma {:induction false} TracedAt(own: real, v: View, heights: seq<real>, moments: seq<Moment>, threshold: real,
                                    n: nat, k: nat)
    requires k <= n <= |heights| && |moments| == |heights|
    ensures var frames := Traced(own, v, heights, moments, threshold, n);
      |frames| == n + 1 && frames[k] == Snapshot(k, Remeasured(own, v, heights, moments, k), threshold)
  {
    if n == 0 {
    } else {
      TracedAt(own, v, heights, moments, threshold, n - 1, if k < n then k else 0);
    }
  }

  ghost predicate WindowsClosed(v: View, moments: seq<Moment>) {
    forall i :: 0 <= i < |moments| ==>
      moments[i].now >= v.interactingUntil && moments[i].now >= v.upwardInteractingUntil
  }

  lemma {:induction false} FollowingEndsAtEdge(own: real, v: View, heights: seq<real>, moments: seq<Moment>, n: nat)
    requires |moments| == |heights| && n <= |heights| && !v.stick.released && WindowsClosed(v, moments)
    ensures var shown := Remeasured(own, v, heights, moments, n);
      && shown.stick == v.stick
      && shown.interactingUntil == v.interactingUntil && shown.upwardInteractingUntil == v.upwardInteractingUntil
      && shown.metrics.clientHeight == v.metrics.clientHeight
      && (n > 0 ==> shown.metrics.scrollHeight == heights[n - 1]
                    && shown.metrics.scrollTop == Max(0.0, heights[n - 1] - v.metrics.clientHeight))
  {
    if n == 0 {
    } else {
      FollowingEndsAtEdge(own, v, heights, moments, n - 1);
    }
  }

  /**
   * No frame after the first strands the follower above the edge, whatever the heights: exactly when
   * the threshold allows for content that is shorter than the viewport.
   */
  lemma FollowIsNeverStranded(own: real, v: View, heights: seq<real>, moments: seq<Moment>, threshold: real, k: nat)
    requires |moments| == |heights| && 0 < k <= |heights| && !v.stick.released && WindowsClosed(v, moments)
    ensures var frames := Traced(own, v, heights, moments, threshold, |heights|);
      && |frames| == |heights| + 1
      && frames[k].metrics.scrollHeight == heights[k - 1]
      && (FollowIsStranded(frames[k].stick, frames[k].metrics, threshold)
          <==> Min(0.0, heights[k - 1] - v.metrics.clientHeight) > threshold)
  {
    TracedAt(own, v, heights, moments, threshold, |heights|, k);
    FollowingEndsAtEdge(own, v, heights, moments, k);
  }
}
