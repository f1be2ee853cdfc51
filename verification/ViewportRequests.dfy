/**
 * Where every request to the stick-to-bottom viewport ends (packages/transcript-viewport/src/controller.ts),
 * for every state and clock reading and in plain fields, so that it can be read without the transitions.
 */
module ViewportRequests {
  import opened Wrappers
  import opened Viewport

  /** The geometry and the follow bookkeeping that an intent event leaves alone. */
  ghost predicate SamePlace(v: View, w: View) {
    && w.metrics == v.metrics && w.clientWidth == v.clientWidth && w.clamps == v.clamps
    && w.lastScrollTop == v.lastScrollTop && w.previousContentHeight == v.previousContentHeight
    && w.scheduled == v.scheduled
  }

  // ----- intent -----

  /** Turning the wheel up or paging up lets go of the edge at once, wherever the view is. */
  lemma UpwardIntentReleases(threshold: real, v: View, event: Event, now: real, anchor: Option<real>)
    requires (event.Wheel? && event.deltaY < 0.0) || (event.KeyDown? && event.key in {"PageUp", "ArrowUp", "Home"})
    ensures var w := Next(threshold, v, event, now, anchor);
      && w.stick.released && w.stick.hasUnreadBelow == v.stick.hasUnreadBelow
      && w.anchorBaselineTopPx == anchor
      && w.interactingUntil == now + 150.0 && w.upwardInteractingUntil == now + 700.0
      && w.suppressReleaseUntil == 0.0 && !w.pendingAttachedSendFollow
      && SamePlace(v, w)
  {
  }

  /** Any other wheel turn or paging key ends upward intent and opens the short window; follow stays as it was. */
  lemma DownwardIntentKeepsFollow(threshold: real, v: View, event: Event, now: real, anchor: Option<real>)
    requires
      || (event.Wheel? && event.deltaY >= 0.0)
      || (event.KeyDown? && event.key in {"PageDown", " ", "Spacebar", "ArrowDown", "End"})
    ensures var w := Next(threshold, v, event, now, anchor);
      && w.stick == v.stick && w.anchorBaselineTopPx == v.anchorBaselineTopPx
      && w.interactingUntil == now + 150.0 && w.upwardInteractingUntil == 0.0
      && w.suppressReleaseUntil == 0.0 && !w.pendingAttachedSendFollow
      && SamePlace(v, w)
  {
  }

  /** A touch, or a press right of the content, only opens the short window. */
  lemma TouchKeepsFollow(threshold: real, v: View, event: Event, now: real, anchor: Option<real>)
    requires event.Touch? || (event.PointerDown? && event.offsetX > v.clientWidth)
    ensures var w := Next(threshold, v, event, now, anchor);
      && w.stick == v.stick && w.anchorBaselineTopPx == v.anchorBaselineTopPx
      && w.interactingUntil == now + 150.0 && w.upwardInteractingUntil == v.upwardInteractingUntil
      && w.suppressReleaseUntil == 0.0 && !w.pendingAttachedSendFollow
      && SamePlace(v, w)
  {
  }

  /** Other keys and presses inside the content are not intent. */
  lemma NoIntentChangesNothing(threshold: real, v: View, event: Event, now: real, anchor: Option<real>)
    requires
      || (event.PointerDown? && event.offsetX <= v.clientWidth)
      || (event.KeyDown?
          && event.key !in {"PageUp", "ArrowUp", "Home", "PageDown", " ", "Spacebar", "ArrowDown", "End"})
    ensures Next(threshold, v, event, now, anchor) == v
  {
  }

  // ----- requests to be somewhere -----

  /** The view after the controller has moved the host itself: our own scroll is marked exactly when it moved. */
  ghost predicate MovedTo(v: View, w: View, target: real, now: real) {
    && w.metrics == v.metrics.(scrollTop := target)
    && w.lastScrollTop == target && w.previousContentHeight == v.metrics.scrollHeight
    && w.suppressReleaseUntil == (if target != v.metrics.scrollTop then now + 120.0 else v.suppressReleaseUntil)
    && w.clientWidth == v.clientWidth && w.clamps == v.clamps && w.scheduled == v.scheduled
  }

  ghost predicate SameWindows(v: View, w: View) {
    w.interactingUntil == v.interactingUntil && w.upwardInteractingUntil == v.upwardInteractingUntil
  }

  function EdgeOf(m: Metrics): real {
    if m.scrollHeight > m.clientHeight then m.scrollHeight - m.clientHeight else 0.0
  }

  /** Jumping to the latest, or opening a row that is not there, follows again at the live edge. */
  lemma JumpEndsAtEdge(threshold: real, v: View, event: Event, now: real, anchor: Option<real>)
    requires event.Jump? || (event.Open? && event.rowTop.None?)
    ensures var w := Next(threshold, v, event, now, anchor);
      && !w.stick.released && !w.stick.hasUnreadBelow
      && MovedTo(v, w, EdgeOf(v.metrics), now) && SameWindows(v, w)
      && w.anchorBaselineTopPx == v.anchorBaselineTopPx && w.pendingAttachedSendFollow == v.pendingAttachedSendFollow
  {
  }

  /** A send does too, closes both windows, and waits for the content to grow. */
  lemma SendEndsAtEdge(threshold: real, v: View, now: real, anchor: Option<real>)
    ensures var w := Next(threshold, v, Send, now, anchor);
      && !w.stick.released && !w.stick.hasUnreadBelow
      && MovedTo(v, w, EdgeOf(v.metrics), now)
      && w.interactingUntil == 0.0 && w.upwardInteractingUntil == 0.0
      && w.anchorBaselineTopPx == None && w.pendingAttachedSendFollow
  {
  }

  /** Opening at a row lets go and puts the row `peek` below the top, as far as the content goes. */
  lemma OpenEndsNearRow(threshold: real, v: View, top: real, peek: real, now: real, anchor: Option<real>)
    ensures var w := Next(threshold, v, Open(Some(top), peek), now, anchor);
      var wanted := if top - peek < 0.0 then 0.0 else top - peek;
      && w.stick.released && !w.stick.hasUnreadBelow
      && MovedTo(v, w, if wanted < EdgeOf(v.metrics) then wanted else EdgeOf(v.metrics), now) && SameWindows(v, w)
      && w.anchorBaselineTopPx == anchor && w.pendingAttachedSendFollow == v.pendingAttachedSendFollow
  {
  }

  lemma TopEndsAtTop(threshold: real, v: View, now: real, anchor: Option<real>)
    ensures var w := Next(threshold, v, Top, now, anchor);
      && w.stick.released && !w.stick.hasUnreadBelow
      && MovedTo(v, w, 0.0, now) && SameWindows(v, w)
      && w.anchorBaselineTopPx == anchor && w.pendingAttachedSendFollow == v.pendingAttachedSendFollow
  {
  }

  // ----- scrolling -----

  predicate Handled(v: View, event: Event) {
    (event.Scroll? && !event.coalesce) || (event.ScheduledScroll? && v.scheduled)
  }

  predicate AwayFromEdge(m: Metrics, threshold: real) {
    m.scrollHeight - m.scrollTop - m.clientHeight > threshold
  }

  /**
   * Away from the edge a handled scroll lets go exactly while the short window is open and no scroll of
   * our own is expected; then upward movement extends the windows that are open.
   */
  lemma ScrollReleasesExactly(threshold: real, v: View, event: Event, now: real, anchor: Option<real>)
    requires Handled(v, event) && AwayFromEdge(v.metrics, threshold)
    ensures var w := Next(threshold, v, event, now, anchor);
      var readers := v.suppressReleaseUntil <= now < v.interactingUntil;
      var up := readers && v.metrics.scrollTop < v.lastScrollTop;
      && (w.stick.released <==> v.stick.released || readers)
      && w.stick.hasUnreadBelow == v.stick.hasUnreadBelow
      && w.anchorBaselineTopPx == (if w.stick.released then anchor else None)
      && w.interactingUntil == (if up then now + 150.0 else v.interactingUntil)
      && w.upwardInteractingUntil
         == (if up && now < v.upwardInteractingUntil then now + 700.0 else v.upwardInteractingUntil)
      && w.pendingAttachedSendFollow == (v.pendingAttachedSendFollow && !readers)
      && w.lastScrollTop == v.metrics.scrollTop && w.metrics == v.metrics
      && w.suppressReleaseUntil == v.suppressReleaseUntil && w.previousContentHeight == v.previousContentHeight
  {
  }

  /** At the edge it follows again with nothing unread, unless the reader has let go and was just moving up. */
  lemma ScrollAtEdge(threshold: real, v: View, event: Event, now: real, anchor: Option<real>)
    requires Handled(v, event) && !AwayFromEdge(v.metrics, threshold)
    ensures var w := Next(threshold, v, event, now, anchor);
      var reading := v.stick.released && now < v.upwardInteractingUntil;
      && w.stick == (if reading then v.stick else Stick(false, false))
      && w.anchorBaselineTopPx == (if reading then anchor else None)
      && SameWindows(v, w) && w.pendingAttachedSendFollow == v.pendingAttachedSendFollow
      && w.lastScrollTop == v.metrics.scrollTop && w.metrics == v.metrics
      && w.suppressReleaseUntil == v.suppressReleaseUntil && w.previousContentHeight == v.previousContentHeight
  {
  }

  /** A coalesced scroll event is only remembered, and handled once later. */
  lemma CoalescedScrollWaits(threshold: real, v: View, now: real, later: real, anchor: Option<real>)
    ensures var waiting := Next(threshold, v, Scroll(true), now, anchor);
      && waiting == v.(scheduled := true)
      && Next(threshold, waiting, ScheduledScroll, later, anchor)
         == Next(threshold, v.(scheduled := false), Scroll(false), later, anchor)
      && (!v.scheduled ==> Next(threshold, v, ScheduledScroll, now, anchor) == v)
  {
  }

  // ----- content -----

  /** A content change lets go exactly inside an intent window, where the short one counts away from the edge only. */
  lemma ContentReleasesExactly(threshold: real, v: View, now: real, anchor: Option<real>)
    ensures var w := Next(threshold, v, Content, now, anchor);
      w.stick.released
      <==> || v.stick.released
           || now < v.upwardInteractingUntil
           || (now < v.interactingUntil && AwayFromEdge(v.metrics, threshold))
  {
  }

  /** While following, a content change ends at the live edge and keeps the windows. */
  lemma ContentFollowsToEdge(threshold: real, v: View, now: real, anchor: Option<real>)
    requires !v.stick.released && now >= v.upwardInteractingUntil
    requires now >= v.interactingUntil || !AwayFromEdge(v.metrics, threshold)
    ensures var w := Next(threshold, v, Content, now, anchor);
      && w.stick == v.stick && MovedTo(v, w, EdgeOf(v.metrics), now) && SameWindows(v, w)
      && w.anchorBaselineTopPx == v.anchorBaselineTopPx
  {
  }

  /** A resize is a content change, unless notifications are held back and no send waits for this growth. */
  lemma ResizeIsContent(threshold: real, v: View, notify: bool, now: real, anchor: Option<real>)
    ensures var growth := v.metrics.scrollHeight - v.previousContentHeight;
      var awaited := v.pendingAttachedSendFollow && !v.stick.released && (growth > 0.5 || growth < -0.5);
      Next(threshold, v, Resize(notify), now, anchor)
      == if notify || awaited
         then Next(threshold, v.(pendingAttachedSendFollow := false), Content, now, anchor)
         else v
  {
  }

  // ----- a nudge is respected -----

  /** Once the reader has let go away from the edge, growth in the window does not pull the view back. */
  lemma NudgeIsRespected(
    threshold: real, v: View, event: Event, nudged: real, moved: Metrics, seen: real, grown: Metrics, noticed: real,
    anchor: real)
    requires (event.Wheel? && event.deltaY < 0.0) || (event.KeyDown? && event.key in {"PageUp", "ArrowUp", "Home"})
    requires AwayFromEdge(moved, threshold) || seen < nudged + 700.0
    requires grown.scrollTop == moved.scrollTop
    ensures var up := Next(threshold, v, event, nudged, Some(anchor));
      var scrolled := Next(threshold, up.(metrics := moved), Scroll(false), seen, Some(anchor));
      var shown := Next(threshold, scrolled.(metrics := grown), Content, noticed, Some(anchor));
      shown.stick.released && shown.metrics == grown
  {
    var up := Next(threshold, v, event, nudged, Some(anchor));
    UpwardIntentReleases(threshold, v, event, nudged, Some(anchor));
    var scrolled := Next(threshold, up.(metrics := moved), Scroll(false), seen, Some(anchor));
    assert scrolled.stick.released && scrolled.anchorBaselineTopPx == Some(anchor);
  }
}
