/**
 * The stick-to-bottom viewport (packages/transcript-viewport/src/follow.ts, controller.ts and
 * contentVisibilityTrace.ts): the controller as a class, and the transitions on values that specify it.
 */
module Viewport {
  import opened Wrappers

  // ----- follow.ts -----

  datatype Metrics = Metrics(scrollTop: real, scrollHeight: real, clientHeight: real)

  datatype Stick = Stick(released: bool, hasUnreadBelow: bool)

  datatype Action = NoAction | ToBottom | PreserveAnchor(deltaPx: real) | AnchorRowNearTop(peekPx: real)

  const INITIAL_STICK: Stick := Stick(false, false)

  const PROGRAMMATIC_SUPPRESS_MS: real := 120.0
  const INTENT_DECAY_MS: real := 150.0
  const UPWARD_INTENT_DECAY_MS: real := 700.0

  const PAGING_KEYS: set<string> :=
    {"PageUp", "PageDown", " ", "Spacebar", "ArrowUp", "ArrowDown", "Home", "End"}

  const UPWARD_KEYS: set<string> := {"PageUp", "ArrowUp", "Home"}

  function Max(a: real, b: real): real {
    if a < b then b else a
  }

  function Min(a: real, b: real): real {
    if a < b then a else b
  }

  function Abs(a: real): real {
    if a < 0.0 then -a else a
  }

  function DistanceFromBottom(m: Metrics): real {
    m.scrollHeight - m.scrollTop - m.clientHeight
  }

  predicate IsAtBottom(m: Metrics, threshold: real) {
    DistanceFromBottom(m) <= threshold
  }

  function OnScrollMeasure(state: Stick, m: Metrics, threshold: real): Stick {
    if IsAtBottom(m, threshold) then INITIAL_STICK else state
  }

  function OnContentChange(state: Stick, anchorDeltaPx: real, grewBelow: bool): (Stick, Action) {
    if !state.released then (state, ToBottom)
    else
      (Stick(true, state.hasUnreadBelow || grewBelow),
       if anchorDeltaPx != 0.0 then PreserveAnchor(anchorDeltaPx) else NoAction)
  }

  predicate FollowIsStranded(state: Stick, m: Metrics, threshold: real) {
    !state.released && !IsAtBottom(m, threshold)
  }

  // ----- controller.ts: the state and each handler's effect on it -----

  datatype View = View(
    stick: Stick,
    suppressReleaseUntil: real,
    interactingUntil: real,
    upwardInteractingUntil: real,
    lastScrollTop: real,
    previousContentHeight: real,
    anchorBaselineTopPx: Option<real>,
    pendingAttachedSendFollow: bool,
    scheduled: bool,
    metrics: Metrics,
    clientWidth: real,
    clamps: bool
  )

  function MaxScrollTop(m: Metrics): real {
    Max(0.0, m.scrollHeight - m.clientHeight)
  }

  /** What a host makes of an assigned position: a browser clamps it to the content, a plain object keeps it. */
  function Stored(m: Metrics, clamps: bool, position: real): real {
    if clamps then Min(MaxScrollTop(m), Max(0.0, position)) else position
  }

  /** Where an action leaves the host; `rowTop` is the resolver's answer, if any. */
  function Target(m: Metrics, clamps: bool, action: Action, rowTop: Option<real>): real {
    match action
    case NoAction => m.scrollTop
    case ToBottom => MaxScrollTop(m)
    case PreserveAnchor(deltaPx) => Stored(m, clamps, Max(0.0, m.scrollTop + deltaPx))
    case AnchorRowNearTop(peekPx) =>
      if rowTop.None? then m.scrollTop else Min(MaxScrollTop(m), Max(0.0, rowTop.value - peekPx))
  }

  function Applied(v: View, action: Action, rowTop: Option<real>, now: real): View {
    var target := Target(v.metrics, v.clamps, action, rowTop);
    v.(metrics := v.metrics.(scrollTop := target),
       suppressReleaseUntil :=
         if target != v.metrics.scrollTop then now + PROGRAMMATIC_SUPPRESS_MS else v.suppressReleaseUntil,
       previousContentHeight := v.metrics.scrollHeight,
       lastScrollTop := target)
  }

  function ArmedIntent(v: View, now: real): View {
    v.(pendingAttachedSendFollow := false, suppressReleaseUntil := 0.0, interactingUntil := now + INTENT_DECAY_MS)
  }

  function ArmedUpwardIntent(v: View, now: real): View {
    ArmedIntent(v, now).(upwardInteractingUntil := now + UPWARD_INTENT_DECAY_MS)
  }

  function ArmedDownwardIntent(v: View, now: real): View {
    ArmedIntent(v, now).(upwardInteractingUntil := 0.0)
  }

  function Captured(v: View, anchor: Option<real>): View {
    v.(anchorBaselineTopPx := if v.stick.released then anchor else None)
  }

  /** Released with the unread flag kept, and the anchor recorded. */
  function Released(v: View, anchor: Option<real>): View {
    v.(stick := v.stick.(released := true), pendingAttachedSendFollow := false, anchorBaselineTopPx := anchor)
  }

  function UpwardIntent(v: View, now: real, anchor: Option<real>): View {
    Released(ArmedUpwardIntent(v, now), anchor)
  }

  function ScrollHandled(v: View, threshold: real, now: real, anchor: Option<real>): View {
    var movedUp := v.metrics.scrollTop < v.lastScrollTop;
    var seen := v.(lastScrollTop := v.metrics.scrollTop);
    if IsAtBottom(v.metrics, threshold) then
      if now < v.upwardInteractingUntil && v.stick.released then Captured(seen, anchor)
      else Captured(seen.(stick := OnScrollMeasure(v.stick, v.metrics, threshold)), anchor)
    else if now < v.interactingUntil && !(now < v.suppressReleaseUntil) then
      var extended :=
        if !movedUp then seen
        else
          seen.(interactingUntil := now + INTENT_DECAY_MS,
                upwardInteractingUntil :=
                  if now < v.upwardInteractingUntil then now + UPWARD_INTENT_DECAY_MS else v.upwardInteractingUntil);
      Released(extended, anchor)
    else Captured(seen, anchor)
  }

  /** Whether a content change finds an intent window open and so releases. */
  predicate ReleasesOnContent(v: View, threshold: real, now: real) {
    && !v.stick.released
    && (now < v.upwardInteractingUntil || (!IsAtBottom(v.metrics, threshold) && now < v.interactingUntil))
  }

  function AnchorDelta(v: View, anchor: Option<real>): real {
    if v.anchorBaselineTopPx.Some? && v.stick.released && anchor.Some? then anchor.value - v.anchorBaselineTopPx.value
    else 0.0
  }

  function ContentChanged(v: View, threshold: real, now: real, anchor: Option<real>): View {
    ContentFollowed(if ReleasesOnContent(v, threshold, now) then Released(v, anchor) else v, now, anchor)
  }

  /** Growth ends the waiting for it. */
  function Settled(v: View): View {
    if v.stick.released || Abs(v.metrics.scrollHeight - v.previousContentHeight) > 0.5
    then v.(pendingAttachedSendFollow := false) else v
  }

  function Followed(v: View, anchor: Option<real>): (Stick, Action) {
    var growth := v.metrics.scrollHeight - v.previousContentHeight;
    var delta := AnchorDelta(v, anchor);
    OnContentChange(v.stick, delta, growth - Max(0.0, delta) > 0.5)
  }

  /** A content change with follow decided: pin to the edge, or keep the anchor row where it was. */
  function ContentFollowed(v: View, now: real, anchor: Option<real>): View {
    var settled := Settled(v);
    var (stick, action) := Followed(settled, anchor);
    var moved := Applied(settled, action, None, now).(stick := stick);
    if settled.stick.released && anchor.Some? then moved.(anchorBaselineTopPx := anchor) else moved
  }

  function Resized(v: View, threshold: real, now: real, anchor: Option<real>, notify: bool): View {
    var sendHeightChanged :=
      v.pendingAttachedSendFollow && !v.stick.released
      && Abs(v.metrics.scrollHeight - v.previousContentHeight) > 0.5;
    if !sendHeightChanged && !notify then v
    else ContentChanged(v.(pendingAttachedSendFollow := false), threshold, now, anchor)
  }

  function Jumped(v: View, now: real): View {
    Applied(v, ToBottom, None, now).(stick := INITIAL_STICK)
  }

  function Sent(v: View, now: real): View {
    var closed := v.(interactingUntil := 0.0, upwardInteractingUntil := 0.0, pendingAttachedSendFollow := true);
    Applied(closed, ToBottom, None, now).(stick := INITIAL_STICK, anchorBaselineTopPx := None)
  }

  function OpenedAt(v: View, rowTop: Option<real>, peekPx: real, now: real, anchor: Option<real>): View {
    if rowTop.None? then Jumped(v, now)
    else
      Captured(Applied(v, AnchorRowNearTop(peekPx), rowTop, now).(stick := Stick(true, false)), anchor)
  }

  function ScrolledToTop(v: View, now: real, anchor: Option<real>): View {
    var moved := v.metrics.scrollTop != 0.0;
    Captured(
      v.(metrics := v.metrics.(scrollTop := 0.0),
         suppressReleaseUntil := if moved then now + PROGRAMMATIC_SUPPRESS_MS else v.suppressReleaseUntil,
         previousContentHeight := v.metrics.scrollHeight,
         lastScrollTop := 0.0,
         stick := Stick(true, false)),
      anchor)
  }

  // ----- controller.ts: the object -----

  class ScrollHost {
    var metrics: Metrics
    var clientWidth: real
    const clamps: bool

    constructor (metrics: Metrics, clientWidth: real, clamps: bool)
      ensures this.metrics == metrics && this.clientWidth == clientWidth && this.clamps == clamps
    {
      this.metrics := metrics;
      this.clientWidth := clientWidth;
      this.clamps := clamps;
    }

    /** Assigning `scrollTop`. */
    method ScrollTo(position: real)
      modifies this`metrics
      ensures metrics == old(metrics).(scrollTop := Stored(old(metrics), clamps, position))
    {
      metrics := metrics.(scrollTop := Stored(metrics, clamps, position));
    }
  }

  /** Each handler reads the clock once and is given the answers of the row and anchor resolvers. */
  class Controller {
    const host: ScrollHost
    const threshold: real
    var stick: Stick
    var suppressReleaseUntil: real
    var interactingUntil: real
    var upwardInteractingUntil: real
    var lastScrollTop: real
    var previousContentHeight: real
    var anchorBaselineTopPx: Option<real>
    var pendingAttachedSendFollow: bool
    var scheduled: bool

    function Current(): View
      reads this, host
    {
      View(stick, suppressReleaseUntil, interactingUntil, upwardInteractingUntil, lastScrollTop,
           previousContentHeight, anchorBaselineTopPx, pendingAttachedSendFollow, scheduled,
           host.metrics, host.clientWidth, host.clamps)
    }

    constructor (host: ScrollHost, threshold: real)
      ensures this.host == host && this.threshold == threshold
      ensures Current() == Fresh(host.metrics, host.clientWidth, host.clamps)
    {
      this.host := host;
      this.threshold := threshold;
      stick := INITIAL_STICK;
      suppressReleaseUntil := 0.0;
      interactingUntil := 0.0;
      upwardInteractingUntil := 0.0;
      lastScrollTop := host.metrics.scrollTop;
      previousContentHeight := host.metrics.scrollHeight;
      anchorBaselineTopPx := None;
      pendingAttachedSendFollow := false;
      scheduled := false;
    }

    method ArmIntent(now: real)
      modifies this
      ensures Current() == ArmedIntent(old(Current()), now)
    {
      pendingAttachedSendFollow := false;
      suppressReleaseUntil := 0.0;
      interactingUntil := now + INTENT_DECAY_MS;
    }

    method ArmUpwardIntent(now: real)
      modifies this
      ensures Current() == ArmedUpwardIntent(old(Current()), now)
    {
      pendingAttachedSendFollow := false;
      suppressReleaseUntil := 0.0;
      interactingUntil := now + INTENT_DECAY_MS;
      upwardInteractingUntil := now + UPWARD_INTENT_DECAY_MS;
    }

    method CaptureAnchorBaseline(anchor: Option<real>)
      modifies this
      ensures Current() == Captured(old(Current()), anchor)
    {
      if !stick.released {
        anchorBaselineTopPx := None;
        return;
      }
      anchorBaselineTopPx := anchor;
    }

    method ReleaseForUserIntent(anchor: Option<real>)
      modifies this
      ensures Current() == Released(old(Current()).(suppressReleaseUntil := 0.0), anchor)
    {
      pendingAttachedSendFollow := false;
      suppressReleaseUntil := 0.0;
      stick := Stick(true, stick.hasUnreadBelow);
      CaptureAnchorBaseline(anchor);
    }

    /** What the host kept tells whether it moved; only a correction beyond the content can be clamped. */
    method ApplyScrollAction(action: Action, rowTop: Option<real>) returns (moved: bool)
      modifies host`metrics
      ensures host.metrics == old(host.metrics).(scrollTop := Target(old(host.metrics), host.clamps, action, rowTop))
      ensures moved <==> host.metrics.scrollTop != old(host.metrics.scrollTop)
    {
      var before := host.metrics.scrollTop;
      match action {
        case NoAction =>
          return false;
        case ToBottom =>
          host.ScrollTo(MaxScrollTop(host.metrics));
          return host.metrics.scrollTop != before;
        case PreserveAnchor(deltaPx) =>
          host.ScrollTo(Max(0.0, before + deltaPx));
          return host.metrics.scrollTop != before;
        case AnchorRowNearTop(peekPx) =>
          if rowTop.None? {
            return false;
          }
          host.ScrollTo(Min(MaxScrollTop(host.metrics), Max(0.0, rowTop.value - peekPx)));
          return host.metrics.scrollTop != before;
      }
    }

    method Apply(action: Action, rowTop: Option<real>, now: real)
      modifies this, host
      ensures Current() == Applied(old(Current()), action, rowTop, now)
    {
      var metrics := host.metrics;
      var moved := ApplyScrollAction(action, rowTop);
      if moved {
        suppressReleaseUntil := now + PROGRAMMATIC_SUPPRESS_MS;
      }
      previousContentHeight := metrics.scrollHeight;
      lastScrollTop := host.metrics.scrollTop;
    }

    method HandleScroll(now: real, anchor: Option<real>)
      modifies this
      ensures Current() == ScrollHandled(old(Current()), threshold, now, anchor)
    {
      var metrics := host.metrics;
      var movedUp := metrics.scrollTop < lastScrollTop;
      lastScrollTop := metrics.scrollTop;
      var hasUpwardIntent := now < upwardInteractingUntil;
      if IsAtBottom(metrics, threshold) {
        if hasUpwardIntent && stick.released {
          CaptureAnchorBaseline(anchor);
          return;
        }
        stick := OnScrollMeasure(stick, metrics, threshold);
        CaptureAnchorBaseline(anchor);
        return;
      }
      var userInteracting := now < interactingUntil;
      var ourOwnScroll := now < suppressReleaseUntil;
      if userInteracting && !ourOwnScroll {
        pendingAttachedSendFollow := false;
        if movedUp {
          interactingUntil := now + INTENT_DECAY_MS;
          if now < upwardInteractingUntil {
            upwardInteractingUntil := now + UPWARD_INTENT_DECAY_MS;
          }
        }
        stick := Stick(true, stick.hasUnreadBelow);
      }
      CaptureAnchorBaseline(anchor);
    }

    method ScheduleHandleScroll(coalesce: bool, now: real, anchor: Option<real>)
      modifies this
      ensures Current() == Next(threshold, old(Current()), Scroll(coalesce), now, anchor)
    {
      if !coalesce {
        HandleScroll(now, anchor);
        return;
      }
      if scheduled {
        return;
      }
      scheduled := true;
    }

    method RunScheduledScrollWork(now: real, anchor: Option<real>)
      requires scheduled
      modifies this
      ensures Current() == Next(threshold, old(Current()), ScheduledScroll, now, anchor)
    {
      scheduled := false;
      HandleScroll(now, anchor);
    }

    method ReleaseIfReading(now: real, anchor: Option<real>)
      modifies this
      ensures Current() == if ReleasesOnContent(old(Current()), threshold, now) then Released(old(Current()), anchor)
                           else old(Current())
    {
      var hasUpwardIntent := now < upwardInteractingUntil;
      if !stick.released && hasUpwardIntent {
        pendingAttachedSendFollow := false;
        stick := Stick(true, stick.hasUnreadBelow);
        CaptureAnchorBaseline(anchor);
      } else if !stick.released && !IsAtBottom(host.metrics, threshold) && now < interactingUntil {
        pendingAttachedSendFollow := false;
        stick := Stick(true, stick.hasUnreadBelow);
        CaptureAnchorBaseline(anchor);
      }
    }

    method SettleSend()
      modifies this`pendingAttachedSendFollow
      ensures Current() == Settled(old(Current()))
    {
      var totalGrowthPx := host.metrics.scrollHeight - previousContentHeight;
      if pendingAttachedSendFollow && (stick.released || Abs(totalGrowthPx) > 0.5) {
        pendingAttachedSendFollow := false;
      }
    }

    method Decide(anchorNowTop: Option<real>) returns (next: Stick, action: Action)
      ensures stick.released || anchorNowTop.None? ==> (next, action) == Followed(Current(), anchorNowTop)
    {
      var totalGrowthPx := host.metrics.scrollHeight - previousContentHeight;
      var anchorDeltaPx :=
        if anchorBaselineTopPx.Some? && anchorNowTop.Some? then anchorNowTop.value - anchorBaselineTopPx.value else 0.0;
      var grewBelow := totalGrowthPx - Max(0.0, anchorDeltaPx) > 0.5;
      var result := OnContentChange(stick, anchorDeltaPx, grewBelow);
      return result.0, result.1;
    }

    method FollowContent(now: real, anchor: Option<real>)
      modifies this, host
      ensures Current() == ContentFollowed(old(Current()), now, anchor)
    {
      SettleSend();
      var anchorNowTop := if stick.released then anchor else None;
      var next, action := Decide(anchorNowTop);
      Apply(action, None, now);
      stick := next;
      if anchorNowTop.Some? {
        anchorBaselineTopPx := anchorNowTop;
      }
      previousContentHeight := host.metrics.scrollHeight;
    }

    method NotifyContentChanged(now: real, anchor: Option<real>)
      modifies this, host
      ensures Current() == ContentChanged(old(Current()), threshold, now, anchor)
    {
      ReleaseIfReading(now, anchor);
      FollowContent(now, anchor);
    }

    method ObserveResize(notify: bool, now: real, anchor: Option<real>)
      modifies this, host
      ensures Current() == Resized(old(Current()), threshold, now, anchor, notify)
    {
      var metrics := host.metrics;
      var pendingSendHeightChanged :=
        pendingAttachedSendFollow && !stick.released && Abs(metrics.scrollHeight - previousContentHeight) > 0.5;
      if !pendingSendHeightChanged {
        if !notify {
          return;
        }
      }
      pendingAttachedSendFollow := false;
      NotifyContentChanged(now, anchor);
    }

    method JumpToLatest(now: real)
      modifies this, host
      ensures Current() == Jumped(old(Current()), now)
    {
      Apply(ToBottom, None, now);
      stick := INITIAL_STICK;
    }

    method OnSend(now: real)
      modifies this, host
      ensures Current() == Sent(old(Current()), now)
    {
      interactingUntil := 0.0;
      upwardInteractingUntil := 0.0;
      pendingAttachedSendFollow := true;
      Apply(ToBottom, None, now);
      stick := INITIAL_STICK;
      anchorBaselineTopPx := None;
    }

    method OpenAt(rowTop: Option<real>, peekPx: real, now: real, anchor: Option<real>)
      modifies this, host
      ensures Current() == OpenedAt(old(Current()), rowTop, peekPx, now, anchor)
    {
      if rowTop.None? {
        JumpToLatest(now);
        return;
      }
      Apply(AnchorRowNearTop(peekPx), rowTop, now);
      stick := Stick(true, false);
      CaptureAnchorBaseline(anchor);
    }

    method ScrollToTop(now: real, anchor: Option<real>)
      modifies this, host
      ensures Current() == ScrolledToTop(old(Current()), now, anchor)
    {
      var before := host.metrics.scrollTop;
      host.ScrollTo(0.0);
      if host.metrics.scrollTop != before {
        suppressReleaseUntil := now + PROGRAMMATIC_SUPPRESS_MS;
      }
      previousContentHeight := host.metrics.scrollHeight;
      lastScrollTop := host.metrics.scrollTop;
      stick := Stick(true, false);
      CaptureAnchorBaseline(anchor);
    }

    method HandleWheel(deltaY: real, now: real, anchor: Option<real>)
      modifies this
      ensures Current() == Next(threshold, old(Current()), Wheel(deltaY), now, anchor)
    {
      if deltaY < 0.0 {
        ArmUpwardIntent(now);
        ReleaseForUserIntent(anchor);
        return;
      }
      upwardInteractingUntil := 0.0;
      ArmIntent(now);
    }

    method HandleTouch(now: real, anchor: Option<real>)
      modifies this
      ensures Current() == Next(threshold, old(Current()), Touch, now, anchor)
    {
      ArmIntent(now);
    }

    method HandleKeydown(key: string, now: real, anchor: Option<real>)
      modifies this
      ensures Current() == Next(threshold, old(Current()), KeyDown(key), now, anchor)
    {
      if key !in PAGING_KEYS {
        return;
      }
      if key == "PageUp" || key == "ArrowUp" || key == "Home" {
        ArmUpwardIntent(now);
        ReleaseForUserIntent(anchor);
        return;
      }
      upwardInteractingUntil := 0.0;
      ArmIntent(now);
    }

    method HandlePointerDown(offsetX: real, now: real, anchor: Option<real>)
      modifies this
      ensures Current() == Next(threshold, old(Current()), PointerDown(offsetX), now, anchor)
    {
      if offsetX > host.clientWidth {
        ArmIntent(now);
      }
    }
  }

  // ----- runs -----

  /** `Layout` is everything that moves the geometry without the controller: the reader's own scrolling, new content. */
  datatype Event =
    | Scroll(coalesce: bool)
    | ScheduledScroll
    | Wheel(deltaY: real)
    | Touch
    | KeyDown(key: string)
    | PointerDown(offsetX: real)
    | Content
    | Resize(notify: bool)
    | Send
    | Jump
    | Open(rowTop: Option<real>, peekPx: real)
    | Top
    | Layout(metrics: Metrics, clientWidth: real)

  function Fresh(metrics: Metrics, clientWidth: real, clamps: bool): View {
    View(INITIAL_STICK, 0.0, 0.0, 0.0, metrics.scrollTop, metrics.scrollHeight, None, false, false,
         metrics, clientWidth, clamps)
  }

  function Next(threshold: real, v: View, event: Event, now: real, anchor: Option<real>): View {
    match event
    case Scroll(coalesce) => if coalesce then v.(scheduled := true) else ScrollHandled(v, threshold, now, anchor)
    case ScheduledScroll =>
      if v.scheduled then ScrollHandled(v.(scheduled := false), threshold, now, anchor) else v
    case Wheel(deltaY) => if deltaY < 0.0 then UpwardIntent(v, now, anchor) else ArmedDownwardIntent(v, now)
    case Touch => ArmedIntent(v, now)
    case KeyDown(key) =>
      if key !in PAGING_KEYS then v
      else if key in UPWARD_KEYS then UpwardIntent(v, now, anchor)
      else ArmedDownwardIntent(v, now)
    case PointerDown(offsetX) => if offsetX > v.clientWidth then ArmedIntent(v, now) else v
    case Content => ContentChanged(v, threshold, now, anchor)
    case Resize(notify) => Resized(v, threshold, now, anchor, notify)
    case Send => Sent(v, now)
    case Jump => Jumped(v, now)
    case Open(rowTop, peekPx) => OpenedAt(v, rowTop, peekPx, now, anchor)
    case Top => ScrolledToTop(v, now, anchor)
    case Layout(metrics, clientWidth) => v.(metrics := metrics, clientWidth := clientWidth)
  }
}
