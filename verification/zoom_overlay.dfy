/** The zoom addon's overlay: `openZoom`, `closeZoom` and the close timer,
    around the single global `currentZoom` reference. Closing is split in two
    steps: `closeZoom` starts the fade-out and schedules a timer; the timer
    removes the overlay and clears `currentZoom`. Between the two,
    `currentZoom` is still set. */
module ZoomOverlay {
  import opened Common
  import ZoomEnable

  /** An overlay element built by `openZoom`: its identity and the SVG clone it shows. */
  datatype Overlay = Overlay(id: nat, clone: ZoomEnable.SvgElement)

  /** The script's state: `currentZoom`, the overlays attached to the body,
      `document.body.style.overflow`, the ids of overlays whose Escape handler
      is attached to the document, the pending close timers, oldest first
      (they all have the same delay, so they fire in that order), and the
      identity the next overlay element gets (every open builds a new one). */
  datatype State = State(
    current: Option<Overlay>,
    dom: seq<Overlay>,
    overflow: string,
    escapeHandlers: seq<nat>,
    timers: seq<Overlay>,
    nextId: nat)

  /** The addon's options that affect the overlay. */
  datatype Options = Options(showCloseButton: bool, enableKeyboardClose: bool)

  /** The three effective states of `currentZoom`. */
  datatype Phase = Closed | Open | Closing

  function PhaseOf(s: State): Phase
  {
    if s.current.None? then Closed
    else if s.timers == [] then Open
    else Closing
  }

  /** The page before any overlay, with whatever overflow the body had. */
  function Init(overflow: string): State
  {
    State(None, [], overflow, [], [], 1)
  }

  /** `xs` with every occurrence of `x` removed. */
  function Without<T(==)>(xs: seq<T>, x: T): (r: seq<T>)
    ensures x !in r
    ensures forall y :: y in xs && y != x ==> y in r
    ensures forall y :: y in r ==> y in xs
    ensures x !in xs ==> r == xs
  {
    if xs == [] then []
    else if xs[0] == x then Without(xs[1..], x)
    else [xs[0]] + Without(xs[1..], x)
  }

  /** `svg.cloneNode(true)` with the zoom-out cursor and without
      `data-zoom-enabled`; listeners are not cloned. */
  function Clone(svg: ZoomEnable.SvgElement): (r: ZoomEnable.SvgElement)
    ensures !ZoomEnable.IsEnabled(r)
    ensures r.attrs.Keys == svg.attrs.Keys - {ZoomEnable.ZoomEnabledAttr}
    ensures forall k :: k in r.attrs ==> r.attrs[k] == svg.attrs[k]
    ensures r.cursor == "zoom-out"
    ensures r.clickHandlers == 0 && r.keyHandlers == 0
  {
    ZoomEnable.SvgElement(svg.attrs - {ZoomEnable.ZoomEnabledAttr}, "zoom-out", 0, 0)
  }

  /** The overlay the next `openZoom(svg)` builds: a new element. */
  function NewOverlay(s: State, svg: ZoomEnable.SvgElement): Overlay
  {
    Overlay(s.nextId, Clone(svg))
  }

  /** `openZoom(svg)`: a no-op while `currentZoom` is set; otherwise a new
      overlay with the clone is attached, the Escape handler is attached when
      `enableKeyboardClose`, the body stops scrolling and `currentZoom` is the
      new overlay. */
  function OpenZoom(s: State, svg: ZoomEnable.SvgElement, o: Options): (r: State)
    ensures s.current.Some? ==> r == s
    ensures s.current.None? ==>
      && r.current == Some(NewOverlay(s, svg))
      && r.dom == s.dom + [NewOverlay(s, svg)]
      && r.overflow == "hidden"
      && r.escapeHandlers == s.escapeHandlers + (if o.enableKeyboardClose then [s.nextId] else [])
      && r.timers == s.timers
      && r.nextId > s.nextId
  {
    if s.current.Some? then s
    else
      var overlay := NewOverlay(s, svg);
      State(Some(overlay), s.dom + [overlay], "hidden",
            s.escapeHandlers + (if o.enableKeyboardClose then [s.nextId] else []), s.timers, s.nextId + 1)
  }

  /** `closeZoom` as written: whenever `currentZoom` is set, a close timer is
      scheduled for it, even if one is already pending. */
  function CloseZoomAsWritten(s: State): (r: State)
    ensures s.current.None? ==> r == s
    ensures s.current.Some? ==> r == s.(timers := s.timers + [s.current.value])
  {
    if s.current.None? then s else s.(timers := s.timers + [s.current.value])
  }

  /** `closeZoom` with the guard that keeps one overlay at most: a no-op when
      no overlay is shown or its close is already pending; otherwise one
      close timer is scheduled and nothing else changes yet. */
  function CloseZoom(s: State): (r: State)
    ensures PhaseOf(s) != Open ==> r == s
    ensures PhaseOf(s) == Open ==> r == s.(timers := [s.current.value])
    ensures PhaseOf(s) == Open ==> PhaseOf(r) == Closing
  {
    if s.current.None? || s.timers != [] then s else s.(timers := [s.current.value])
  }

  /** The oldest close timer fires: its overlay leaves the body if still
      attached (other attached overlays stay), overflow becomes '', that
      overlay's Escape handler is detached (other handlers stay) and
      `currentZoom` is cleared, whatever it points to now. */
  function TimerFire(s: State): (r: State)
    ensures s.timers == [] ==> r == s
    ensures s.timers != [] ==>
      && r.current.None?
      && r.overflow == ""
      && r.dom == Without(s.dom, s.timers[0])
      && r.escapeHandlers == Without(s.escapeHandlers, s.timers[0].id)
      && r.timers == s.timers[1..]
      && r.nextId == s.nextId
  {
    if s.timers == [] then s
    else
      var overlay := s.timers[0];
      State(None, Without(s.dom, overlay), "", Without(s.escapeHandlers, overlay.id), s.timers[1..], s.nextId)
  }

  /** Which `closeZoom` the machine uses. */
  datatype Variant = AsWritten | Guarded

  function Close(v: Variant, s: State): State
  {
    if v.AsWritten? then CloseZoomAsWritten(s) else CloseZoom(s)
  }

  /** `n` attached Escape handlers each call `closeZoom` on one key press.
      Only pending timers change. As written, each call with an overlay shown
      schedules another timer for it; with the guard, the calls act as one. */
  function CloseTimes(v: Variant, s: State, n: nat): (r: State)
    decreases n
    ensures r == s.(timers := r.timers)
    ensures s.current.None? ==> r == s
    ensures v.AsWritten? && s.current.Some? ==>
      && |r.timers| == |s.timers| + n
      && r.timers[..|s.timers|] == s.timers
      && (forall k :: |s.timers| <= k < |r.timers| ==> r.timers[k] == s.current.value)
    ensures v.Guarded? ==> r == (if n == 0 then s else CloseZoom(s))
  {
    if n == 0 then s else CloseTimes(v, Close(v, s), n - 1)
  }

  /** What the user and the timers can do: click a zoom-enabled SVG (or press
      Enter/Space on it), click the close button, click on the overlay
      (`onBackdrop` when the target is the overlay itself rather than its
      content), press Escape, or let the oldest close timer fire. */
  datatype Event =
    | OpenClick(svg: ZoomEnable.SvgElement)
    | CloseButton
    | OverlayClick(onBackdrop: bool)
    | EscapeKey
    | TimerFires

  /** The listeners: a click (or Enter/Space) on an SVG opens; the close
      button, when shown, closes; a click closes only when its target is the
      overlay itself; Escape calls `closeZoom` once per attached handler, so
      never without one; the timer completes a close. */
  function Step(v: Variant, s: State, e: Event, o: Options): (r: State)
    ensures e.OpenClick? ==> r == OpenZoom(s, e.svg, o)
    ensures e.CloseButton? ==> r == (if o.showCloseButton && s.dom != [] then Close(v, s) else s)
    ensures e.OverlayClick? ==> r == (if e.onBackdrop && s.dom != [] then Close(v, s) else s)
    ensures e.EscapeKey? && s.escapeHandlers == [] ==> r == s
    ensures e.EscapeKey? && |s.escapeHandlers| == 1 ==> r == Close(v, s)
    ensures e.TimerFires? ==> r == TimerFire(s)
  {
    match e
    case OpenClick(svg) => OpenZoom(s, svg, o)
    case CloseButton => if o.showCloseButton && s.dom != [] then Close(v, s) else s
    case OverlayClick(onBackdrop) => if onBackdrop && s.dom != [] then Close(v, s) else s
    case EscapeKey => CloseTimes(v, s, |s.escapeHandlers|)
    case TimerFires => TimerFire(s)
  }

  function Run(v: Variant, s: State, es: seq<Event>, o: Options): State
    decreases |es|
  {
    if es == [] then s else Run(v, Step(v, s, es[0], o), es[1..], o)
  }

  /** Every overlay and Escape handler in the state was built before
      `nextId`, so each open builds an element distinct from all of them. */
  ghost predicate IdsFresh(s: State)
  {
    && (forall ov :: ov in s.dom ==> ov.id < s.nextId)
    && (forall ov :: ov in s.timers ==> ov.id < s.nextId)
    && (s.current.Some? ==> s.current.value.id < s.nextId)
    && (forall k :: k in s.escapeHandlers ==> k < s.nextId)
  }

  /** Both variants keep identities fresh. */
  lemma StepKeepsIdsFresh(v: Variant, s: State, e: Event, o: Options)
    requires IdsFresh(s)
    ensures IdsFresh(Step(v, s, e, o))
  {
  }

  lemma {:induction false} RunKeepsIdsFresh(v: Variant, s: State, es: seq<Event>, o: Options)
    requires IdsFresh(s)
    ensures IdsFresh(Run(v, s, es, o))
    decreases |es|
  {
    if es != [] {
      StepKeepsIdsFresh(v, s, es[0], o);
      RunKeepsIdsFresh(v, Step(v, s, es[0], o), es[1..], o);
    }
  }

  /** A stale timer never detaches an overlay opened after it was scheduled:
      that overlay is a new element, so it stays attached. */
  lemma StaleTimerSparesNewOverlay(s: State, svg: ZoomEnable.SvgElement, o: Options)
    requires IdsFresh(s)
    requires s.current.None?
    requires s.timers != []
    ensures NewOverlay(s, svg) in TimerFire(OpenZoom(s, svg, o)).dom
  {
  }

  /** The single-overlay invariant: closed means nothing attached and nothing
      pending; otherwise exactly the current overlay is attached, the body
      does not scroll, at most one close is pending and it is for the current
      overlay, and only its Escape handler is attached. */
  ghost predicate Inv(s: State, o: Options)
  {
    && (s.current.None? ==> s.dom == [] && s.timers == [] && s.escapeHandlers == [])
    && (s.current.Some? ==>
      && s.dom == [s.current.value]
      && s.overflow == "hidden"
      && |s.timers| <= 1
      && (s.timers != [] ==> s.timers[0] == s.current.value)
      && s.escapeHandlers == (if o.enableKeyboardClose then [s.current.value.id] else []))
  }

  /** Every event of the corrected machine keeps the invariant. */
  lemma StepKeepsInv(s: State, e: Event, o: Options)
    requires Inv(s, o)
    ensures Inv(Step(Guarded, s, e, o), o)
  {
  }

  /** Any run of the corrected machine from a page without overlay keeps the
      invariant; in particular at most one overlay is ever attached. */
  lemma {:induction false} RunKeepsInv(s: State, es: seq<Event>, o: Options)
    requires Inv(s, o)
    ensures Inv(Run(Guarded, s, es, o), o)
    ensures |Run(Guarded, s, es, o).dom| <= 1
    decreases |es|
  {
    if es != [] {
      StepKeepsInv(s, es[0], o);
      RunKeepsInv(Step(Guarded, s, es[0], o), es[1..], o);
    }
  }

  lemma SingleOverlay(overflow: string, es: seq<Event>, o: Options)
    ensures |Run(Guarded, Init(overflow), es, o).dom| <= 1
  {
    RunKeepsInv(Init(overflow), es, o);
  }

  /** The phase transitions of the corrected machine: opening only from
      Closed, closing only from Open, completion only from Closing; every
      other event leaves the phase alone. When the timer completes, the
      overlay is gone, overflow is '', no Escape handler is left. */
  lemma PhaseTransitions(s: State, e: Event, o: Options)
    requires Inv(s, o)
    ensures var r := Step(Guarded, s, e, o);
      && (e.OpenClick? ==> (PhaseOf(s) == Closed ==> PhaseOf(r) == Open) && (PhaseOf(s) != Closed ==> r == s))
      && (e.TimerFires? && PhaseOf(s) == Closing ==>
            PhaseOf(r) == Closed && r.dom == [] && r.overflow == "" && r.escapeHandlers == [])
      && (e.TimerFires? && PhaseOf(s) != Closing ==> r == s)
      && (!e.OpenClick? && !e.TimerFires? ==> PhaseOf(s) != Open ==> r == s)
      && (!e.OpenClick? && !e.TimerFires? ==> PhaseOf(s) == Open ==> PhaseOf(r) in {Open, Closing})
  {
  }

  /** Close triggers: a click on the overlay's content (not the overlay
      itself) never closes, and without `enableKeyboardClose` Escape never
      closes; with it, Escape closes an open overlay. */
  lemma CloseTriggers(s: State, o: Options)
    requires Inv(s, o)
    ensures Step(Guarded, s, OverlayClick(false), o) == s
    ensures !o.enableKeyboardClose ==> Step(Guarded, s, EscapeKey, o) == s
    ensures o.enableKeyboardClose && PhaseOf(s) == Open ==> PhaseOf(Step(Guarded, s, EscapeKey, o)) == Closing
  {
  }

  /** The events that break the single-overlay guard as written: Escape
      pressed twice during the fade-out schedules two timers for the same
      overlay; the first closes it, a new overlay is opened, and the second
      timer clears `currentZoom` (and overflow) under it, so the next open
      attaches a second overlay. */
  function DoubleCloseEvents(svg: ZoomEnable.SvgElement): seq<Event>
  {
    [OpenClick(svg), EscapeKey, EscapeKey, TimerFires, OpenClick(svg), TimerFires, OpenClick(svg)]
  }

  /** The state after the first four events: A closed, one timer for A still pending. */
  lemma AsWrittenFirstHalf(svg: ZoomEnable.SvgElement, o: Options)
    requires o == Options(true, true)
    ensures var a := Overlay(1, Clone(svg));
      Run(AsWritten, Init(""), DoubleCloseEvents(svg), o)
        == Run(AsWritten, State(None, [], "", [], [a], 2), DoubleCloseEvents(svg)[4..], o)
  {
    var es := DoubleCloseEvents(svg);
    var a := Overlay(1, Clone(svg));
    var s1 := State(Some(a), [a], "hidden", [1], [], 2);
    var s2 := State(Some(a), [a], "hidden", [1], [a], 2);
    var s3 := State(Some(a), [a], "hidden", [1], [a, a], 2);
    var s4 := State(None, [], "", [], [a], 2);
    assert Step(AsWritten, Init(""), es[0], o) == s1;
    assert Step(AsWritten, s1, es[1], o) == s2;
    assert Step(AsWritten, s2, es[2], o) == s3;
    assert Step(AsWritten, s3, es[3], o) == s4;
    assert es[1..][1..] == es[2..];
    assert es[2..][1..] == es[3..];
    assert es[3..][1..] == es[4..];
    assert Run(AsWritten, Init(""), es, o) == Run(AsWritten, s1, es[1..], o);
    assert Run(AsWritten, s1, es[1..], o) == Run(AsWritten, s2, es[2..], o);
    assert Run(AsWritten, s2, es[2..], o) == Run(AsWritten, s3, es[3..], o);
    assert Run(AsWritten, s3, es[3..], o) == Run(AsWritten, s4, es[4..], o);
  }

  /** The last three events: B opened, the stale timer clears `currentZoom`
      with B still attached, and C is attached beside it. */
  lemma AsWrittenSecondHalf(svg: ZoomEnable.SvgElement, o: Options)
    requires o == Options(true, true)
    ensures var a, b, c := Overlay(1, Clone(svg)), Overlay(2, Clone(svg)), Overlay(3, Clone(svg));
      Run(AsWritten, State(None, [], "", [], [a], 2), DoubleCloseEvents(svg)[4..], o)
        == State(Some(c), [b, c], "hidden", [2, 3], [], 4)
  {
    var es := DoubleCloseEvents(svg)[4..];
    var a, b, c := Overlay(1, Clone(svg)), Overlay(2, Clone(svg)), Overlay(3, Clone(svg));
    var s4 := State(None, [], "", [], [a], 2);
    var s5 := State(Some(b), [b], "hidden", [2], [a], 3);
    var s6 := State(None, [b], "", [2], [], 3);
    var s7 := State(Some(c), [b, c], "hidden", [2, 3], [], 4);
    assert Step(AsWritten, s4, es[0], o) == s5;
    assert Without([b], a) == [b];
    assert Without([2], 1) == [2];
    assert Step(AsWritten, s5, es[1], o) == s6;
    assert Step(AsWritten, s6, es[2], o) == s7;
    assert es[1..][1..] == es[2..];
    assert es[2..][1..] == [];
    assert Run(AsWritten, s4, es, o) == Run(AsWritten, s5, es[1..], o);
    assert Run(AsWritten, s5, es[1..], o) == Run(AsWritten, s6, es[2..], o);
    assert Run(AsWritten, s6, es[2..], o) == Run(AsWritten, s7, [], o);
  }

  /** Each open builds a new element, yet the run ends with two overlays
      attached and `currentZoom` set. */
  lemma AsWrittenDoubleCloseOpensTwo(svg: ZoomEnable.SvgElement)
    ensures var s := Run(AsWritten, Init(""), DoubleCloseEvents(svg), Options(true, true));
      |s.dom| == 2 && s.dom[0] != s.dom[1] && s.current.Some?
  {
    AsWrittenFirstHalf(svg, Options(true, true));
    AsWrittenSecondHalf(svg, Options(true, true));
  }
}
