/** The zoom addon's enable pass `initZoom`: every SVG inside a processed
    `pre.mermaid` that is not yet zoom-enabled is marked and given its
    click and key handlers, exactly once. */
module ZoomEnable {

  /** An SVG element: its attributes, inline cursor style and how many click
      and keydown listeners the addon has attached to it. */
  datatype SvgElement = SvgElement(attrs: map<string, string>, cursor: string, clickHandlers: nat, keyHandlers: nat)

  /** An SVG on the page and whether it sits inside `pre.mermaid[data-processed]`. */
  datatype PageSvg = PageSvg(inProcessedDiagram: bool, svg: SvgElement)

  /** The addon's options that affect the enable pass. */
  datatype Options = Options(zoomOnClick: bool, enableKeyboardClose: bool)

  /** A pass either finds no target and schedules a retry (the timer itself
      is not modelled) or marks the targets. */
  datatype Pass = RetryLater | Enabled(svgs: seq<PageSvg>)

  const ZoomEnabledAttr := "data-zoom-enabled"

  /** The selector `pre.mermaid[data-processed] svg`. */
  predicate IsTarget(p: PageSvg)
  {
    p.inProcessedDiagram
  }

  predicate IsEnabled(s: SvgElement)
  {
    ZoomEnabledAttr in s.attrs
  }

  predicate HasAttr(s: SvgElement, k: string, v: string)
  {
    k in s.attrs && s.attrs[k] == v
  }

  /** The marking a pass leaves: `data-zoom-enabled="true"`, `tabindex="0"`,
      `role="button"`. */
  predicate Marked(s: SvgElement)
  {
    HasAttr(s, ZoomEnabledAttr, "true") && HasAttr(s, "tabindex", "0") && HasAttr(s, "role", "button")
  }

  /** The attributes a pass sets on a newly enabled SVG. */
  function Marks(): map<string, string>
  {
    map[ZoomEnabledAttr := "true", "tabindex" := "0", "role" := "button", "aria-label" := "Click to zoom diagram"]
  }

  /** One SVG: already enabled ones are skipped; others get the marks, the
      zoom-in cursor, a click handler when `zoomOnClick`, and an Enter/Space
      keydown handler when both `zoomOnClick` and `enableKeyboardClose`. */
  function EnableOne(s: SvgElement, o: Options): (r: SvgElement)
    ensures IsEnabled(s) ==> r == s
    ensures !IsEnabled(s) ==>
      && Marked(r)
      && r.attrs == s.attrs + Marks()
      && r.cursor == "zoom-in"
      && r.clickHandlers == s.clickHandlers + (if o.zoomOnClick then 1 else 0)
      && r.keyHandlers == s.keyHandlers + (if o.zoomOnClick && o.enableKeyboardClose then 1 else 0)
      && (forall k :: k in s.attrs && k !in Marks() ==> k in r.attrs && r.attrs[k] == s.attrs[k])
  {
    if IsEnabled(s) then s
    else
      SvgElement(
        s.attrs + Marks(),
        "zoom-in",
        s.clickHandlers + (if o.zoomOnClick then 1 else 0),
        s.keyHandlers + (if o.zoomOnClick && o.enableKeyboardClose then 1 else 0))
  }

  function EnableAll(ps: seq<PageSvg>, o: Options): (r: seq<PageSvg>)
    ensures |r| == |ps|
    ensures forall i :: 0 <= i < |ps| ==>
      r[i] == (if IsTarget(ps[i]) then PageSvg(true, EnableOne(ps[i].svg, o)) else ps[i])
  {
    seq(|ps|, i requires 0 <= i < |ps| => if IsTarget(ps[i]) then PageSvg(true, EnableOne(ps[i].svg, o)) else ps[i])
  }

  /** `initZoom`: retries when the selector matches nothing, else enables. */
  function InitZoom(ps: seq<PageSvg>, o: Options): (r: Pass)
    ensures r.RetryLater? <==> (forall i :: 0 <= i < |ps| ==> !IsTarget(ps[i]))
    ensures r.Enabled? ==> |r.svgs| == |ps|
    ensures r.Enabled? ==> forall i :: 0 <= i < |ps| ==>
      && (IsTarget(ps[i]) && !IsEnabled(ps[i].svg) ==> Marked(r.svgs[i].svg))
      && (!IsTarget(ps[i]) ==> r.svgs[i] == ps[i])
      && (IsEnabled(ps[i].svg) ==> r.svgs[i] == ps[i])
  {
    if forall i :: 0 <= i < |ps| ==> !IsTarget(ps[i]) then RetryLater
    else Enabled(EnableAll(ps, o))
  }

  /** The page after a pass (a retry leaves it as it is). */
  function AfterPass(ps: seq<PageSvg>, o: Options): seq<PageSvg>
  {
    match InitZoom(ps, o)
    case RetryLater => ps
    case Enabled(r) => r
  }

  /** Listener bookkeeping: an SVG never carries more than one click and one
      key handler, and carries one only once it is marked. */
  ghost predicate HandlersOnce(ps: seq<PageSvg>)
  {
    forall i :: 0 <= i < |ps| ==>
      && ps[i].svg.clickHandlers <= 1
      && ps[i].svg.keyHandlers <= 1
      && (ps[i].svg.clickHandlers + ps[i].svg.keyHandlers > 0 ==> IsEnabled(ps[i].svg))
  }

  /** Every zoom-enabled SVG carries the full marking (true of a page the
      addon alone has marked). */
  ghost predicate EnabledMarked(ps: seq<PageSvg>)
  {
    forall i :: 0 <= i < |ps| ==> IsEnabled(ps[i].svg) ==> Marked(ps[i].svg)
  }

  /** After any pass every targeted SVG is marked (a retry pass has no
      target and changes nothing), and the marking invariant is kept. */
  lemma PassMarksTargets(ps: seq<PageSvg>, o: Options)
    requires EnabledMarked(ps)
    ensures var r := AfterPass(ps, o);
      && EnabledMarked(r)
      && forall i :: 0 <= i < |r| && IsTarget(ps[i]) ==> Marked(r[i].svg)
  {
  }

  /** A second pass right after the first changes nothing. */
  lemma PassIdempotent(ps: seq<PageSvg>, o: Options)
    ensures AfterPass(AfterPass(ps, o), o) == AfterPass(ps, o)
  {
  }

  /** Any number of passes keeps every SVG to at most one handler of each
      kind: re-running the pass never attaches twice. */
  lemma {:induction false} PassesAttachOnce(ps: seq<PageSvg>, o: Options, n: nat)
    requires HandlersOnce(ps)
    ensures HandlersOnce(Passes(ps, o, n))
    decreases n
  {
    if n > 0 {
      var once := AfterPass(ps, o);
      assert HandlersOnce(once) by {
        forall i | 0 <= i < |once|
          ensures once[i].svg.clickHandlers <= 1 && once[i].svg.keyHandlers <= 1
          ensures once[i].svg.clickHandlers + once[i].svg.keyHandlers > 0 ==> IsEnabled(once[i].svg)
        {
          if InitZoom(ps, o).Enabled? && IsTarget(ps[i]) && !IsEnabled(ps[i].svg) {
            assert ps[i].svg.clickHandlers == 0 && ps[i].svg.keyHandlers == 0;
            assert ZoomEnabledAttr in Marks();
          }
        }
      }
      PassesAttachOnce(once, o, n - 1);
    }
  }

  function Passes(ps: seq<PageSvg>, o: Options, n: nat): seq<PageSvg>
    decreases n
  {
    if n == 0 then ps else Passes(AfterPass(ps, o), o, n - 1)
  }
}
