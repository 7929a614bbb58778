/** The injected client script's render pass (`initMermaid`) over the page's
    `pre.mermaid` elements, and the `data-theme` observer that resets and
    re-runs it. The mermaid library is an oracle: `mermaid.render` is a
    function of the theme given to `mermaid.initialize`, the element id and
    the diagram definition. */
module RenderBatch {
  import opened Common
  import Theme

  /** Markup returned by `mermaid.render`, with the text content it has once
      parsed into the element. */
  datatype Svg = Svg(markup: string, text: string)

  /** What a `pre.mermaid` element holds: the definition text put there at
      build time, a rendered diagram, or the error panel. */
  datatype Content = Source(text: string) | Graphic(svg: Svg) | ErrorPanel

  const ErrorPanelText := "Error rendering diagram"

  /** `element.textContent` for each kind of content. */
  function TextContent(c: Content): string
  {
    match c
    case Source(t) => t
    case Graphic(svg) => svg.text
    case ErrorPanel => ErrorPanelText
  }

  /** One `pre.mermaid` element: its content, its `data-diagram` attribute and
      whether it carries `data-processed`. */
  datatype Diagram = Diagram(content: Content, dataDiagram: Option<string>, processed: bool)

  datatype RenderOutcome = Rendered(svg: Svg) | RenderFailed(message: string)

  /** `mermaid.render(id, definition)` under a given initialised theme. */
  type Renderer = (string, string, string) -> RenderOutcome

  /** The random ids `'mermaid-' + Math.random()…`, one per document position. */
  type IdSource = nat -> string

  /** The definition a render uses: `data-diagram` when already recorded, else
      the element's current text (which the pass records first). */
  function Definition(d: Diagram): string
  {
    if d.dataDiagram.Some? then d.dataDiagram.value else TextContent(d.content)
  }

  /** One iteration of the render loop. A processed element is skipped. An
      unprocessed one records its definition in `data-diagram` only if that
      attribute is absent, then is rendered from the recorded definition:
      success swaps in the diagram and sets `data-processed`; failure swaps
      in the error panel and leaves `data-processed` unset. */
  function RenderOne(d: Diagram, theme: string, id: string, render: Renderer): (r: Diagram)
    ensures d.processed ==> r == d
    ensures !d.processed ==> r.dataDiagram == Some(Definition(d))
    ensures d.dataDiagram.Some? ==> r.dataDiagram == d.dataDiagram
    ensures !d.processed ==> (r.processed <==> render(theme, id, Definition(d)).Rendered?)
    ensures !d.processed && render(theme, id, Definition(d)).Rendered? ==>
      r.content == Graphic(render(theme, id, Definition(d)).svg)
    ensures !d.processed && render(theme, id, Definition(d)).RenderFailed? ==> r.content == ErrorPanel
  {
    if d.processed then d
    else
      var definition := Definition(d);
      match render(theme, id, definition)
      case Rendered(svg) => Diagram(Graphic(svg), Some(definition), true)
      case RenderFailed(_) => Diagram(ErrorPanel, Some(definition), false)
  }

  /** The `for … of` loop, one awaited render at a time, in document order.
      Each element's result depends on that element alone: a failure never
      stops or alters the rendering of the others. */
  function Batch(ds: seq<Diagram>, theme: string, ids: IdSource, render: Renderer, offset: nat): (r: seq<Diagram>)
    decreases |ds|
    ensures |r| == |ds|
    ensures forall i :: 0 <= i < |ds| ==> r[i] == RenderOne(ds[i], theme, ids(offset + i), render)
  {
    if ds == [] then []
    else [RenderOne(ds[0], theme, ids(offset), render)] + Batch(ds[1..], theme, ids, render, offset + 1)
  }

  /** What one `initMermaid` call did: returned early (no `mermaid.initialize`,
      no render) or initialised mermaid with `theme` and ran the loop. */
  datatype BatchRun = NoDiagrams | Ran(theme: string, diagrams: seq<Diagram>)

  /** `initMermaid` over the page's `pre.mermaid` elements in document order. */
  function InitMermaid(ds: seq<Diagram>, o: Theme.Options, dataTheme: Option<string>, ids: IdSource, render: Renderer): (r: BatchRun)
    ensures ds == [] <==> r.NoDiagrams?
    ensures r.Ran? ==> r.theme == Theme.ResolveTheme(o, dataTheme)
    ensures r.Ran? ==> |r.diagrams| == |ds|
    ensures r.Ran? ==> forall i :: 0 <= i < |ds| ==> r.diagrams[i] == RenderOne(ds[i], r.theme, ids(i), render)
  {
    if |ds| == 0 then NoDiagrams
    else
      var theme := Theme.ResolveTheme(o, dataTheme);
      Ran(theme, Batch(ds, theme, ids, render, 0))
  }

  /** The page as the script sees it: its diagrams and the root element's
      `data-theme` attribute. */
  datatype Page = Page(diagrams: seq<Diagram>, dataTheme: Option<string>)

  /** The observer's reset: `data-processed` is removed from every diagram
      that has it; content and `data-diagram` stay. */
  function Reset(ds: seq<Diagram>): (r: seq<Diagram>)
    ensures |r| == |ds|
    ensures forall i :: 0 <= i < |ds| ==>
      !r[i].processed && r[i].content == ds[i].content && r[i].dataDiagram == ds[i].dataDiagram
  {
    seq(|ds|, i requires 0 <= i < |ds| => ds[i].(processed := false))
  }

  /** The page after one `initMermaid` call: unchanged when it has no
      diagram, else every diagram has gone through the loop under the theme
      resolved from the page's `data-theme`. */
  function Load(p: Page, o: Theme.Options, ids: IdSource, render: Renderer): (r: Page)
    ensures p.diagrams == [] ==> r == p
    ensures r.dataTheme == p.dataTheme
    ensures |r.diagrams| == |p.diagrams|
    ensures forall i :: 0 <= i < |p.diagrams| ==>
      r.diagrams[i] == RenderOne(p.diagrams[i], Theme.ResolveTheme(o, p.dataTheme), ids(i), render)
  {
    match InitMermaid(p.diagrams, o, p.dataTheme, ids, render)
    case NoDiagrams => p
    case Ran(_, ds) => p.(diagrams := ds)
  }

  /** `data-theme` is set (or removed) on the root element. With auto theming
      the observer resets every diagram and runs `initMermaid` again; without
      it nothing observes the change. */
  function ThemeChange(p: Page, value: Option<string>, o: Theme.Options, ids: IdSource, render: Renderer): (r: Page)
    ensures r.dataTheme == value
    ensures !Theme.AutoTheme(o) ==> r.diagrams == p.diagrams
    ensures Theme.AutoTheme(o) ==> |r.diagrams| == |p.diagrams|
    ensures Theme.AutoTheme(o) ==> forall i :: 0 <= i < |p.diagrams| ==>
      r.diagrams[i] == RenderOne(p.diagrams[i].(processed := false), Theme.ResolveTheme(o, value), ids(i), render)
  {
    var p1 := p.(dataTheme := value);
    if Theme.AutoTheme(o) then Load(p1.(diagrams := Reset(p1.diagrams)), o, ids, render) else p1
  }

  /** Page events that drive the script: a run of `initMermaid` (page load or
      view transition) and a change of the `data-theme` attribute. */
  datatype PageEvent = Loaded(ids: IdSource) | DataThemeSet(value: Option<string>, ids: IdSource)

  function Apply(p: Page, e: PageEvent, o: Theme.Options, render: Renderer): Page
  {
    match e
    case Loaded(ids) => Load(p, o, ids, render)
    case DataThemeSet(v, ids) => ThemeChange(p, v, o, ids, render)
  }

  function Run(p: Page, es: seq<PageEvent>, o: Theme.Options, render: Renderer): Page
    decreases |es|
  {
    if es == [] then p else Run(Apply(p, es[0], o, render), es[1..], o, render)
  }

  /** The page as built: each `pre.mermaid` holds its definition as text. */
  function Fresh(sources: seq<string>, dataTheme: Option<string>): Page
  {
    Page(seq(|sources|, i requires 0 <= i < |sources| => Diagram(Source(sources[i]), None, false)), dataTheme)
  }

  /** The invariant linking the page to the definitions it was built with:
      a diagram without `data-diagram` is untouched; `data-diagram`, once
      written, holds the built definition; a processed diagram shows a
      rendered graphic. */
  ghost predicate Faithful(ds: seq<Diagram>, sources: seq<string>)
  {
    && |ds| == |sources|
    && forall i :: 0 <= i < |ds| ==>
      && (ds[i].dataDiagram.None? ==> ds[i].content == Source(sources[i]) && !ds[i].processed)
      && (ds[i].dataDiagram.Some? ==> ds[i].dataDiagram.value == sources[i])
      && (ds[i].processed ==> ds[i].content.Graphic?)
  }

  /** Under the invariant, every render uses the definition the page was
      built with, never text taken from a rendered graphic or error panel. */
  lemma DefinitionIsOriginal(ds: seq<Diagram>, sources: seq<string>, i: nat)
    requires Faithful(ds, sources)
    requires i < |ds|
    ensures Definition(ds[i]) == sources[i]
  {
  }

  /** One pass keeps the invariant. */
  lemma BatchFaithful(ds: seq<Diagram>, sources: seq<string>, theme: string, ids: IdSource, render: Renderer, offset: nat)
    requires Faithful(ds, sources)
    ensures Faithful(Batch(ds, theme, ids, render, offset), sources)
  {
  }

  /** A load or a theme change keeps the invariant. */
  lemma ApplyFaithful(p: Page, e: PageEvent, sources: seq<string>, o: Theme.Options, render: Renderer)
    requires Faithful(p.diagrams, sources)
    ensures Faithful(Apply(p, e, o, render).diagrams, sources)
  {
  }

  /** Snapshot rule over any history: after any sequence of loads and theme
      changes, `data-diagram` holds the built definition or is absent with the
      element untouched, so every render ever made used the built definition. */
  lemma {:induction false} RunFaithful(p: Page, es: seq<PageEvent>, sources: seq<string>, o: Theme.Options, render: Renderer)
    requires Faithful(p.diagrams, sources)
    ensures Faithful(Run(p, es, o, render).diagrams, sources)
    decreases |es|
  {
    if es != [] {
      ApplyFaithful(p, es[0], sources, o, render);
      RunFaithful(Apply(p, es[0], o, render), es[1..], sources, o, render);
    }
  }

  /** The built page satisfies the invariant, hence every page it can reach. */
  lemma FreshRunFaithful(sources: seq<string>, dataTheme: Option<string>, es: seq<PageEvent>, o: Theme.Options, render: Renderer)
    ensures Faithful(Run(Fresh(sources, dataTheme), es, o, render).diagrams, sources)
  {
    RunFaithful(Fresh(sources, dataTheme), es, sources, o, render);
  }

  /** A theme change under auto theming re-renders every diagram with the
      newly resolved theme from its built definition: each ends processed
      exactly when that render succeeds, showing its graphic, or else shows
      the error panel; `data-diagram` keeps the built definition. */
  lemma ThemeChangeRerendersAll(p: Page, sources: seq<string>, v: Option<string>, o: Theme.Options, ids: IdSource, render: Renderer, i: nat)
    requires Faithful(p.diagrams, sources)
    requires Theme.AutoTheme(o)
    requires i < |p.diagrams|
    ensures var q := ThemeChange(p, v, o, ids, render).diagrams[i];
      var outcome := render(Theme.ResolveTheme(o, v), ids(i), sources[i]);
      && q.dataDiagram == Some(sources[i])
      && (q.processed <==> outcome.Rendered?)
      && (outcome.Rendered? ==> q.content == Graphic(outcome.svg))
      && (outcome.RenderFailed? ==> q.content == ErrorPanel)
  {
  }

  /** A pass over diagrams that are all processed changes nothing. */
  lemma AllProcessedIsNoop(ds: seq<Diagram>, theme: string, ids: IdSource, render: Renderer, offset: nat)
    requires forall i :: 0 <= i < |ds| ==> ds[i].processed
    ensures Batch(ds, theme, ids, render, offset) == ds
  {
  }

  /** A failed diagram stays unprocessed, so the next pass renders it again
      from the same definition. */
  lemma FailureIsRetried(d: Diagram, theme: string, id: string, render: Renderer)
    requires !d.processed
    requires render(theme, id, Definition(d)).RenderFailed?
    ensures var d1 := RenderOne(d, theme, id, render);
      !d1.processed && Definition(d1) == Definition(d)
  {
  }
}
