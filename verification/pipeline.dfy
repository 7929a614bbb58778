/** Build time and page time together: the page the client script sees is
    the rewritten document's `pre.mermaid` elements, fresh from the build. */
module Pipeline {
  import opened Common
  import RehypeMermaid
  import Theme
  import RenderBatch

  /** The page served for a document: one fresh diagram per `pre.mermaid`
      of the rewritten tree. */
  function BuiltPage(t: RehypeMermaid.Tree, dataTheme: Option<string>): RenderBatch.Page
  {
    RenderBatch.Fresh(RehypeMermaid.DiscoverAll(RehypeMermaid.TransformTree(t).0.children), dataTheme)
  }

  /** For a document with N mermaid code blocks (and no `pre.mermaid` of its
      own) the page holds exactly N diagrams, and over any later history of
      loads and theme changes every render uses the text of the matching
      code block. */
  lemma BuildThenRender(t: RehypeMermaid.Tree, dataTheme: Option<string>, es: seq<RenderBatch.PageEvent>, o: Theme.Options, render: RenderBatch.Renderer)
    requires RehypeMermaid.DiscoverAll(t.children) == []
    ensures |BuiltPage(t, dataTheme).diagrams| == RehypeMermaid.TransformTree(t).1
    ensures RenderBatch.Faithful(
      RenderBatch.Run(BuiltPage(t, dataTheme), es, o, render).diagrams,
      RehypeMermaid.BlockTextsAll(t.children))
  {
    RehypeMermaid.PlaceholdersAreBlocks(t);
    RenderBatch.FreshRunFaithful(RehypeMermaid.BlockTextsAll(t.children), dataTheme, es, o, render);
  }
}
