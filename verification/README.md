# astro-mermaid, modelled in Dafny

This project models the three pieces of logic at the heart of the
`astro-mermaid` integration and its zoom addon, and proves properties of them.

- **The rehype plugin** (`rehypeMermaidPlugin`) runs at build time. It walks a
  HAST tree in pre-order. It rewrites every `<pre>` whose only child is a
  `<code>` with class `language-mermaid` into `<pre class="mermaid">`
  holding the code's text, and counts the rewrites (`rehype.dfy`, module `RehypeMermaid`).
- **The injected client script** resolves the mermaid theme from the
  options and the root element's `data-theme` attribute (`theme.dfy`, module `Theme`).
  Its `initMermaid` renders every unprocessed `pre.mermaid`, one at a time,
  from the definition recorded in `data-diagram`. Its `data-theme` observer
  clears `data-processed` and runs the pass again (`render.dfy`, module `RenderBatch`).
  `mermaid.render` is an oracle: a function of the initialised theme, the element id
  and the definition. The random element ids are an `IdSource` parameter.
- **The zoom addon**'s `initZoom` marks eligible SVGs once (`zoom_enable.dfy`,
  module `ZoomEnable`). Its overlay is a state machine around the global
  `currentZoom`, with steps `openZoom`, `closeZoom` and the close timer firing
  (`zoom_overlay.dfy`, module `ZoomOverlay`). Its phases are Closed, Open and
  Closing. In Closing, `closeZoom` has run but its timer has not fired, and
  `currentZoom` is still set.
- `pipeline.dfy` (module `Pipeline`) joins build time and page time. The
  page the script sees, for a document with no `pre.mermaid` of its own, holds
  exactly the rewritten blocks. Every render over any
  history of loads and theme changes uses the text of the block's original code.
- `common.dfy` (module `Common`) defines `Option`, which is used for absent
  attributes and options.

The model states these behaviours of the code:
- A failed render leaves `data-processed` unset. It is not marked processed.
  The error panel replaces the content, and the next pass renders that diagram again.
- Closing the overlay sets body overflow to `''`. It does not restore the value
  the body had before.
- There is one global overlay per page (`currentZoom`), not one per diagram.
- The build-time rewrite does no HTML escaping and assigns no sequence numbers.
  It emits no overlay markup and no `data-diagram` attribute. It only replaces
  the class and children. The client script records `data-diagram` itself.
- The client script imports mermaid statically. On a page without diagrams,
  `initMermaid` returns before `mermaid.initialize`. That early return is what is modelled.

## Model

| member | source | states |
|---|---|---|
| RehypeMermaid.Transform | astro-mermaid-integration.js:15-46 | A node matching the predicate (a `pre` with one child, that child a `code` whose className array includes `language-mermaid`) becomes the rewritten node. Any other element keeps its tag, className, properties and arity, and its children are visited in turn. The count equals the number of blocks met. The count is zero exactly when nothing changed |
| RehypeMermaid.Rewrite | astro-mermaid-integration.js:28-39 | The rewritten node is a `pre` that keeps its other properties. Its className is exactly `['mermaid']`. It has one text child holding the code node's text |
| RehypeMermaid.TransformTree | astro-mermaid-integration.js:13-50 | `mermaidCount` equals the number of matching blocks in the document. Zero matches leaves the document unchanged, and that is not an error |
| RehypeMermaid.TextPreserved | astro-mermaid-integration.js:28-39 | The rewrite never changes a node's text content |
| RehypeMermaid.TreeTextPreserved | astro-mermaid-integration.js:28-39 | The whole document's text content is the same before and after the rewrite |
| RehypeMermaid.NoBlocksLeft | astro-mermaid-integration.js:17-25 | No node of the output matches the predicate, because a rewritten `pre`'s only child is text rather than `code` |
| RehypeMermaid.Idempotent | astro-mermaid-integration.js:36-39 | Running the transformer on its own output rewrites nothing and counts 0 |
| RehypeMermaid.PlaceholdersAreBlocks | astro-mermaid-integration.js:30-39 | Take a document with no `pre.mermaid` of its own. After the rewrite its `pre.mermaid` elements are exactly the matched blocks, in document order, each holding its code text. Their number is the count |
| Theme.DefaultTheme | astro-mermaid-integration.js:100-104 | `defaultConfig.theme` is `mermaidConfig.theme` when present, else the `theme` option, else `'default'` |
| Theme.ResolveTheme | astro-mermaid-integration.js:127-133 | Auto theming on: `'light'` gives `'default'`, `'dark'` gives `'dark'`, and any other or absent value gives the default theme. Auto theming off: always the default theme. The result is never anything else |
| RenderBatch.RenderOne | astro-mermaid-integration.js:142-164 | A processed diagram is skipped unchanged. Otherwise `data-diagram` is written only when absent, and the render uses that recorded definition. Success shows the SVG and sets `data-processed`. Failure shows the error panel and leaves `data-processed` unset |
| RenderBatch.Batch | astro-mermaid-integration.js:142-165 | Every diagram is visited in document order. Each one's result depends only on that diagram and its own render outcome, so a failure never stops or alters the others |
| RenderBatch.InitMermaid | astro-mermaid-integration.js:113-165 | With no `pre.mermaid`, the pass returns before initialising mermaid and renders nothing. Otherwise it initialises with the resolved theme and runs the loop over all diagrams |
| RenderBatch.Load | astro-mermaid-integration.js:113-166 | A page without diagrams is left unchanged. Otherwise every diagram goes through the loop under the theme resolved from the page's `data-theme`, and the attribute itself is untouched |
| RenderBatch.ThemeChange | astro-mermaid-integration.js:176-185 | The attribute takes the new value. Without auto theming the diagrams stay as they are. With it, each diagram has `data-processed` cleared and is then rendered under the theme resolved from the new value |
| RenderBatch.Reset | astro-mermaid-integration.js:181-183 | The theme-change reset clears `data-processed` on every diagram. It leaves content and `data-diagram` intact |
| RenderBatch.DefinitionIsOriginal | astro-mermaid-integration.js:146-151 | Under the page invariant, the definition a render uses is the one the page was built with |
| RenderBatch.RunFaithful | astro-mermaid-integration.js:144-151 | After any sequence of loads and theme changes, `data-diagram` is absent with the element untouched, or holds the built definition. A processed diagram always shows a rendered graphic. So renders never take their source from rendered SVG |
| RenderBatch.FreshRunFaithful | astro-mermaid-integration.js:146-151 | Every page reachable from the built page satisfies the invariant above |
| RenderBatch.ThemeChangeRerendersAll | astro-mermaid-integration.js:176-185 | With auto theming, a `data-theme` change re-renders every diagram with the newly resolved theme, from its built definition. A diagram ends processed exactly when its render succeeds, and shows the error panel otherwise |
| RenderBatch.AllProcessedIsNoop | astro-mermaid-integration.js:144 | A pass over diagrams that are all processed changes nothing |
| RenderBatch.FailureIsRetried | astro-mermaid-integration.js:161-164 | A failed diagram stays unprocessed with the same recorded definition, so the next pass renders it again from that source |
| Pipeline.BuildThenRender | astro-mermaid-integration.js:115-151 | For a document with no `pre.mermaid` of its own: build N blocks and the page has N diagrams. Over any later history, each render uses its block's code text |
| ZoomEnable.EnableOne | astro-mermaid-zoom-addon.js:36-63 | An SVG already carrying `data-zoom-enabled` is skipped. Any other SVG gains exactly `data-zoom-enabled="true"`, `tabindex="0"`, `role="button"` and the aria-label, and nothing else, plus the zoom-in cursor. It also gets one click handler when `zoomOnClick`, and one key handler when both `zoomOnClick` and `enableKeyboardClose` are set. Its other attributes are kept |
| ZoomEnable.InitZoom | astro-mermaid-zoom-addon.js:25-65 | The pass schedules a retry exactly when no SVG sits inside `pre.mermaid[data-processed]`. Otherwise only such SVGs change. Already-enabled ones stay as they are, and newly enabled ones are marked |
| ZoomEnable.PassMarksTargets | astro-mermaid-zoom-addon.js:40-44 | On a page where every SVG already carrying `data-zoom-enabled` is fully marked (true of any page only this pass has touched), after any pass, including a retry pass that finds no target, every targeted SVG has `data-zoom-enabled="true"`, `tabindex="0"` and `role="button"` |
| ZoomEnable.PassIdempotent | astro-mermaid-zoom-addon.js:36-38 | A second pass right after the first changes nothing |
| ZoomEnable.PassesAttachOnce | astro-mermaid-zoom-addon.js:36-63 | Any number of passes leaves every SVG with at most one click handler and one key handler, and only when it is marked |
| ZoomOverlay.Clone | astro-mermaid-zoom-addon.js:98-117 | The zoomed clone keeps every attribute except `data-zoom-enabled`. It has the zoom-out cursor and no listeners |
| ZoomOverlay.OpenZoom | astro-mermaid-zoom-addon.js:94-226 | A no-op whenever `currentZoom` is set. Otherwise a new overlay element with the clone is attached and becomes `currentZoom`, body overflow becomes `'hidden'`, and the Escape handler is attached when `enableKeyboardClose` |
| ZoomOverlay.CloseZoomAsWritten | astro-mermaid-zoom-addon.js:235-248 | As written: a no-op when `currentZoom` is null. Otherwise it schedules a close timer, even when one is already pending |
| ZoomOverlay.CloseZoom | astro-mermaid-zoom-addon.js:235-248 | Corrected: a no-op when closed or already closing. From Open it schedules the one close timer and enters Closing |
| ZoomOverlay.TimerFire | astro-mermaid-zoom-addon.js:248-260 | When the timer fires, its own overlay is detached and every other attached overlay stays. Overflow becomes `''`. Its own Escape handler is removed and the others stay. `currentZoom` becomes null whatever it points to |
| ZoomOverlay.CloseTimes | astro-mermaid-zoom-addon.js:213-218 | One Escape press calls `closeZoom` once per attached handler, and only pending timers change. As written, each call with an overlay shown adds a timer for it. With the guard, the calls act as one |
| ZoomOverlay.Step | astro-mermaid-zoom-addon.js:48-218 | A click or Enter/Space on an SVG opens. The close button closes only when shown. A click closes only when its target is the overlay itself. Escape does nothing without an attached handler, and with one handler closes once. The timer completes a close |
| ZoomOverlay.StaleTimerSparesNewOverlay | astro-mermaid-zoom-addon.js:249-251 | A stale timer does not detach an overlay opened after it was scheduled, because every open builds a new element |
| ZoomOverlay.RunKeepsIdsFresh | astro-mermaid-zoom-addon.js:120 | In both variants, every overlay and handler in the state is older than the next element an open builds |
| ZoomOverlay.RunKeepsInv | astro-mermaid-zoom-addon.js:92-95 | With the corrected close, any event sequence keeps this invariant: closed means nothing attached or pending. Otherwise exactly the current overlay is attached, overflow is `'hidden'`, and at most one close is pending, for that overlay |
| ZoomOverlay.SingleOverlay | astro-mermaid-zoom-addon.js:95 | With the corrected close, from a page with no overlay, at most one overlay is ever attached |
| ZoomOverlay.PhaseTransitions | astro-mermaid-zoom-addon.js:94-260 | With the corrected close, open acts only from Closed, and it opens. Close acts only from Open, and it leads to Closing, where open stays a no-op. The timer acts only from Closing and completes the close. Everything else leaves the state alone |
| ZoomOverlay.CloseTriggers | astro-mermaid-zoom-addon.js:206-218 | With the corrected close, a click closes only when its target is the overlay itself. Escape closes only when `enableKeyboardClose` is set |
| ZoomOverlay.AsWrittenDoubleCloseOpensTwo | astro-mermaid-zoom-addon.js:235-260 | As written, this event sequence leaves two overlays attached: open, Escape twice during the fade-out, timer, open, timer, open |

## Findings

| source | as written | input that shows it | evidently intended | confidence | as-written member | corrected member |
|---|---|---|---|---|---|---|
| astro-mermaid-zoom-addon.js:235-260 | `closeZoom` schedules a close timer whenever `currentZoom` is set, including while one is already pending. Each timer clears `currentZoom` and overflow unconditionally | Open overlay A. Press Escape twice within the fade-out. Let the first timer fire. Open overlay B. Let the second timer fire: `currentZoom` is null and overflow is `''` while B is shown. Open C, and B and C are both attached | At most one overlay: a close that is already pending is not scheduled again | medium; not executed | ZoomOverlay.CloseZoomAsWritten | ZoomOverlay.CloseZoom |

`ZoomOverlay.AsWrittenDoubleCloseOpensTwo` exhibits the as-written run. The
corrected machine (`Variant.Guarded`) is the one `ZoomOverlay.RunKeepsInv`,
`ZoomOverlay.SingleOverlay`, `ZoomOverlay.PhaseTransitions` and
`ZoomOverlay.CloseTriggers` speak about.

## Left out

- Astro hook wiring is not modelled: `updateConfig`, `injectScript`, the Vite `optimizeDeps` entry, `addWatchFile` and all logger and `console` calls. It is framework plumbing with no behaviour to state.
- The injected stylesheets are not modelled, including the rule that keeps unprocessed diagrams at opacity 0. They are presentation only.
- `mermaid.initialize` and `mermaid.render` are opaque. Render is an oracle of (theme, id, definition). Config keys other than `theme` are not modelled.
- The `Math.random` element id is an `IdSource` parameter, one id per document position and pass.
- MutationObserver and event-listener registration are not modelled, and neither are `DOMContentLoaded` and `astro:after-swap`. A load or view transition is the `Loaded` event, and a `data-theme` change is the `DataThemeSet` event.
- Overlapping, un-awaited `initMermaid` runs from bursts of theme changes are not modelled. Every pass runs to completion before the next event.
- `initZoom`'s 100 ms retry timer and the 500 ms delayed re-run after a theme change are not modelled. A pass that finds no target returns `RetryLater`.
- The close timer is modelled only as the explicit `TimerFires` event. Timers fire oldest first because they all share one delay.
- The viewBox-based sizing of the clone is not modelled because it depends on floating-point window sizes. The same goes for the opacity and transform animation, `requestAnimationFrame` and the close button's hover styles.
- Pan, drag and wheel zoom, and icon-pack registration, are not modelled: the code has none of them. The demo configurations' `iconPacks` and the declared `onMermaidInit` are not consumed.
- JavaScript prototype-key quirks of the `themeMap[...]` lookup are not modelled. `themeMap` is a two-entry map.
- A `mermaidConfig.theme` that is present but `undefined` or `null` is not modelled. `Theme.Options` treats it as absent or as a string.
- HAST property values other than `className` are strings, and a non-array `className` is treated as absent, as `Array.isArray` treats it. HAST node kinds other than elements and text, such as comments and raw nodes, are not modelled.
- Original SVG is not modified: the model states this by construction rather than as a contract. `ZoomOverlay.OpenZoom` receives the SVG as a value and the overlay state holds no page SVGs, so the original cannot change.
- The build-time log lines per block and the total are not modelled. Only the count they report is.
