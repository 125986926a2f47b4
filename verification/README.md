# Remote UMD export selection, modelled in Dafny

The userscript in `userscript/index.js` injects a shadow-DOM widget into a page and fills it with a
React component that it downloads as a UMD bundle. The bundle has no declared export: it is run
with `new Function`, and the loader then guesses which global the bundle attached itself to. This
project models that guess and the load around it:

- `pickLikelyExport` (module `ExportPicker`): the names new on `window` after the bundle ran, the
  well-known names `RemoteComponent`, `default`, `App`, `HelloComponent`, `Component` tried first
  by presence, then the first new global holding a function or a non-null object, with throwing
  reads skipped. `PickLikelyExport` keeps the source's two loops and is proved against the
  specification function `Pick`.
- `fetchText` and `loadRemoteUMD` (module `Loader`): a fetch that fails, a payload that does not
  parse, a wrapper that reports failure, a candidate getter that throws, and no truthy candidate.
  `LoadRemoteUMD` is a method over the mutable `Window` (module `Globals`), proved against the
  specification function `Resolve`. The lemmas in `LoaderProperties` state what callers can rely on.
- The render classification in `boot` and `reload` (module `Render`). A function export is
  instantiated, a React element is shown as it is, any other export gives the invalid-export
  placeholder, and a failure gives an error view with its message. Both entry points are proved
  against the same function `Present`.

`window` is a `GlobalTable`. `names` is the list `Object.getOwnPropertyNames(window)` returns.
`slots` maps every readable name to a plain value or to a getter that throws. A name missing from
`slots` reads as `undefined`. Running the bundle is an `Interpreter` parameter. It takes the text
and the current globals. It gives back one of three things. The first is a parse error, and then
nothing ran. The second is the wrapper's return value. The third is an error thrown by the call
itself. In the last two cases it also gives the globals the payload left behind.

Where the code departs from the intended design of the loader, the model follows the code:

- Well-known names are matched by presence in the after-names (line 131), not by a non-null value.
  The candidates are then filtered by truthiness (line 170). So a well-known name bound to a falsy
  value hides every new global (`FalsyPriorityMasksNewGlobals`, `FalsyPriorityExample`).
- The value returned is the first truthy candidate of any kind. A truthy primitive bound to a
  well-known name is returned, and the render step then shows the invalid-export placeholder.
- A payload that throws inside the wrapper's `try` gives the fixed message "Eval failure (see
  console)", not the underlying message. The call itself can still throw, and that error is passed
  on as it is. This happens when `console.error` in the `catch` has been replaced by one that
  throws, or when the payload text closes the `try` early. A payload text that does not parse makes `new Function` throw its `SyntaxError`, which
  is passed on as it is.
- A reload is not independent of the earlier load, because both share `window`. An export found
  only by the new-keys fallback is no longer new on the second load, so that load fails
  (`ReloadLosesFallbackExport`). The bundle built by `vite.config.js` attaches itself as
  `HelloComponent`, a well-known name, and is not affected (`ReloadKeepsBundleExport`).
- The fallback can pick a global named `""`. `pick ? window[pick] : null` treats that name as no
  pick (`EmptyNameExample`).

## Model

| member | source | states |
|---|---|---|
| Js.ErrorText | userscript/index.js:258 | the text an error adds to the error view is its message, or its name when the message is empty (`String(e)`) |
| Js.Decimal | userscript/index.js:123 | the status code renders as a non-empty string of digits with no leading zero |
| Js.DecimalRoundTrip | userscript/index.js:123 | reading the rendered status back gives the status, so the HTTP message carries the exact code |
| Js.DecimalInjective | userscript/index.js:123 | distinct status codes give distinct messages |
| Globals.Read | userscript/index.js:135 | reading a missing global gives undefined; a read throws exactly when the property's getter throws |
| Globals.Window.constructor | userscript/index.js:145 | the window starts with the given own names and bindings |
| Globals.Window.Execute | userscript/index.js:147-157 | running the wrapper leaves the globals the payload produced, even when it threw part-way or the call itself threw; a text that does not parse changes nothing |
| ExportPicker.NewKeys | userscript/index.js:128 | the new keys are exactly the after-names that were not before-names, and there are no more of them than after-names |
| ExportPicker.NewKeysAppend | userscript/index.js:128 | the new keys keep the order of the after-names (filtering distributes over concatenation) |
| ExportPicker.NewKeysSingle | userscript/index.js:128 | a single after-name is kept exactly when it is not a before-name |
| ExportPicker.NewKeysNone | userscript/index.js:128 | no key is new when every after-name was present before |
| ExportPicker.FirstWhere | userscript/index.js:131-138 | the early-return loops find the first position that passes the test, or report that none does |
| ExportPicker.Pick | userscript/index.js:127-140 | a picked name is always an after-name; a picked name that is not well-known is new and holds a function or an object |
| ExportPicker.PickLikelyExport | userscript/index.js:127-140 | the two loops return the name `Pick` specifies, reading the current window |
| ExportPicker.PickPrefersPriority | userscript/index.js:130-131 | the earliest well-known name present is picked, whatever its value and whether or not it is new |
| ExportPicker.PickFallbackFound | userscript/index.js:132-137 | without well-known names, the pick is the first new name whose read succeeds with a function or object, skipping names whose read throws |
| ExportPicker.PickFallbackNone | userscript/index.js:132-139 | without well-known names and with no usable new name, nothing is picked (`null`) |
| ExportPicker.NewKeysOfAdded | userscript/index.js:128 | a payload that adds one name makes exactly that name new |
| ExportPicker.PickIgnoresBefore | userscript/index.js:128-131 | when a well-known name is present, the before-names do not affect the pick |
| Loader.FetchText | userscript/index.js:121-125 | only a response with status 200-299 yields its body; any other status fails with "HTTP <status> for <url>"; a rejected `fetch` or `res.text()` is passed on as it is |
| Loader.Message | userscript/index.js:123-175 | the texts of the errors: "HTTP <status> for <url>", "Eval failure (see console)", "UMD did not expose a usable component", and for a passed-on error its `e.message` rule |
| Loader.ReadAll | userscript/index.js:163-169 | the candidate reads succeed exactly when no getter throws; otherwise the error is that of the first throwing read |
| Loader.Candidates | userscript/index.js:163-169 | the candidates are the five well-known globals, in order, then the picked global, or null when there is no pick or it is ""; building them throws exactly when a well-known getter or the pick's getter throws |
| Loader.FilterTruthy | userscript/index.js:170 | the survivors are exactly the truthy candidates |
| Loader.FilterTruthyFirst | userscript/index.js:170-174 | the first survivor is the earliest truthy candidate |
| Loader.FilterTruthyNone | userscript/index.js:170-175 | nothing survives when no candidate is truthy |
| Loader.Select | userscript/index.js:160-177 | a selected export is always truthy; selection fails only through a throwing read or with no usable component |
| Loader.Resolve | userscript/index.js:142-178 | a loaded value is truthy; a failed fetch fails with its error and leaves the globals untouched; a text that does not parse fails with its `SyntaxError` and leaves the globals untouched; a throwing call fails with its error and keeps the payload's globals; a truthy wrapper result leads to the selection on the new globals |
| Loader.LoadRemoteUMD | userscript/index.js:142-178 | the result and the new globals are those of `Resolve` on the globals before the call |
| LoaderProperties.FailedFetchRunsNothing | userscript/index.js:121-124 | a failed fetch fails the load with the HTTP error, leaves the globals as they were, and no payload semantics can change that |
| LoaderProperties.FalsyWrapperResultStops | userscript/index.js:157-158 | a falsy wrapper result fails with "Eval failure (see console)" and no export is selected |
| LoaderProperties.SelectFirstTruthyPriority | userscript/index.js:163-174 | if no well-known read throws, the earliest truthy well-known global is the export |
| LoaderProperties.SelectPriorityThrows | userscript/index.js:163-169 | a throwing well-known getter fails the load with its error, even when an earlier candidate is truthy |
| LoaderProperties.SelectFallback | userscript/index.js:132-175 | with no well-known name present and no truthy well-known read, the export is the value of the fallback's new global, and the load fails when there is none or it is named "" |
| LoaderProperties.FalsyPriorityMasksNewGlobals | userscript/index.js:131-175 | a well-known name that is present but falsy, with no truthy well-known global, fails the load whatever new globals exist |
| LoaderProperties.AttachedPriorityGlobalIsSelected | userscript/index.js:163-174 | a payload that binds a well-known name to a truthy value, with no other well-known global readable, loads that value |
| LoaderProperties.RemoteComponentExample | userscript/index.js:130-131 | `window.RemoteComponent = () => "hi"` loads that function |
| LoaderProperties.AddedObjectGlobal | userscript/index.js:133-175 | a payload that adds one non-well-known global holding an object loads that object, unless the global is named "" |
| LoaderProperties.PlainObjectExample | userscript/index.js:133-136 | `window.Foo = {x: 1}` loads that object |
| LoaderProperties.FalsyPriorityExample | userscript/index.js:131 | `window.App = null; window.Widget = function () {}` fails with no usable component although `Widget` is new and holds a function |
| LoaderProperties.EmptyNameExample | userscript/index.js:169 | a bundle that only defines `window[""]` fails with no usable component |
| LoaderProperties.ReloadLosesFallbackExport | userscript/index.js:145-161 | loading a fallback-found bundle twice on the same window succeeds, then fails |
| LoaderProperties.ReloadKeepsBundleExport | vite.config.js:9 | a bundle that attaches itself as `HelloComponent` loads the function the bundle attaches, on both loads |
| Render.ElementFor | userscript/index.js:248-250 | a function export is instantiated, a valid element is kept as it is, and every other export gives the invalid-export placeholder |
| Render.Present | userscript/index.js:245-258 | a successful load shows its export's element and a failure shows the error view with the prefixed message; the shell is never shown again |
| Render.PresentOfLoad | userscript/index.js:248-258 | the view of a load is a created component exactly for a function, the element itself exactly for a valid element, the invalid placeholder exactly for other truthy exports, and an error view with the prefixed message exactly for a failure |
| Render.NotFoundView | userscript/index.js:123 | a 404 shows "Failed to load remote component: HTTP 404 for <url>" |
| Render.Root.constructor | userscript/index.js:225-226 | the root first shows the loading shell |
| Render.Boot | userscript/index.js:245-259 | the initial load shows the view `Present` gives for the load's outcome |
| Render.Reload | userscript/index.js:231-242 | a reload shows the view `Present` gives for the new load's outcome, the same rule as the initial load |

## Left out

- `fetch` and `res.text()` are an input `FetchOutcome`: a response with a status and a body, or a
  rejection. The request options (no credentials, no cache) have no observable effect here.
- Executing the payload is the `Interpreter` parameter. The injected `document` and `React`
  arguments are not modelled. The output of the wrapper's `console.error` is not modelled. A
  `console.error` that throws is covered, as a call that throws.
- Reads of globals are deterministic and have no side effects. A getter that gives different values
  on successive reads, or changes other globals, is not modelled.
- Thrown values are `Error` objects with a name and a message. A thrown non-`Error` value is not
  modelled.
- Truthiness follows the kinds in `Js.Value`. The legacy falsy object `document.all` is not modelled.
- Errors thrown by `React.createElement` or `root.render` inside the same `try` are not modelled.
- `loadScript`, `domReady`, `createShadowHost`, `initTwind` and the inline styles are network and
  DOM plumbing, with no selection logic.
- The contents of `Shell` and `ErrorView` belong to React, a foreign library. Only the view kind
  and the error text are kept, and `isValidElement` is the `isElement` flag on objects.
- The `__reactShadowTailwindBooted` guard and the Ctrl+Alt+X display toggle are a global flag and a
  DOM event handler, not modelled.
- Concurrent `reload` calls race in the event loop, so the last to finish wins. Each modelled call
  runs to completion.
- Console logging is not modelled.
- `vite.config.js` is declarative build configuration. Only the bundle's global name
  `HelloComponent` is used, in `ReloadKeepsBundleExport`.
