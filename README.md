# criticalcss-html-webpack-plugin, modelled in Dafny

A model of the core of `CriticalCSSWebpackPlugin` (`index.js`), a webpack plugin
that, for each HTML file produced by html-webpack-plugin, collects the emitted
CSS assets, asks the `critical` extractor to inline the above-the-fold CSS, and
writes the result back into the HTML payload.

The model has one module per part of that file:

- `Filters` (`filters.dfy`): `FileFilter`, the include/exclude filter. A RegExp
  is modelled by the predicate that `regex.test` computes (`Pattern = string -> bool`);
  `RegExp | RegExp[]` and `RegExp | RegExp[] | boolean` are datatypes.
- `Options` (`options.dfy`): `setupOptions`, the user options filled in with
  the built-in defaults by `defaultsDeep`. The `html` and `css` filters are
  merged key by key; the extractor's option bag `criticalOptions` is a
  JSON-like value tree merged by a recursive `defaultsDeep` (user value wins,
  a missing key takes the default, two objects merge key by key).
- `Vinyl` (`vinyl.dfy`): `vinylizeCSSFile`, which builds a Vinyl file record
  (`cwd`, `base`, `path`, `contents`). `path.join` is passed in as a function.
- `Buffers` (`buffers.dfy`): bytes and `String.fromCharCode(...new Uint8Array(buf))`,
  which makes one UTF-16 code unit of every byte, with its inverse.
- `Plugin` (`plugin.dfy`): the `html-webpack-plugin-after-html-processing`
  handler and `sendToCritical`. `assets.filter(...)` is a generic
  `Array.prototype.filter` (`KeepIf`) applied with the CSS filter. The handler's outcome is specified by the
  function `React`; the class `CriticalCssWebpackPlugin` holds the resolved
  options, and its method `AfterHtmlProcessing` writes `html` into the payload
  object (`HtmlPluginData`) in place and records, in a `HookLog`, every
  callback invocation, every extractor call and every logged error.
  `Critical.generate` is a function parameter (`Extractor`) returning a string,
  a byte buffer, or a rejection, so every lemma holds for any extractor.

Three behaviours of `index.js` that a reader might expect otherwise; the
model follows the code in each:

- When the extractor rejects, the code logs the error and returns it from the
  promise chain but never calls the callback (index.js:148-151), although the
  host expects one callback per HTML output. The model records no callback on that path.
- A byte-buffer result is read one byte per UTF-16 code unit (index.js:141-142),
  not decoded as UTF-8; the model states exactly that rule and its inverse.
- An empty `include` list is accepted and admits nothing (index.js:202, 211);
  nothing normalises it to a non-empty list.

## Model

| member | source | states |
|---|---|---|
| `Filters.CastArray` | index.js:202-207 | a single pattern becomes the one-element list holding it; a list is kept as it is |
| `Filters.AnyTest` | index.js:211 | `some(regex.test)` is true exactly when some pattern of the list matches the path |
| `Filters.FileFilter` | index.js:201-222 | a path is admitted exactly when some include pattern matches it and either `exclude` is a boolean or no exclude pattern matches it |
| `Filters.BooleanExcludeDisablesExclusion` | index.js:203-215 | `exclude: true` and `exclude: false` both disable exclusion: admission is include matching alone |
| `Filters.SingleIsOneElementList` | index.js:202-207 | a single include or exclude pattern gives the same decision as the one-element list holding it |
| `Filters.EmptyExcludeListExcludesNothing` | index.js:207-219 | an empty exclude list gives the same decision as `exclude: false` |
| `Filters.EmptyIncludeAdmitsNothing` | index.js:211-221 | an empty include list admits no path, whatever `exclude` is |
| `Options.DefaultOptions` | index.js:57-84 | the defaults: one include pattern each (`/\.html?$/`, `/\.css$/`), exclusion disabled, and an extractor bag of exactly `inline: true`, `minify: false`, with no `base` |
| `Options.OrDefault` | index.js:85 | a supplied user key keeps the user's value; a missing one takes the default |
| `Options.MergeValue` | index.js:85 | a non-object user value (or a non-object default) leaves the user's value; two objects merge to an object holding the keys of both |
| `Options.DefaultsDeep` | index.js:85 | merged keys are the union; default-only keys take the default; user-only keys, and keys where the two sides are not both objects, keep the user's value |
| `Options.UserLeafWins` | index.js:85 | every non-object value the user supplied, at any depth, is found at the same place in the merged options |
| `Options.DefaultFillsMissing` | index.js:85 | at any path where the user supplied nothing, the merged options hold the default's value |
| `Options.SetupOptions` | index.js:52-87 | supplied `html`/`css` include and exclude keys are kept, missing ones become `/\.html?$/`, `/\.css$/` and `false`; every user key of `criticalOptions` is kept and missing `inline`/`minify` become `true`/`false`; with no user `criticalOptions` the bag is exactly `{inline: true, minify: false}` |
| `Options.HtmlPatternExamples` | index.js:59 | `/\.html?$/` matches `index.html` and `page.htm` but not `report.txt` |
| `Options.CssPatternExamples` | index.js:63 | `/\.css$/` matches `a.css` but not `b.js` |
| `Options.DefaultFilters` | index.js:57-65 | with no user options, `.html`/`.htm` outputs pass the HTML filter, `report.txt` does not, and `a.css` passes the CSS filter while `b.js` does not |
| `Options.UserIncludeOverridesOnlyItsKey` | index.js:57-85 | overriding `css.include` keeps it, fills `css.exclude` with `false` and leaves the `html` filter at its defaults |
| `Buffers.FromCharCodes` | index.js:142 | the decoded string has the buffer's length and its i-th code unit equals byte i |
| `Buffers.CharCodes` | index.js:142 | reading a byte string's code units back gives bytes of the same length and values |
| `Buffers.FromCharCodesIsByteString` | index.js:142 | every code unit of a decoded buffer lies in 0..255 |
| `Buffers.CharCodesOfFromCharCodes` | index.js:142 | mapping the decoded string's code units back gives the original bytes |
| `Buffers.FromCharCodesOfCharCodes` | index.js:142 | a byte string is the decoding of its own code units |
| `Vinyl.VinylizeCssFile` | index.js:183-192 | the file has `cwd` and `base` equal to the base path, `path` equal to the join of base path and name, and the asset's bytes as `contents` |
| `Plugin.KeepIf` | index.js:117 | `Array.prototype.filter`; its own contract says only that the result is no longer than the input and holds only admitted elements of it; the `KeptIndices` lemmas below give its full meaning |
| `Plugin.SelectCss` | index.js:117 | the selected entries are manifest entries the CSS filter admits; `SelectCssKeepsManifestOrder` gives its full meaning |
| `Plugin.KeepIfAtKeptIndices` | index.js:117 | `filter` keeps, as its k-th element, the element at the k-th admitted position |
| `Plugin.KeptIndicesIncrease` | index.js:117 | the admitted positions strictly increase |
| `Plugin.KeptIndicesExact` | index.js:117 | a position is among the admitted ones exactly when the predicate admits the element there |
| `Plugin.SelectCssKeepsManifestOrder` | index.js:117 | the CSS selection is the order-preserving subsequence of the manifest entries the CSS filter admits |
| `Plugin.BasePath` | index.js:124 | a base path is available exactly when `criticalOptions.base` is a string, and it is that string |
| `Plugin.WrapEntry` | index.js:119-126 | an entry that is already a Vinyl file passes through unchanged; any other is wrapped with the base path and its asset's bytes, or throws when its asset is missing or the base path is not a string |
| `Plugin.WrapAll` | index.js:119-126 | the mapping succeeds exactly when every entry wraps, giving the wrapped entries in order; otherwise it throws what the first failing entry throws |
| `Plugin.WrapSelectionFailsExactly` | index.js:117-126 | wrapping the selection throws exactly when some admitted manifest entry cannot be wrapped |
| `Plugin.SendToCritical` | index.js:164-174 | the extractor's options are the configured ones plus `html` and `css`, which override keys of those names; every other key is copied unchanged |
| `Plugin.NormalizeOutput` | index.js:139-143 | a string result is written as it is; a buffer result gives a string of the same length whose code units map back to the buffer's bytes |
| `Plugin.React` | index.js:103-151 | the handler's outcome: pass-through when the gate rejects the output; whenever the extractor is called its request carries the payload's HTML and a `css` file list; a failure carries the extractor's rejection; a rendering is the extractor's result normalised |
| `Plugin.PassThroughExactlyWhenHtmlRejected` | index.js:107-111 | the handler passes the payload straight through exactly when the output name fails the HTML filter |
| `Plugin.ExtractorSeesHtmlAndAdmittedCss` | index.js:113-133 | when the extractor is called, it receives the payload's HTML and, as `css`, the admitted manifest entries wrapped, in manifest order; other options pass through |
| `Plugin.ThrowsExactlyWhenWrappingFails` | index.js:117-126 | the handler throws exactly when the HTML is admitted and some admitted CSS entry cannot be wrapped |
| `Plugin.FailedExactlyWhenRejected` | index.js:133-151 | the handler ends in a logged failure exactly when the gate passes, every admitted entry wraps, and the extractor rejects the resulting request |
| `Plugin.RenderedExactlyWhenResolved` | index.js:133-146 | the handler renders exactly when the gate passes, every admitted entry wraps, and the extractor resolves the resulting request |
| `Plugin.RenderedHtmlIsNormalizedOutput` | index.js:134-146 | a rendered HTML is the extractor's string exactly, or a string whose code units are the extractor's bytes |
| `Plugin.ReportTxtPassesThrough` | index.js:107-111 | with the default options an output named `report.txt` is passed through and the extractor is not called |
| `Plugin.DefaultOptionsHaveNoBase` | index.js:80-85 | the default options have no string `base`, so wrapping an admitted non-Vinyl CSS asset whose bytes exist throws the `path.join` error |
| `Plugin.DefaultCssSelection` | index.js:117 | with the default CSS filter the manifest `a.css, b.js, b.css` selects `a.css, b.css` in that order |
| `Plugin.CriticalCssWebpackPlugin.constructor` | index.js:38-45 | the plugin's options are the user options with defaults applied |
| `Plugin.CriticalCssWebpackPlugin.AfterHtmlProcessing` | index.js:103-151 | the outcome is the one `React` specifies; `html` changes only to the rendered result; the callback is invoked once with `(null, payload)` on pass-through and after rendering and never otherwise; the extractor is called (and recorded) only past the gate; a rejection is logged and returned |

## Left out

- Webpack hook registration (`compiler.plugin('compilation', ...)`, `compilation.plugin(...)`): host plumbing; the handler is modelled as a method called once per HTML output.
- `Critical.generate`: the vendored extractor; it is any function from options to a string, a byte buffer or a rejection.
- `Vinyl` internals: the constructor's own path normalisation of `cwd`, `base` and `path` is not modelled; `Vinyl.isVinyl` is the `vinyl` field of a manifest entry.
- `path.join`: its platform semantics; it is a function parameter.
- `JSON.parse(htmlPluginData.plugin.assetJson)`: the manifest is given as a parsed sequence of entries; each entry carries the string the filter's regular expressions test.
- `compilation.assets[name].source()` and `Buffer.from`: an asset's contents are given as bytes.
- The regular-expression engine: patterns are predicates; the two default expressions are written as suffix tests. A pattern is a stateless `string -> bool`, so a user RegExp with the `g` or `y` flag, whose `test` advances `lastIndex`, is not captured: under `/\.css$/g` the filter at index.js:117 can reject `b.css` right after admitting `a.css`, and the HTML gate can likewise change its answer across events.
- lodash `defaultsDeep` on arrays and RegExp objects (it merges two arrays index by index): the model keeps the user's value whenever the two sides are not both plain objects. No default option is an array, so the plugin's defaults never reach that case.
- A user `html` or `css` option that is not a plain filter object: `defaultsDeep` writes the default `include` and `exclude` onto a RegExp or an array given there, so the default filter applies; a `null` filter is kept and makes `FileFilter` throw on reading `filter.include` (index.js:202); any other primitive reaches `undefined.test` (index.js:211) and throws. An `exclude` that is `null` is not modelled either: it throws at `null.test` (index.js:217) only for a path that an include pattern matches, and otherwise `FileFilter` returns `false`. The filter options are typed, so none of these inputs can be written.
- The `custom` default filter (index.js:70-79): it is never consulted by the plugin.
- `console.log` of a rejected extraction: the error is appended to `HookLog.logged` instead.
- Promise scheduling and asynchrony: the handler's run is one sequential step ending in one `Reaction`.
- An exception thrown by the callback itself inside the `then` handler (which the `catch` would log): the callback is recorded, not run.
- The `RangeError` that spreading a very large buffer into `String.fromCharCode` can raise.
- A result of the extractor that is neither a string nor a byte buffer.
- JavaScript strings are sequences of UTF-16 code units; the model's strings are sequences of Unicode scalar values, which agree on every string the byte decoding produces.
- JavaScript numbers in the option bag are modelled as integers.
