/**
 * The plugin object and the body of its `html-webpack-plugin-after-html-processing`
 * handler: gate the HTML output, select the CSS assets, wrap them as Vinyl files,
 * call the extractor (`sendToCritical`), normalise its result, write it into the
 * payload and hand the payload back through the callback.
 */
module Plugin {

  import opened Wrappers
  import opened Buffers
  import opened Filters
  import opened Vinyl
  import opened Options

  /**
   * One entry of the parsed `assetJson`. `text` is the string the filter's
   * patterns test; `vinyl` is the file itself when `Vinyl.isVinyl(entry)` holds.
   */
  datatype ManifestEntry = ManifestEntry(text: string, vinyl: Option<VinylFile>)

  /** The bytes of each emitted asset: `Buffer.from(compilation.assets[name].source())`. */
  type Assets = map<string, seq<byte>>

  /** The exceptions the handler can throw before the extractor is called. */
  datatype Thrown =
    | MissingAsset(name: string)  // `compilation.assets[name]` is undefined, so `.source()` throws
    | BaseNotAString              // `criticalOptions.base` is not a string, so `path.join` throws

  /** What the extractor resolves to: sometimes a string, sometimes a byte buffer. */
  datatype CriticalOutput = Html(html: string) | Buffer(bytes: seq<byte>)

  /** The value a rejected extraction carries. */
  datatype ErrorValue = ErrorValue(message: string)

  /** The settled extraction promise. */
  datatype Extraction = Resolved(output: CriticalOutput) | Rejected(error: ErrorValue)

  /** The extractor, `Critical.generate`, as any function of its options. */
  type Extractor = CriticalOptions -> Extraction

  // ---------------------------------------------------------------------------
  // Selecting the CSS assets

  /** `Array.prototype.filter`: the elements `keep` admits, in their original order. */
  function KeepIf<T>(s: seq<T>, keep: T -> bool): (kept: seq<T>)
    ensures |kept| <= |s|
    ensures forall x :: x in kept ==> x in s && keep(x)
  {
    if s == [] then []
    else (if keep(s[0]) then [s[0]] else []) + KeepIf(s[1..], keep)
  }

  /** Every index in `s` moved one place to the right. */
  function Shift(s: seq<nat>): (t: seq<nat>)
    ensures |t| == |s| && forall k :: 0 <= k < |s| ==> t[k] == s[k] + 1
  {
    seq(|s|, k requires 0 <= k < |s| => s[k] + 1)
  }

  /** The positions of the elements of `s` that `keep` admits, in increasing order. */
  ghost function KeptIndices<T>(s: seq<T>, keep: T -> bool): seq<nat> {
    if s == [] then []
    else (if keep(s[0]) then [0] else []) + Shift(KeptIndices(s[1..], keep))
  }

  /** The k-th kept element is the element at the k-th admitted position. */
  lemma {:induction false} KeepIfAtKeptIndices<T>(s: seq<T>, keep: T -> bool)
    ensures |KeptIndices(s, keep)| == |KeepIf(s, keep)|
    ensures forall k :: 0 <= k < |KeptIndices(s, keep)| ==>
      KeptIndices(s, keep)[k] < |s| && KeepIf(s, keep)[k] == s[KeptIndices(s, keep)[k]]
  {
    if s != [] {
      KeepIfAtKeptIndices(s[1..], keep);
      var rest := KeptIndices(s[1..], keep);
      var head: seq<nat> := if keep(s[0]) then [0] else [];
      var idx := KeptIndices(s, keep);
      var kept := KeepIf(s, keep);
      assert idx == head + Shift(rest);
      assert kept == (if keep(s[0]) then [s[0]] else []) + KeepIf(s[1..], keep);
      forall k | |head| <= k < |idx|
        ensures idx[k] < |s| && kept[k] == s[idx[k]]
      {
        assert idx[k] == rest[k - |head|] + 1;
        assert kept[k] == KeepIf(s[1..], keep)[k - |head|];
      }
    }
  }

  /** The admitted positions increase strictly. */
  lemma {:induction false} KeptIndicesIncrease<T>(s: seq<T>, keep: T -> bool)
    ensures forall k, l :: 0 <= k < l < |KeptIndices(s, keep)| ==>
      KeptIndices(s, keep)[k] < KeptIndices(s, keep)[l]
  {
    if s != [] {
      KeptIndicesIncrease(s[1..], keep);
      var head: seq<nat> := if keep(s[0]) then [0] else [];
      assert KeptIndices(s, keep) == head + Shift(KeptIndices(s[1..], keep));
    }
  }

  /** Shifting moves membership one place to the right. */
  lemma ShiftMember(s: seq<nat>, j: nat)
    ensures j in s <==> j + 1 in Shift(s)
  {
    if j + 1 in Shift(s) {
      var k :| 0 <= k < |s| && Shift(s)[k] == j + 1;
      assert s[k] == j;
    }
    if j in s {
      var k :| 0 <= k < |s| && s[k] == j;
      assert Shift(s)[k] == j + 1;
    }
  }

  /** A position is listed exactly when `keep` admits the element there. */
  lemma {:induction false} KeptIndicesExact<T>(s: seq<T>, keep: T -> bool)
    ensures forall i :: 0 <= i < |s| ==> (i in KeptIndices(s, keep) <==> keep(s[i]))
  {
    if s != [] {
      var tail := s[1..];
      KeptIndicesExact(tail, keep);
      var rest := KeptIndices(tail, keep);
      var head: seq<nat> := if keep(s[0]) then [0] else [];
      assert KeptIndices(s, keep) == head + Shift(rest);
      forall i | 0 < i < |s|
        ensures i in head + Shift(rest) <==> keep(s[i])
      {
        assert s[i] == tail[i - 1];
        ShiftMember(rest, i - 1);
      }
    }
  }

  /** The CSS filter's decision on one manifest entry. */
  function AdmitsCss(css: Filter): ManifestEntry -> bool {
    (entry: ManifestEntry) => FileFilter(entry.text, css)
  }

  /** `assets.filter(filepath => FileFilter(filepath, opts.css))`. */
  function SelectCss(manifest: seq<ManifestEntry>, css: Filter): (selected: seq<ManifestEntry>)
    ensures |selected| <= |manifest|
    ensures forall e :: e in selected ==> e in manifest && FileFilter(e.text, css)
  {
    KeepIf(manifest, AdmitsCss(css))
  }

  /** The positions of the manifest entries the CSS filter admits. */
  ghost function AdmittedIndices(manifest: seq<ManifestEntry>, css: Filter): seq<nat> {
    KeptIndices(manifest, AdmitsCss(css))
  }

  /**
   * The selection is the order-preserving subsequence of admitted entries:
   * its k-th element is the manifest entry at the k-th admitted position, the
   * positions increase, and a position is listed exactly when its entry is admitted.
   */
  lemma SelectCssKeepsManifestOrder(manifest: seq<ManifestEntry>, css: Filter)
    ensures |AdmittedIndices(manifest, css)| == |SelectCss(manifest, css)|
    ensures forall k :: 0 <= k < |AdmittedIndices(manifest, css)| ==>
      AdmittedIndices(manifest, css)[k] < |manifest| &&
      SelectCss(manifest, css)[k] == manifest[AdmittedIndices(manifest, css)[k]]
    ensures forall k, l :: 0 <= k < l < |AdmittedIndices(manifest, css)| ==>
      AdmittedIndices(manifest, css)[k] < AdmittedIndices(manifest, css)[l]
    ensures forall i :: 0 <= i < |manifest| ==>
      (i in AdmittedIndices(manifest, css) <==> FileFilter(manifest[i].text, css))
  {
    KeepIfAtKeptIndices(manifest, AdmitsCss(css));
    KeptIndicesIncrease(manifest, AdmitsCss(css));
    KeptIndicesExact(manifest, AdmitsCss(css));
  }

  // ---------------------------------------------------------------------------
  // Wrapping the selected assets as Vinyl files

  /** `options.criticalOptions.base`, when it is a string that `path.join` accepts. */
  function BasePath(criticalOptions: CriticalOptions): (base: Option<string>)
    ensures base.Some? <==> "base" in criticalOptions && criticalOptions["base"].Text?
    ensures base.Some? ==> criticalOptions["base"] == Text(base.value)
  {
    if "base" in criticalOptions && criticalOptions["base"].Text? then Some(criticalOptions["base"].s) else None
  }

  /**
   * The `.map` callback: a Vinyl entry passes through unchanged; any other
   * entry is wrapped with the configured base path and its asset's bytes.
   */
  function WrapEntry(entry: ManifestEntry, base: Option<string>, assets: Assets,
                     join: (string, string) -> string): (r: Result<VinylFile, Thrown>)
    ensures entry.vinyl.Some? ==> r == Ok(entry.vinyl.value)
    ensures entry.vinyl.None? ==> (r.Ok? <==> entry.text in assets && base.Some?)
    ensures entry.vinyl.None? && r.Ok? ==>
      r.value.cwd == base.value && r.value.base == base.value &&
      r.value.path == join(base.value, entry.text) && r.value.contents == assets[entry.text]
    ensures entry.vinyl.None? && entry.text !in assets ==> r == Err(MissingAsset(entry.text))
    ensures entry.vinyl.None? && entry.text in assets && base.None? ==> r == Err(BaseNotAString)
  {
    if entry.vinyl.Some? then Ok(entry.vinyl.value)
    else if entry.text !in assets then Err(MissingAsset(entry.text))
    else if base.None? then Err(BaseNotAString)
    else Ok(VinylizeCssFile(entry.text, base.value, assets[entry.text], join))
  }

  /** Entry `i` is the first whose wrapping throws, and it throws `thrown`. */
  ghost predicate FirstFailureAt(entries: seq<ManifestEntry>, base: Option<string>, assets: Assets,
                                 join: (string, string) -> string, i: int, thrown: Thrown) {
    && 0 <= i < |entries|
    && WrapEntry(entries[i], base, assets, join) == Err(thrown)
    && forall j :: 0 <= j < i ==> WrapEntry(entries[j], base, assets, join).Ok?
  }

  /**
   * `.map(...)` over the selected entries: every entry wrapped, in order, or
   * the exception of the first entry whose wrapping throws.
   */
  function WrapAll(entries: seq<ManifestEntry>, base: Option<string>, assets: Assets,
                   join: (string, string) -> string): (r: Result<seq<VinylFile>, Thrown>)
    ensures r.Ok? <==> forall i :: 0 <= i < |entries| ==> WrapEntry(entries[i], base, assets, join).Ok?
    ensures r.Ok? ==> |r.value| == |entries|
    ensures r.Ok? ==> forall i :: 0 <= i < |entries| ==> WrapEntry(entries[i], base, assets, join) == Ok(r.value[i])
    ensures r.Err? ==> exists i :: FirstFailureAt(entries, base, assets, join, i, r.error)
  {
    if entries == [] then Ok([])
    else match WrapEntry(entries[0], base, assets, join)
      case Err(t) =>
        assert FirstFailureAt(entries, base, assets, join, 0, t);
        Err(t)
      case Ok(file) =>
        var rest := WrapAll(entries[1..], base, assets, join);
        if rest.Err? then
          assert exists i :: FirstFailureAt(entries, base, assets, join, i, rest.error) by {
            var i :| FirstFailureAt(entries[1..], base, assets, join, i, rest.error);
            assert forall j :: 0 < j < i + 1 ==> entries[j] == entries[1..][j - 1];
            assert FirstFailureAt(entries, base, assets, join, i + 1, rest.error);
          }
          Err(rest.error)
        else
          assert forall i :: 0 < i < |entries| ==> entries[i] == entries[1..][i - 1];
          Ok([file] + rest.value)
  }

  // ---------------------------------------------------------------------------
  // Calling the extractor and reading its result

  /**
   * `sendToCritical(source, cssFiles)`: the extractor's options are the
   * configured ones with `html` and `css` set (overriding keys of those names).
   */
  function SendToCritical(criticalOptions: CriticalOptions, source: string, cssFiles: seq<VinylFile>): (request: CriticalOptions)
    ensures request.Keys == criticalOptions.Keys + {"html", "css"}
    ensures request["html"] == Text(source) && request["css"] == Files(cssFiles)
    ensures forall k :: k in criticalOptions && k != "html" && k != "css" ==> request[k] == criticalOptions[k]
  {
    criticalOptions["html" := Text(source)]["css" := Files(cssFiles)]
  }

  /**
   * The string written into `html`: a string result as it is; a buffer read
   * one byte per code unit, so that the code units give back the bytes.
   */
  function NormalizeOutput(output: CriticalOutput): (html: string)
    ensures output.Html? ==> html == output.html
    ensures output.Buffer? ==> |html| == |output.bytes| && IsByteString(html) && CharCodes(html) == output.bytes
  {
    match output
    case Html(s) => s
    case Buffer(bytes) =>
      CharCodesOfFromCharCodes(bytes);
      FromCharCodes(bytes)
  }

  // ---------------------------------------------------------------------------
  // The handler as a whole

  /** How one run of the handler ends. */
  datatype Reaction =
    | PassThrough                                            // callback(null, data) at once, nothing else
    | Threw(thrown: Thrown)                                  // exception out of the handler; no callback
    | Rendered(request: CriticalOptions, html: string)       // html replaced, then callback(null, data)
    | Failed(request: CriticalOptions, error: ErrorValue)    // error logged and returned; no callback

  /** What the handler does with one HTML output, given the resolved options. */
  function React(config: Config, outputName: string, html: string, manifest: seq<ManifestEntry>,
                 assets: Assets, join: (string, string) -> string, critical: Extractor): (r: Reaction)
    ensures !FileFilter(outputName, config.html) ==> r == PassThrough
    ensures (r.Rendered? || r.Failed?) ==>
      "html" in r.request && r.request["html"] == Text(html) && "css" in r.request && r.request["css"].Files?
    ensures r.Failed? ==> critical(r.request) == Rejected(r.error)
    ensures r.Rendered? ==> critical(r.request).Resolved? && r.html == NormalizeOutput(critical(r.request).output)
  {
    if !FileFilter(outputName, config.html) then PassThrough
    else
      match WrapAll(SelectCss(manifest, config.css), BasePath(config.criticalOptions), assets, join)
      case Err(t) => Threw(t)
      case Ok(cssFiles) =>
        var request := SendToCritical(config.criticalOptions, html, cssFiles);
        match critical(request)
        case Rejected(e) => Failed(request, e)
        case Resolved(output) => Rendered(request, NormalizeOutput(output))
  }

  /** An HTML output the HTML filter rejects is passed straight back, and only then. */
  lemma PassThroughExactlyWhenHtmlRejected(config: Config, outputName: string, html: string,
      manifest: seq<ManifestEntry>, assets: Assets, join: (string, string) -> string, critical: Extractor)
    ensures React(config, outputName, html, manifest, assets, join, critical).PassThrough? <==>
            !FileFilter(outputName, config.html)
  {
  }

  /**
   * Whenever the extractor is called, it receives the payload's HTML and the
   * admitted manifest entries, wrapped, in manifest order; every other
   * configured option is passed through.
   */
  lemma ExtractorSeesHtmlAndAdmittedCss(config: Config, outputName: string, html: string,
      manifest: seq<ManifestEntry>, assets: Assets, join: (string, string) -> string, critical: Extractor)
    requires React(config, outputName, html, manifest, assets, join, critical).Rendered? ||
             React(config, outputName, html, manifest, assets, join, critical).Failed?
    ensures FileFilter(outputName, config.html)
    ensures var request := React(config, outputName, html, manifest, assets, join, critical).request;
      var idx := AdmittedIndices(manifest, config.css);
      request["html"] == Text(html) &&
      request["css"].Files? && |request["css"].files| == |idx| &&
      (forall k :: 0 <= k < |idx| ==> (idx[k] < |manifest| &&
        WrapEntry(manifest[idx[k]], BasePath(config.criticalOptions), assets, join) == Ok(request["css"].files[k]))) &&
      (forall k :: k in config.criticalOptions && k != "html" && k != "css" ==> request[k] == config.criticalOptions[k])
  {
    var selected := SelectCss(manifest, config.css);
    SelectCssKeepsManifestOrder(manifest, config.css);
  }

  /** Wrapping the selection throws exactly when some admitted manifest entry cannot be wrapped. */
  lemma WrapSelectionFailsExactly(manifest: seq<ManifestEntry>, css: Filter, base: Option<string>,
      assets: Assets, join: (string, string) -> string)
    ensures WrapAll(SelectCss(manifest, css), base, assets, join).Err? <==>
      exists i :: 0 <= i < |manifest| && FileFilter(manifest[i].text, css) &&
        WrapEntry(manifest[i], base, assets, join).Err?
  {
    var selected := SelectCss(manifest, css);
    SelectCssKeepsManifestOrder(manifest, css);
    var idx := AdmittedIndices(manifest, css);
    if exists i :: 0 <= i < |manifest| && FileFilter(manifest[i].text, css) &&
        WrapEntry(manifest[i], base, assets, join).Err? {
      var i :| 0 <= i < |manifest| && FileFilter(manifest[i].text, css) &&
        WrapEntry(manifest[i], base, assets, join).Err?;
      var k :| 0 <= k < |idx| && idx[k] == i;
      assert !WrapEntry(selected[k], base, assets, join).Ok?;
    }
    if WrapAll(selected, base, assets, join).Err? {
      var k :| 0 <= k < |selected| && WrapEntry(selected[k], base, assets, join).Err?;
      assert FileFilter(manifest[idx[k]].text, css);
    }
  }

  /** The handler throws exactly when the HTML is admitted and some admitted CSS entry cannot be wrapped. */
  lemma ThrowsExactlyWhenWrappingFails(config: Config, outputName: string, html: string,
      manifest: seq<ManifestEntry>, assets: Assets, join: (string, string) -> string, critical: Extractor)
    ensures React(config, outputName, html, manifest, assets, join, critical).Threw? <==>
      FileFilter(outputName, config.html) &&
      exists i :: 0 <= i < |manifest| && FileFilter(manifest[i].text, config.css) &&
        WrapEntry(manifest[i], BasePath(config.criticalOptions), assets, join).Err?
  {
    WrapSelectionFailsExactly(manifest, config.css, BasePath(config.criticalOptions), assets, join);
  }

  /**
   * The extraction fails exactly when the gate passes, every admitted entry
   * wraps, and the extractor rejects the request built from them.
   */
  lemma FailedExactlyWhenRejected(config: Config, outputName: string, html: string,
      manifest: seq<ManifestEntry>, assets: Assets, join: (string, string) -> string, critical: Extractor)
    ensures React(config, outputName, html, manifest, assets, join, critical).Failed? <==>
      FileFilter(outputName, config.html) &&
      WrapAll(SelectCss(manifest, config.css), BasePath(config.criticalOptions), assets, join).Ok? &&
      critical(SendToCritical(config.criticalOptions, html,
        WrapAll(SelectCss(manifest, config.css), BasePath(config.criticalOptions), assets, join).value)).Rejected?
  {
  }

  /**
   * A result is rendered exactly when the gate passes, every admitted entry
   * wraps, and the extractor resolves the request built from them.
   */
  lemma RenderedExactlyWhenResolved(config: Config, outputName: string, html: string,
      manifest: seq<ManifestEntry>, assets: Assets, join: (string, string) -> string, critical: Extractor)
    ensures React(config, outputName, html, manifest, assets, join, critical).Rendered? <==>
      FileFilter(outputName, config.html) &&
      WrapAll(SelectCss(manifest, config.css), BasePath(config.criticalOptions), assets, join).Ok? &&
      critical(SendToCritical(config.criticalOptions, html,
        WrapAll(SelectCss(manifest, config.css), BasePath(config.criticalOptions), assets, join).value)).Resolved?
  {
  }

  /** A rendered result is the extractor's string, or its buffer read back byte for byte. */
  lemma RenderedHtmlIsNormalizedOutput(config: Config, outputName: string, html: string,
      manifest: seq<ManifestEntry>, assets: Assets, join: (string, string) -> string, critical: Extractor)
    requires React(config, outputName, html, manifest, assets, join, critical).Rendered?
    ensures var r := React(config, outputName, html, manifest, assets, join, critical);
      critical(r.request).Resolved? &&
      (critical(r.request).output.Html? ==> r.html == critical(r.request).output.html) &&
      (critical(r.request).output.Buffer? ==>
        IsByteString(r.html) && CharCodes(r.html) == critical(r.request).output.bytes)
  {
  }

  // ---------------------------------------------------------------------------
  // Examples

  /** With the default options, `report.txt` is passed through and the extractor is never asked. */
  lemma ReportTxtPassesThrough(html: string, manifest: seq<ManifestEntry>, assets: Assets,
      join: (string, string) -> string, critical: Extractor)
    ensures React(SetupOptions(UserOptions(None, None, None)), "report.txt", html, manifest, assets, join, critical)
            == PassThrough
  {
    DefaultFilters();
  }

  /**
   * The default options carry no `base`, so without a user `criticalOptions.base`
   * an admitted CSS asset that is not already a Vinyl file makes the handler throw.
   */
  lemma DefaultOptionsHaveNoBase(css: Option<FilterOptions>)
    ensures BasePath(SetupOptions(UserOptions(None, css, None)).criticalOptions).None?
    ensures forall entry: ManifestEntry, assets: Assets, join: (string, string) -> string ::
      entry.vinyl.None? && entry.text in assets ==>
        WrapEntry(entry, BasePath(SetupOptions(UserOptions(None, css, None)).criticalOptions), assets, join)
          == Err(BaseNotAString)
  {
  }

  /** With the default CSS filter, `a.css, b.js, b.css` selects `a.css, b.css` in that order. */
  lemma DefaultCssSelection()
    ensures SelectCss([ManifestEntry("a.css", None), ManifestEntry("b.js", None), ManifestEntry("b.css", None)],
                      SetupOptions(UserOptions(None, None, None)).css)
         == [ManifestEntry("a.css", None), ManifestEntry("b.css", None)]
  {
    var css := SetupOptions(UserOptions(None, None, None)).css;
    DefaultFilters();
    assert "b.css"[1..] == ".css";
    assert CastArray(css.includes) == [CssPattern()];
    assert FileFilter("b.css", css);
    var m := [ManifestEntry("a.css", None), ManifestEntry("b.js", None), ManifestEntry("b.css", None)];
    assert m[1..][1..][1..] == [];
  }

  // ---------------------------------------------------------------------------
  // The payload, the host's records, and the plugin object

  /** The `htmlPluginData` payload; the handler only ever writes `html`. */
  class HtmlPluginData {
    var outputName: string
    var html: string
    var assetJson: seq<ManifestEntry>

    constructor (outputName: string, html: string, assetJson: seq<ManifestEntry>)
      ensures this.outputName == outputName && this.html == html && this.assetJson == assetJson
    {
      this.outputName := outputName;
      this.html := html;
      this.assetJson := assetJson;
    }
  }

  /** One invocation of the host's callback: its error argument, the payload, and the payload's HTML then. */
  datatype CallbackCall = CallbackCall(err: Option<ErrorValue>, data: HtmlPluginData, html: string)

  /** What the host observes: callback invocations, extractor calls and logged errors, in order. */
  class HookLog {
    var callbacks: seq<CallbackCall>
    var requests: seq<CriticalOptions>
    var logged: seq<ErrorValue>

    constructor ()
      ensures callbacks == [] && requests == [] && logged == []
    {
      callbacks, requests, logged := [], [], [];
    }
  }

  /** `CriticalCSSWebpackPlugin`: options resolved once, then one handler run per HTML output. */
  class CriticalCssWebpackPlugin {
    const options: Config

    constructor (user: UserOptions)
      ensures options == SetupOptions(user)
    {
      options := SetupOptions(user);
    }

    /**
     * The `html-webpack-plugin-after-html-processing` handler. The callback is
     * invoked once with `(null, data)` on pass-through and after a result is
     * written, and not at all when the handler throws or the extractor rejects;
     * `html` changes only when a result is written.
     */
    method AfterHtmlProcessing(data: HtmlPluginData, assets: Assets, join: (string, string) -> string,
                               critical: Extractor, log: HookLog) returns (reaction: Reaction)
      modifies data`html, log
      ensures reaction == React(options, data.outputName, old(data.html), data.assetJson, assets, join, critical)
      ensures data.html == if reaction.Rendered? then reaction.html else old(data.html)
      ensures log.callbacks == old(log.callbacks) +
        if reaction.PassThrough? || reaction.Rendered? then [CallbackCall(None, data, data.html)] else []
      ensures log.requests == old(log.requests) +
        if reaction.Rendered? || reaction.Failed? then [reaction.request] else []
      ensures log.logged == old(log.logged) + if reaction.Failed? then [reaction.error] else []
    {
      var opts := options;
      var filename := data.outputName;
      if !FileFilter(filename, opts.html) {
        log.callbacks := log.callbacks + [CallbackCall(None, data, data.html)];
        return PassThrough;
      }
      var cssFiles := WrapAll(SelectCss(data.assetJson, opts.css), BasePath(opts.criticalOptions), assets, join);
      if cssFiles.Err? {
        return Threw(cssFiles.error);
      }
      var source := data.html;
      var request := SendToCritical(opts.criticalOptions, source, cssFiles.value);
      log.requests := log.requests + [request];
      match critical(request)
      case Rejected(err) =>
        log.logged := log.logged + [err];
        reaction := Failed(request, err);
      case Resolved(output) =>
        data.html := NormalizeOutput(output);
        log.callbacks := log.callbacks + [CallbackCall(None, data, data.html)];
        reaction := Rendered(request, data.html);
    }
  }
}
