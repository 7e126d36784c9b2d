/**
 * `setupOptions`: the user's options object filled in with the built-in
 * defaults by lodash `defaultsDeep` (a user value wins; a missing key takes
 * the default; two objects are merged key by key).
 */
module Options {

  import opened Wrappers
  import opened Filters
  import opened Vinyl

  /** A value in the extractor's option bag (`criticalOptions`). */
  datatype Value =
    | Bool(b: bool)
    | Number(n: int)
    | Text(s: string)
    | Files(files: seq<VinylFile>)
    | Array(items: seq<Value>)
    | Object(fields: map<string, Value>)

  /** The option bag forwarded to the extractor. */
  type CriticalOptions = map<string, Value>

  /** A user-supplied `CustomFilter`; `None` is a key left out. */
  datatype FilterOptions = FilterOptions(includes: Option<PatternList>, excludes: Option<Exclude>)

  /** The user-supplied `ConfigOptions` (`None` is a key left out; all `None` is `options === undefined`). */
  datatype UserOptions = UserOptions(
    html: Option<FilterOptions>,
    css: Option<FilterOptions>,
    criticalOptions: Option<CriticalOptions>)

  /** The options after defaults are applied. */
  datatype Config = Config(html: Filter, css: Filter, criticalOptions: CriticalOptions)

  /** `/\.html?$/` */
  function HtmlPattern(): Pattern {
    s => EndsWith(s, ".html") || EndsWith(s, ".htm")
  }

  /** `/\.css$/` */
  function CssPattern(): Pattern {
    s => EndsWith(s, ".css")
  }

  /** The built-in `defaultOptions`. */
  function DefaultOptions(): (d: Config)
    ensures CastArray(d.html.includes) == [HtmlPattern()] && d.html.excludes.Flag?
    ensures CastArray(d.css.includes) == [CssPattern()] && d.css.excludes.Flag?
    ensures d.criticalOptions.Keys == {"inline", "minify"} && "base" !in d.criticalOptions
    ensures d.criticalOptions["inline"] == Bool(true) && d.criticalOptions["minify"] == Bool(false)
  {
    Config(
      html := Filter(Single(HtmlPattern()), Flag(false)),
      css := Filter(Single(CssPattern()), Flag(false)),
      criticalOptions := map["inline" := Bool(true), "minify" := Bool(false)])
  }

  /** The default fills a key only when the user left it out. */
  function OrDefault<T>(user: Option<T>, default: T): (v: T)
    ensures user.Some? ==> v == user.value
    ensures user.None? ==> v == default
  {
    match user
    case Some(u) => u
    case None => default
  }

  /** `defaultsDeep` on one value: two objects merge key by key, otherwise the user's value stays. */
  function MergeValue(user: Value, default: Value): (v: Value)
    ensures !(user.Object? && default.Object?) ==> v == user
    ensures user.Object? && default.Object? ==>
      v.Object? && v.fields.Keys == user.fields.Keys + default.fields.Keys
  {
    if user.Object? && default.Object? then
      Object(map k | k in user.fields.Keys + default.fields.Keys ::
        if k in user.fields && k in default.fields then MergeValue(user.fields[k], default.fields[k])
        else if k in user.fields then user.fields[k]
        else default.fields[k])
    else user
  }

  /** `defaultsDeep` on two objects. */
  function DefaultsDeep(user: map<string, Value>, defaults: map<string, Value>): (merged: map<string, Value>)
    ensures merged.Keys == user.Keys + defaults.Keys
    ensures forall k :: k in defaults && k !in user ==> merged[k] == defaults[k]
    ensures forall k :: k in user && k !in defaults ==> merged[k] == user[k]
    ensures forall k :: k in user && k in defaults && !(user[k].Object? && defaults[k].Object?) ==>
      merged[k] == user[k]
  {
    MergeValue(Object(user), Object(defaults)).fields
  }

  /** The value found by following `path` through nested objects, if any. */
  ghost function Lookup(v: Value, path: seq<string>): Option<Value> {
    if path == [] then Some(v)
    else if v.Object? && path[0] in v.fields then Lookup(v.fields[path[0]], path[1..])
    else None
  }

  /** Along `path`, the user's value runs out before any non-object user value stops the way. */
  ghost predicate MissingForUser(user: Value, path: seq<string>) {
    path != [] && user.Object? &&
    (path[0] !in user.fields || MissingForUser(user.fields[path[0]], path[1..]))
  }

  /** Every non-object value the user supplied, at any depth, survives the merge. */
  lemma {:induction false} UserLeafWins(user: Value, default: Value, path: seq<string>)
    requires Lookup(user, path).Some? && !Lookup(user, path).value.Object?
    ensures Lookup(MergeValue(user, default), path) == Lookup(user, path)
  {
    if path != [] && user.Object? && default.Object? {
      var k := path[0];
      if k in default.fields {
        UserLeafWins(user.fields[k], default.fields[k], path[1..]);
      }
    }
  }

  /** Wherever the user supplied nothing, the default is taken, at any depth. */
  lemma {:induction false} DefaultFillsMissing(user: Value, default: Value, path: seq<string>)
    requires MissingForUser(user, path) && Lookup(default, path).Some?
    ensures Lookup(MergeValue(user, default), path) == Lookup(default, path)
  {
    var k := path[0];
    var merged := MergeValue(user, default);
    assert default.Object? && k in default.fields;
    if k in user.fields {
      DefaultFillsMissing(user.fields[k], default.fields[k], path[1..]);
    } else {
      assert merged.fields[k] == default.fields[k];
    }
  }

  /** `setupOptions(options)`. */
  function SetupOptions(user: UserOptions): (c: Config)
    // the HTML filter: supplied keys kept, missing keys take /\.html?$/ and `false`
    ensures user.html.Some? && user.html.value.includes.Some? ==> c.html.includes == user.html.value.includes.value
    ensures user.html.Some? && user.html.value.excludes.Some? ==> c.html.excludes == user.html.value.excludes.value
    ensures (user.html.None? || user.html.value.includes.None?) ==> c.html.includes == Single(HtmlPattern())
    ensures (user.html.None? || user.html.value.excludes.None?) ==> c.html.excludes == Flag(false)
    // the CSS filter: supplied keys kept, missing keys take /\.css$/ and `false`
    ensures user.css.Some? && user.css.value.includes.Some? ==> c.css.includes == user.css.value.includes.value
    ensures user.css.Some? && user.css.value.excludes.Some? ==> c.css.excludes == user.css.value.excludes.value
    ensures (user.css.None? || user.css.value.includes.None?) ==> c.css.includes == Single(CssPattern())
    ensures (user.css.None? || user.css.value.excludes.None?) ==> c.css.excludes == Flag(false)
    // the extractor's options: every user key kept, `inline: true` and `minify: false` when missing
    ensures user.criticalOptions.Some? ==>
      c.criticalOptions.Keys == user.criticalOptions.value.Keys + {"inline", "minify"} &&
      forall k :: k in user.criticalOptions.value ==> c.criticalOptions[k] == user.criticalOptions.value[k]
    ensures (user.criticalOptions.None? || "inline" !in user.criticalOptions.value) ==>
      "inline" in c.criticalOptions && c.criticalOptions["inline"] == Bool(true)
    ensures (user.criticalOptions.None? || "minify" !in user.criticalOptions.value) ==>
      "minify" in c.criticalOptions && c.criticalOptions["minify"] == Bool(false)
    ensures user.criticalOptions.None? ==>
      c.criticalOptions == map["inline" := Bool(true), "minify" := Bool(false)]
  {
    var defaults := DefaultOptions();
    var html := OrDefault(user.html, FilterOptions(None, None));
    var css := OrDefault(user.css, FilterOptions(None, None));
    Config(
      html := Filter(OrDefault(html.includes, defaults.html.includes), OrDefault(html.excludes, defaults.html.excludes)),
      css := Filter(OrDefault(css.includes, defaults.css.includes), OrDefault(css.excludes, defaults.css.excludes)),
      criticalOptions := DefaultsDeep(OrDefault(user.criticalOptions, map[]), defaults.criticalOptions))
  }

  /** `/\.html?$/` matches `index.html` and `page.htm` but not `report.txt`. */
  lemma HtmlPatternExamples()
    ensures HtmlPattern()("index.html") && HtmlPattern()("page.htm") && !HtmlPattern()("report.txt")
  {
    assert "index.html"[5..] == ".html";
    assert "page.htm"[4..] == ".htm";
    assert "report.txt"[5..][1] != ".html"[1];
    assert "report.txt"[6..][1] != ".htm"[1];
  }

  /** `/\.css$/` matches `a.css` but not `b.js`. */
  lemma CssPatternExamples()
    ensures CssPattern()("a.css") && !CssPattern()("b.js")
  {
    assert "a.css"[1..] == ".css";
  }

  /** With no options at all, an `.html`/`.htm` output is processed, other outputs pass, `.css` assets qualify. */
  lemma DefaultFilters()
    ensures FileFilter("index.html", SetupOptions(UserOptions(None, None, None)).html)
    ensures FileFilter("page.htm", SetupOptions(UserOptions(None, None, None)).html)
    ensures !FileFilter("report.txt", SetupOptions(UserOptions(None, None, None)).html)
    ensures FileFilter("a.css", SetupOptions(UserOptions(None, None, None)).css)
    ensures !FileFilter("b.js", SetupOptions(UserOptions(None, None, None)).css)
  {
    var c := SetupOptions(UserOptions(None, None, None));
    HtmlPatternExamples();
    CssPatternExamples();
    assert CastArray(c.html.includes) == [HtmlPattern()];
    assert CastArray(c.css.includes) == [CssPattern()];
  }

  /** Overriding one filter's include leaves the other filter at its default. */
  lemma UserIncludeOverridesOnlyItsKey(p: Pattern)
    ensures SetupOptions(UserOptions(None, Some(FilterOptions(Some(Single(p)), None)), None)).css ==
            Filter(Single(p), Flag(false))
    ensures SetupOptions(UserOptions(None, Some(FilterOptions(Some(Single(p)), None)), None)).html ==
            Filter(Single(HtmlPattern()), Flag(false))
  {
  }
}
