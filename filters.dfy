/**
 * The include/exclude file filter (`FileFilter`). A RegExp is modelled by
 * the predicate `regex.test` computes, so a pattern is a predicate on strings.
 */
module Filters {

  import opened Wrappers

  /** A pattern: `p(s)` holds when `regex.test(s)` is true. */
  type Pattern = string -> bool

  /** `RegExp | RegExp[]` */
  datatype PatternList = Single(pattern: Pattern) | Several(patterns: seq<Pattern>)

  /** `RegExp | RegExp[] | boolean` */
  datatype Exclude = Flag(enabled: bool) | Patterns(list: PatternList)

  /** The `CustomFilter` record. */
  datatype Filter = Filter(includes: PatternList, excludes: Exclude)

  /** `s` ends with `suffix`: what an expression anchored by `$` (without the `m` flag) asks of its end. */
  predicate EndsWith(s: string, suffix: string) {
    |suffix| <= |s| && s[|s| - |suffix|..] == suffix
  }

  /** lodash `castArray`: a single pattern becomes a one-element list, a list stays as it is. */
  function CastArray(l: PatternList): (ps: seq<Pattern>)
    ensures l.Single? ==> |ps| == 1 && ps[0] == l.pattern
    ensures l.Several? ==> ps == l.patterns
  {
    match l
    case Single(p) => [p]
    case Several(ps) => ps
  }

  /** Reference meaning of "some pattern of `ps` matches `path`". */
  ghost predicate SomeMatch(ps: seq<Pattern>, path: string) {
    exists i :: 0 <= i < |ps| && ps[i](path)
  }

  /** `ps.some(regex => regex.test(path))`, scanning the patterns in order. */
  function AnyTest(ps: seq<Pattern>, path: string): (r: bool)
    ensures r <==> SomeMatch(ps, path)
  {
    if ps == [] then false
    else if ps[0](path) then true
    else
      var rest := AnyTest(ps[1..], path);
      assert SomeMatch(ps[1..], path) ==> SomeMatch(ps, path) by {
        if SomeMatch(ps[1..], path) {
          var i :| 0 <= i < |ps[1..]| && ps[1..][i](path);
          assert ps[i + 1](path);
        }
      }
      rest
  }

  /**
   * `FileFilter(filepath, filter)`: admitted exactly when some include pattern
   * matches and, unless `exclude` is a boolean, no exclude pattern matches.
   */
  function FileFilter(path: string, filter: Filter): (admitted: bool)
    ensures admitted <==>
      SomeMatch(CastArray(filter.includes), path) &&
      (filter.excludes.Flag? || !SomeMatch(CastArray(filter.excludes.list), path))
  {
    var includes := CastArray(filter.includes);
    // a boolean `exclude` is replaced by `false`, which disables the second test
    var excludes: Option<seq<Pattern>> :=
      if filter.excludes.Flag? then None else Some(CastArray(filter.excludes.list));
    if AnyTest(includes, path) then
      if excludes.None? then true
      else if !AnyTest(excludes.value, path) then true
      else false
    else false
  }

  /** `exclude: true` and `exclude: false` both turn exclusion off. */
  lemma BooleanExcludeDisablesExclusion(path: string, includes: PatternList, b: bool)
    ensures FileFilter(path, Filter(includes, Flag(b))) <==> SomeMatch(CastArray(includes), path)
    ensures FileFilter(path, Filter(includes, Flag(true))) == FileFilter(path, Filter(includes, Flag(false)))
  {
  }

  /** A single pattern behaves as the one-element list holding it, on either side. */
  lemma SingleIsOneElementList(path: string, p: Pattern, q: Pattern, other: PatternList, ex: Exclude)
    ensures FileFilter(path, Filter(Single(p), ex)) == FileFilter(path, Filter(Several([p]), ex))
    ensures FileFilter(path, Filter(other, Patterns(Single(q)))) ==
            FileFilter(path, Filter(other, Patterns(Several([q]))))
  {
  }

  /** An empty exclude list excludes nothing: it behaves as `exclude: false`. */
  lemma EmptyExcludeListExcludesNothing(path: string, includes: PatternList)
    ensures FileFilter(path, Filter(includes, Patterns(Several([])))) == FileFilter(path, Filter(includes, Flag(false)))
  {
  }

  /** An empty include list admits nothing, whatever `exclude` is. */
  lemma EmptyIncludeAdmitsNothing(path: string, ex: Exclude)
    ensures !FileFilter(path, Filter(Several([]), ex))
  {
  }
}
