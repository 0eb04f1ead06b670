/** The two YouTube video-id extractors: the one that builds the canonical
    watch URL and the one the transcript lookup uses. Both work on a URL
    already split into its network location, path and parsed query. */
module VideoIds {
  import opened Wrappers
  import opened Strings

  /** A URL after parsing: the query maps each parameter name to its values
      in order. */
  datatype ParsedUrl = ParsedUrl(netloc: string, path: string, query: map<string, seq<string>>)

  const WatchPrefix := "https://www.youtube.com/watch?v="
  const ShortHost := "youtu.be"

  /** Query maps as the standard query parser produces them by default: it
      drops blank values, so every listed value is non-empty. */
  predicate FromParseQs(u: ParsedUrl) {
    forall name :: name in u.query ==> forall k :: 0 <= k < |u.query[name]| ==> u.query[name][k] != ""
  }

  /** The first "v" value, when the query lists one. */
  function FirstV(u: ParsedUrl): (r: Option<string>)
    ensures r.Some? <==> "v" in u.query && |u.query["v"]| > 0
    ensures r.Some? ==> r.value == u.query["v"][0]
  {
    if "v" in u.query && |u.query["v"]| > 0 then Some(u.query["v"][0]) else None
  }

  /** The last '/'-separated segment of the path with its slashes stripped. */
  function LastSegment(path: string): (r: string)
    ensures '/' !in r
  {
    var parts := Split(Strip(path, '/'), '/');
    parts[|parts| - 1]
  }

  /** The id of the transcript lookup: the first "v" value, else the
      stripped path of a short link, else the last path segment. */
  function VideoId(u: ParsedUrl): string {
    var v := FirstV(u);
    if v.Some? then v.value
    else if u.netloc == ShortHost then Strip(u.path, '/')
    else LastSegment(u.path)
  }

  /** A candidate id counts as missing when it is absent or empty. */
  predicate Missing(vid: Option<string>) {
    vid.None? || vid.value == ""
  }

  /** The id of the canonical URL, found in three stages, each consulted only
      while the id is still missing. */
  function CleanId(u: ParsedUrl): string {
    var v0: Option<string> := FirstV(u);
    var v1 := if Missing(v0) && u.netloc == ShortHost then Some(Strip(u.path, '/')) else v0;
    var v2 := if Missing(v1) then Some(LastSegment(u.path)) else v1;
    v2.value
  }

  /** The canonical watch URL, carrying only the id. */
  function CleanUrl(u: ParsedUrl): string {
    WatchPrefix + CleanId(u)
  }

  /** The case analysis of the transcript lookup's id. */
  lemma VideoIdCases(u: ParsedUrl)
    ensures "v" in u.query && |u.query["v"]| > 0 ==> VideoId(u) == u.query["v"][0]
    ensures !("v" in u.query && |u.query["v"]| > 0) && u.netloc == ShortHost ==>
      VideoId(u) == Strip(u.path, '/')
    ensures !("v" in u.query && |u.query["v"]| > 0) && u.netloc != ShortHost ==>
      '/' !in VideoId(u) && VideoId(u) == LastSegment(u.path)
  {
  }

  /** When the query parser produced the query, the canonical URL carries
      exactly the id the transcript lookup extracts. */
  lemma ExtractorsAgree(u: ParsedUrl)
    requires FromParseQs(u)
    ensures CleanUrl(u) == WatchPrefix + VideoId(u)
  {
    var v := FirstV(u);
    if v.Some? {
      assert v.value != "";
    } else if u.netloc == ShortHost && Strip(u.path, '/') == "" {
      assert Split("", '/') == [""];
    }
  }

  /** Without that, they can differ: a blank "v" value on a short link. */
  lemma ExtractorsDifferOnBlankV()
    ensures var u := ParsedUrl(ShortHost, "/abc", map["v" := [""]]);
      !FromParseQs(u) && VideoId(u) == "" && CleanId(u) == "abc"
  {
    var u := ParsedUrl(ShortHost, "/abc", map["v" := [""]]);
    assert u.query["v"][0] == "";
    var s := Strip("/abc", '/');
    assert s == "abc" by {
      var lo: nat :| CutAround("/abc", '/', lo, s);
    }
  }
}
