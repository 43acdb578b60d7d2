/**
 * The deep-link rewrite run before the application mounts: a static host
 * redirects an unknown path to `/?p=<path>&q=<query>`, and the page puts the
 * original address back into the history without reloading.
 */
module DeepLink {
  import opened Wrappers

  /** What the rewrite does: nothing, a history replacement with a new address, or a throw. */
  datatype Outcome = NoReplace | Replace(target: string) | Throws

  /**
   * `applyDeepLink`. `p` and `q` are the values of the `p` and `q` query
   * parameters (None when absent), `hash` is the location's fragment, and
   * `decode` is `decodeURIComponent`, which gives None where it would throw.
   * The replacement happens only for a non-empty `p`; the address is `p`,
   * then `"?"` and the decoded `q` when `q` is non-empty, then the fragment.
   */
  function ApplyDeepLink(p: Option<string>, q: Option<string>, hash: Option<string>,
                         decode: string -> Option<string>): (o: Outcome)
    ensures o.NoReplace? <==> p.None? || p.value == ""
    ensures o.Throws? <==> p.Some? && p.value != "" && q.Some? && q.value != "" && decode(q.value).None?
    ensures o.Replace? ==> |p.value| <= |o.target| && o.target[..|p.value|] == p.value
    ensures o.Replace? ==> |hash.GetOr("")| <= |o.target|
                           && o.target[|o.target| - |hash.GetOr("")|..] == hash.GetOr("")
  {
    if p.None? || p.value == "" then NoReplace
    else
      var h := hash.GetOr("");
      if q.Some? && q.value != "" then
        match decode(q.value)
        case None => Throws
        case Some(d) => Replace(p.value + "?" + d + h)
      else Replace(p.value + h)
  }

  /** With a non-empty `q` that decodes to `d`, the address is `p`, `"?"`, `d`, then the fragment. */
  lemma QueryBeforeHash(p: string, q: string, hash: Option<string>, decode: string -> Option<string>, d: string)
    requires p != "" && q != "" && decode(q) == Some(d)
    ensures var o := ApplyDeepLink(Some(p), Some(q), hash, decode);
      && o.Replace? && o.target == p + "?" + d + hash.GetOr("")
      && o.target[|p|] == '?'
      && o.target[|p| + 1..|p| + 1 + |d|] == d
      && o.target[|p| + 1 + |d|..] == hash.GetOr("")
  {
    var t := p + "?" + d + hash.GetOr("");
    assert t[|p|] == '?';
    assert t[|p| + 1..|p| + 1 + |d|] == d;
    assert t[|p| + 1 + |d|..] == hash.GetOr("");
  }

  /** Without a non-empty `q`, the address is `p` followed by the fragment. */
  lemma NoQuery(p: string, q: Option<string>, hash: Option<string>, decode: string -> Option<string>)
    requires p != "" && (q.None? || q.value == "")
    ensures ApplyDeepLink(Some(p), q, hash, decode) == Replace(p + hash.GetOr(""))
  {
  }

  /** With neither a query nor a fragment, the address is exactly `p`. */
  lemma PathOnly(p: string, decode: string -> Option<string>)
    requires p != ""
    ensures ApplyDeepLink(Some(p), None, None, decode) == Replace(p)
    ensures ApplyDeepLink(Some(p), Some(""), Some(""), decode) == Replace(p)
  {
    assert p + "" == p;
  }

  /** A missing fragment and an empty one give the same outcome. */
  lemma HashDefaultsToEmpty(p: Option<string>, q: Option<string>, decode: string -> Option<string>)
    ensures ApplyDeepLink(p, q, None, decode) == ApplyDeepLink(p, q, Some(""), decode)
  {
  }

  /**
   * A `p` parameter `/photos`, a `q` parameter whose value is `tab%3Dstreet`
   * (the address carries `q=tab%253Dstreet`) and fragment `#top` restore
   * `/photos?tab=street#top`.
   */
  lemma PhotosDeepLink(decode: string -> Option<string>)
    requires decode("tab%3Dstreet") == Some("tab=street")
    ensures ApplyDeepLink(Some("/photos"), Some("tab%3Dstreet"), Some("#top"), decode)
            == Replace("/photos?tab=street#top")
  {
    assert "/photos" + "?" + "tab=street" + "#top" == "/photos?tab=street#top";
  }
}
