/**
 * The two URL helpers that every entry point repeats: the scheme
 * normalisation done on the command-line URL, and the file-name stem
 * derived from a URL when screenshots are kept.
 */
module Urls {
  import opened Text

  /** `url.startswith(("http://", "https://"))` */
  predicate HasScheme(url: string)
  {
    StartsWith(url, "http://") || StartsWith(url, "https://")
  }

  /** Prepend `https://` unless the URL already carries one of the two schemes. */
  function NormalizeUrl(url: string): (r: string)
    ensures HasScheme(r)
    ensures HasScheme(url) ==> r == url
    ensures !HasScheme(url) ==> r == "https://" + url
  {
    if HasScheme(url) then url
    else
      assert ("https://" + url)[..|"https://"|] == "https://";
      "https://" + url
  }

  /** Normalising twice is normalising once. */
  lemma NormalizeIdempotent(url: string)
    ensures NormalizeUrl(NormalizeUrl(url)) == NormalizeUrl(url)
  {
  }

  /** The file-name stem used for kept screenshots: schemes dropped, `/` and `?` turned into `_`, cut to 50 characters. */
  function SafeUrl(url: string): string
  {
    var noHttps := ReplaceAll(url, "https://", "");
    var noScheme := ReplaceAll(noHttps, "http://", "");
    var noSlash := ReplaceAll(noScheme, "/", "_");
    var noQuery := ReplaceAll(noSlash, "?", "_");
    Take(noQuery, 50)
  }

  /** The stem never holds a `/` or a `?` and is at most 50 characters long. */
  lemma {:induction false} SafeUrlIsSafe(url: string)
    ensures '/' !in SafeUrl(url) && '?' !in SafeUrl(url)
    ensures |SafeUrl(url)| <= 50
  {
    var noHttps := ReplaceAll(url, "https://", "");
    var noScheme := ReplaceAll(noHttps, "http://", "");
    var noSlash := ReplaceAll(noScheme, "/", "_");
    var noQuery := ReplaceAll(noSlash, "?", "_");
    ReplaceCharRemovesIt(noScheme, '/', "_");
    ReplaceCharRemovesIt(noSlash, '?', "_");
    ReplaceKeepsAlphabet(noSlash, "?", "_");
    assert '/' !in noQuery;
    var r := Take(noQuery, 50);
    assert r == noQuery[..|r|];
    forall c | c in r ensures c in noQuery {
      var i :| 0 <= i < |r| && r[i] == c;
      assert noQuery[i] == c;
    }
  }

  /** A short URL with no scheme text, no `/` and no `?` is its own stem. */
  lemma {:induction false} SafeUrlKeepsPlainNames(url: string)
    requires !Contains(url, "https://") && !Contains(url, "http://")
    requires '/' !in url && '?' !in url
    requires |url| <= 50
    ensures SafeUrl(url) == url
  {
    ReplaceAbsent(url, "https://", "");
    ReplaceAbsent(url, "http://", "");
    NoCharNoContains(url, '/');
    NoCharNoContains(url, '?');
    ReplaceAbsent(url, "/", "_");
    ReplaceAbsent(url, "?", "_");
  }

  /** A character that does not occur is not found as a one-character substring. */
  lemma {:induction false} NoCharNoContains(s: string, c: char)
    requires c !in s
    ensures !Contains(s, [c])
    decreases |s|
  {
    if s != [] {
      assert s[..1] == [s[0]];
      NoCharNoContains(s[1..], c);
    }
  }
}
