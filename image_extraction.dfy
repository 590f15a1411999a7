/**
 * `extractFirstImage` and `resolveUrl`: find the page's picture, preferring
 * the `og:image` meta tag over the first `<img>`, and make its address
 * absolute against the page address.
 *
 * Both patterns have the shape `<open[^>]*need[^>]*attr"([^"]*)"[^>]*>`
 * (for `<img` the `need` literal is empty). A non-global `match` returns the
 * leftmost start at which the pattern matches; among the matches starting
 * there, the greedy `[^>]*` runs make the capture start at the LAST
 * attribute occurrence that still leaves a match.
 */
module ImageExtraction {
  import opened Wrappers
  import opened Text

  // ---------------------------------------------------------------------
  // Addresses

  /** The parts of a parsed `new URL(base)` the resolver reads. */
  datatype UrlParts = UrlParts(protocol: string, host: string, pathname: string)

  predicate EndsWith(s: string, suffix: string) {
    |suffix| <= |s| && s[|s| - |suffix|..] == suffix
  }

  /** `pathname.replace(/[^/]*$/, '')`: the path up to and including its last '/'. */
  function DirOf(path: string): (r: string)
    ensures StartsWith(path, r)
    ensures r == [] || r[|r| - 1] == '/'
    ensures forall i :: |r| <= i < |path| ==> path[i] != '/'
  {
    if path == [] || path[|path| - 1] == '/' then path else DirOf(path[..|path| - 1])
  }

  /**
   * `resolveUrl(imageUrl, baseUrl)`; `base` is None when `new URL(baseUrl)`
   * throws, in which case the image address is returned unchanged.
   */
  function ResolveUrl(imageUrl: string, base: Option<UrlParts>): (r: string)
    ensures StartsWith(imageUrl, "http") ==> r == imageUrl
    ensures !StartsWith(imageUrl, "http") && StartsWith(imageUrl, "//") ==> r == "https:" + imageUrl
    ensures base.None? && !StartsWith(imageUrl, "//") ==> r == imageUrl
    ensures !StartsWith(imageUrl, "http") && !StartsWith(imageUrl, "//") && base.Some? ==>
      StartsWith(r, base.value.protocol + "//" + base.value.host)
  {
    if StartsWith(imageUrl, "http") then imageUrl
    else if StartsWith(imageUrl, "//") then "https:" + imageUrl
    else if base.None? then imageUrl
    else
      var b := base.value;
      var prefix := b.protocol + "//" + b.host;
      var r := if StartsWith(imageUrl, "/") then prefix + imageUrl
               else prefix + DirOf(b.pathname) + imageUrl;
      assert r[..|prefix|] == prefix;
      r
  }

  /**
   * An address rooted at '/' is appended to `protocol//host`; any other
   * relative address is appended to the directory of the base path.
   */
  lemma ResolveRelative(imageUrl: string, b: UrlParts)
    requires !StartsWith(imageUrl, "http") && !StartsWith(imageUrl, "//")
    ensures StartsWith(imageUrl, "/") ==>
      ResolveUrl(imageUrl, Some(b)) == b.protocol + "//" + b.host + imageUrl
    ensures !StartsWith(imageUrl, "/") ==>
      ResolveUrl(imageUrl, Some(b)) == b.protocol + "//" + b.host + DirOf(b.pathname) + imageUrl
  {
  }

  /** Whatever the case, the resolved address ends with the address that was found. */
  lemma ResolvedEndsWithInput(imageUrl: string, base: Option<UrlParts>)
    ensures EndsWith(ResolveUrl(imageUrl, base), imageUrl)
  {
    var r := ResolveUrl(imageUrl, base);
    if StartsWith(imageUrl, "http") || base.None? {
    } else if StartsWith(imageUrl, "//") {
      assert r[|r| - |imageUrl|..] == imageUrl;
    } else {
      var b := base.value;
      var head := if StartsWith(imageUrl, "/") then b.protocol + "//" + b.host
                  else b.protocol + "//" + b.host + DirOf(b.pathname);
      assert r == head + imageUrl;
      assert r[|r| - |imageUrl|..] == imageUrl;
    }
  }

  /**
   * With an http(s) base, a resolved address is absolute, and resolving it
   * a second time leaves it as it is.
   */
  lemma ResolveIsIdempotent(imageUrl: string, base: Option<UrlParts>)
    requires base.Some? && StartsWith(base.value.protocol, "http")
    ensures StartsWith(ResolveUrl(imageUrl, base), "http")
    ensures ResolveUrl(ResolveUrl(imageUrl, base), base) == ResolveUrl(imageUrl, base)
  {
    var r := ResolveUrl(imageUrl, base);
    if StartsWith(imageUrl, "http") {
    } else if StartsWith(imageUrl, "//") {
      assert r[..4] == "http";
    } else {
      var p := base.value.protocol + "//" + base.value.host;
      assert r[..|p|] == p;
      assert p[..4] == base.value.protocol[..4];
      assert r[..4] == p[..4];
    }
  }

  // ---------------------------------------------------------------------
  // The tag patterns

  /** A pattern `<open[^>]*need[^>]*attr"([^"]*)"[^>]*>` with `attr` ending in the opening quote. */
  datatype TagPattern = TagPattern(open: string, need: string, attr: string)

  const OgImagePattern := TagPattern("<meta", "property=\"og:image\"", "content=\"")
  const ImgPattern := TagPattern("<img", "", "src=\"")

  /** `w` occurs in `s` at position `i`. */
  predicate At(s: string, i: nat, w: string) {
    i + |w| <= |s| && s[i..i + |w|] == w
  }

  /** The first '"' at or after `from`. */
  function FirstQuote(s: string, from: nat): (r: Option<nat>)
    requires from <= |s|
    ensures r.Some? ==> from <= r.value < |s| && s[r.value] == '"'
    ensures r.Some? ==> forall i :: from <= i < r.value ==> s[i] != '"'
    ensures r.None? ==> forall i :: from <= i < |s| ==> s[i] != '"'
    decreases |s| - from
  {
    if from == |s| then None
    else if s[from] == '"' then Some(from)
    else FirstQuote(s, from + 1)
  }

  /**
   * A match of `pat` starts at `p` with its capture group's opening quote
   * ending the attribute at `j`: the opening literal at `p`, no '>' between
   * it and the attribute, the `need` literal in that gap, a closing quote
   * after the attribute and a '>' somewhere after that quote.
   */
  predicate CaptureAt(s: string, pat: TagPattern, p: nat, j: nat) {
    && At(s, p, pat.open)
    && p + |pat.open| <= j
    && At(s, j, pat.attr)
    && (forall i :: p + |pat.open| <= i < j ==> s[i] != '>')
    && (exists q :: p + |pat.open| <= q <= j - |pat.need| && At(s, q, pat.need))
    && FirstQuote(s, j + |pat.attr|).Some?
    && (exists m :: FirstQuote(s, j + |pat.attr|).value < m < |s| && s[m] == '>')
  }

  /** The largest `j <= top` at which a match starting at `p` can capture. */
  function LastCapture(s: string, pat: TagPattern, p: nat, top: int): (r: Option<nat>)
    ensures r.Some? ==> r.value <= top && CaptureAt(s, pat, p, r.value)
    ensures r.Some? ==> forall j: nat :: r.value < j <= top ==> !CaptureAt(s, pat, p, j)
    ensures r.None? ==> forall j: nat :: j <= top ==> !CaptureAt(s, pat, p, j)
    decreases top + 1
  {
    if top < 0 then None
    else if CaptureAt(s, pat, p, top) then Some(top)
    else LastCapture(s, pat, p, top - 1)
  }

  /** A capture position can never lie beyond the end of the text. */
  lemma CaptureInText(s: string, pat: TagPattern, p: nat, j: nat)
    requires CaptureAt(s, pat, p, j)
    ensures j <= |s|
  {
  }

  /** The match `String.prototype.match` returns: its start and capture position. */
  datatype TagMatch = TagMatch(start: nat, capture: nat)

  /** The leftmost start at or after `from` with a match, and its capture position. */
  function FirstMatch(s: string, pat: TagPattern, from: nat): (r: Option<TagMatch>)
    ensures r.Some? ==> from <= r.value.start && CaptureAt(s, pat, r.value.start, r.value.capture)
    ensures r.Some? ==> forall p: nat, j: nat :: from <= p < r.value.start ==> !CaptureAt(s, pat, p, j)
    ensures r.Some? ==> forall j: nat :: r.value.capture < j ==> !CaptureAt(s, pat, r.value.start, j)
    ensures r.None? ==> forall p: nat, j: nat :: from <= p ==> !CaptureAt(s, pat, p, j)
    decreases |s| - from
  {
    if from > |s| then
      assert forall p: nat, j: nat :: from <= p ==> !CaptureAt(s, pat, p, j);
      None
    else
      var c := LastCapture(s, pat, from, |s|);
      if c.Some? then
        assert forall j: nat :: c.value < j ==> !CaptureAt(s, pat, from, j) by {
          forall j: nat | c.value < j && CaptureAt(s, pat, from, j) ensures false {
            CaptureInText(s, pat, from, j);
          }
        }
        Some(TagMatch(from, c.value))
      else
        assert forall j: nat :: !CaptureAt(s, pat, from, j) by {
          forall j: nat | CaptureAt(s, pat, from, j) ensures false {
            CaptureInText(s, pat, from, j);
          }
        }
        FirstMatch(s, pat, from + 1)
  }

  /** The text of the capture group of a match. */
  function CaptureText(s: string, pat: TagPattern, m: TagMatch): (r: string)
    requires CaptureAt(s, pat, m.start, m.capture)
    ensures '"' !in r
  {
    var from := m.capture + |pat.attr|;
    var k := FirstQuote(s, from).value;
    s[from..k]
  }

  /** `html.match(pattern)?.[1]`. */
  function MatchCapture(s: string, pat: TagPattern): (r: Option<string>)
    ensures r.Some? <==> exists p: nat, j: nat :: CaptureAt(s, pat, p, j)
  {
    var m := FirstMatch(s, pat, 0);
    if m.Some? then Some(CaptureText(s, pat, m.value)) else None
  }

  /**
   * `extractFirstImage(html, baseUrl)`: the og:image content when there is
   * a non-empty one, else the first non-empty img source, resolved against
   * the page; null when neither is found.
   */
  function ExtractFirstImage(html: string, base: Option<UrlParts>): (r: Nullable<string>)
    ensures var og := MatchCapture(html, OgImagePattern);
      og.Some? && og.value != [] ==> r == NonNull(ResolveUrl(og.value, base))
    ensures var og := MatchCapture(html, OgImagePattern);
      var img := MatchCapture(html, ImgPattern);
      !(og.Some? && og.value != []) && img.Some? && img.value != [] ==> r == NonNull(ResolveUrl(img.value, base))
    ensures r.Null? <==>
      (MatchCapture(html, OgImagePattern) in {None, Some([])}) &&
      (MatchCapture(html, ImgPattern) in {None, Some([])})
  {
    var og := MatchCapture(html, OgImagePattern);
    if og.Some? && og.value != [] then NonNull(ResolveUrl(og.value, base))
    else
      var img := MatchCapture(html, ImgPattern);
      if img.Some? && img.value != [] then NonNull(ResolveUrl(img.value, base))
      else Null
  }

  /** An image tag whose source attribute directly follows the tag name. */
  function ImgTag(src: string): string {
    "<img src=\"" + src + "\">"
  }

  /** A text without "<meta" has no og:image match. */
  lemma NoMetaNoOgImage(s: string)
    requires forall p: nat :: !At(s, p, "<meta")
    ensures MatchCapture(s, OgImagePattern) == None
  {
  }

  /** On a page without any `<meta` tag the first `<img>` capture alone decides the result. */
  lemma NoMetaImgDecides(html: string, base: Option<UrlParts>)
    requires forall p: nat :: !At(html, p, "<meta")
    ensures var img := MatchCapture(html, ImgPattern);
      ExtractFirstImage(html, base) == if img.Some? && img.value != [] then NonNull(ResolveUrl(img.value, base)) else Null
  {
    NoMetaNoOgImage(html);
  }

  lemma ImgTagHasNoMeta(src: string)
    requires '<' !in src
    ensures forall p: nat :: !At(ImgTag(src), p, "<meta")
  {
    var s := ImgTag(src);
    var n := 10 + |src|;
    assert s[..10] == "<img src=\"" && s[10..n] == src && |s| == n + 2;
    forall p: nat ensures !At(s, p, "<meta") {
      if p + 5 > |s| {
      } else if p == 0 {
        assert s[p..p + 5][1] == 'i';
      } else if p < 10 {
        assert s[p..p + 5][0] == s[..10][p];
      } else {
        assert s[p..p + 5][0] == s[10..n][p - 10];
      }
    }
  }

  lemma ImgTagCapture(src: string)
    requires '"' !in src && '>' !in src
    ensures CaptureAt(ImgTag(src), ImgPattern, 0, 5)
    ensures forall j: nat :: 5 < j ==> !CaptureAt(ImgTag(src), ImgPattern, 0, j)
    ensures FirstQuote(ImgTag(src), 10) == Some(10 + |src|)
  {
    var s := ImgTag(src);
    ImgTagLayout(src);
    ImgTagQuotes(src);
    assert At(s, 4, "");
    ImgTagNoLaterCapture(src);
  }

  /** Where the parts of an image tag sit. */
  lemma ImgTagLayout(src: string)
    ensures var s := ImgTag(src); var n := 10 + |src|;
      && |s| == n + 2 && s[..4] == "<img" && s[..10] == "<img src=\""
      && s[5..10] == "src=\"" && s[10..n] == src && s[n] == '"' && s[n + 1] == '>'
  {
    var s := ImgTag(src);
    assert s == "<img src=\"" + src + "\">";
  }

  /** The source's closing quote is the first quote after the attribute, and the last one. */
  lemma ImgTagQuotes(src: string)
    requires '"' !in src
    ensures FirstQuote(ImgTag(src), 10) == Some(10 + |src|)
    ensures FirstQuote(ImgTag(src), 10 + |src| + 1) == None
  {
    var s := ImgTag(src);
    var n := 10 + |src|;
    ImgTagLayout(src);
    forall i | 10 <= i < n ensures s[i] != '"' {
      assert s[i] == s[10..n][i - 10];
    }
    FirstQuoteIs(s, 10, n);
  }

  /** No attribute position after the first one captures. */
  lemma ImgTagNoLaterCapture(src: string)
    requires '"' !in src && '>' !in src
    ensures forall j: nat :: 5 < j ==> !CaptureAt(ImgTag(src), ImgPattern, 0, j)
  {
    var s := ImgTag(src);
    var n := 10 + |src|;
    ImgTagLayout(src);
    ImgTagQuotes(src);
    forall j: nat | 5 < j ensures !CaptureAt(s, ImgPattern, 0, j) {
      if j + 5 > |s| {
      } else if j < 10 {
        assert s[j..j + 5][0] == s[..10][j];
      } else if j + 4 < n {
        assert s[j..j + 5][4] == s[10..n][j + 4 - 10];
      } else if j + 4 == n + 1 {
        assert s[j..j + 5][4] == s[n + 1];
      }
    }
  }

  /**
   * A page whose only image is `<img src="…">` (no og:image meta tag) yields
   * that source, resolved against the page.
   */
  lemma SingleImageIsFound(src: string, base: Option<UrlParts>)
    requires src != [] && '"' !in src && '>' !in src && '<' !in src
    ensures ExtractFirstImage(ImgTag(src), base) == NonNull(ResolveUrl(src, base))
  {
    var s := ImgTag(src);
    ImgTagHasNoMeta(src);
    NoMetaNoOgImage(s);
    ImgTagCapture(src);
    assert FirstMatch(s, ImgPattern, 0) == Some(TagMatch(0, 5));
    assert s[10..10 + |src|] == src;
  }

  lemma FirstQuoteIs(s: string, from: nat, k: nat)
    requires from <= k < |s| && s[k] == '"'
    requires forall i :: from <= i < k ==> s[i] != '"'
    ensures FirstQuote(s, from) == Some(k)
    decreases k - from
  {
    if from < k {
      FirstQuoteIs(s, from + 1, k);
    }
  }
}
