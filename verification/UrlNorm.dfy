/** Size suffixes of image URLs: stripping them to a full-size key, and reading small dimensions from them. */
module UrlNorm {
  import opened Domain

  // ---- Path pieces

  /** No dot and no slash from `i` on. */
  predicate PlainFrom(s: string, i: nat) {
    forall k | i <= k < |s| :: s[k] != '.' && s[k] != '/'
  }

  /** Start of the extension: the last dot after the last slash, searched downwards from `i`. */
  function ExtFrom(p: string, i: nat): (r: nat)
    requires i <= |p|
    ensures r <= |p|
  {
    if i == 0 || p[i - 1] == '/' then |p| else if p[i - 1] == '.' then i - 1 else ExtFrom(p, i - 1)
  }

  /** path.Ext */
  function Ext(p: string): string {
    p[ExtFrom(p, |p|)..]
  }

  /** strings.TrimSuffix(p, path.Ext(p)) */
  function Stem(p: string): string {
    p[..ExtFrom(p, |p|)]
  }

  /** Length of the part up to and including the last slash. */
  function DirLen(p: string): (n: nat)
    ensures n <= |p|
    ensures n > 0 ==> p[n - 1] == '/'
    ensures forall k | n <= k < |p| :: p[k] != '/'
  {
    if p == "" then 0 else if p[|p| - 1] == '/' then |p| else DirLen(p[..|p| - 1])
  }

  function TrimSlashes(p: string): string {
    if p != "" && p[|p| - 1] == '/' then TrimSlashes(p[..|p| - 1]) else p
  }

  /** path.Base */
  function Base(p: string): string {
    if p == "" then "."
    else
      var t := TrimSlashes(p);
      if t == "" then "/" else t[DirLen(t)..]
  }

  /** The corners of path.Base: the empty path, slashes only, and slashes at the end. */
  lemma BaseCorners(p: string)
    ensures Base("") == "." && Base("/") == "/"
    ensures p != "" ==> Base(p + "/") == Base(p)
    ensures p != "" && (forall k | 0 <= k < |p| :: p[k] != '/') ==> Base(p) == p
  {
    assert "/"[..0] == "";
    assert (p + "/")[..|p|] == p;
  }

  predicate IsExt(e: string) {
    e == "" || (e[0] == '.' && PlainFrom(e, 1))
  }

  ghost predicate NoDotInLast(p: string) {
    forall k | DirLen(p) <= k < |p| :: p[k] != '.'
  }

  lemma {:induction false} ExtFromSpec(p: string, i: nat)
    requires DirLen(p) <= i <= |p| && PlainFrom(p, i)
    ensures
      var r := ExtFrom(p, i);
      if r == |p| then NoDotInLast(p) else DirLen(p) <= r && p[r] == '.' && PlainFrom(p, r + 1)
  {
    if i > DirLen(p) && p[i - 1] != '.' {
      ExtFromSpec(p, i - 1);
    }
  }

  /** Splitting off the extension is undone by concatenation, and the pieces have their shape. */
  lemma ExtSplits(p: string)
    ensures p == Stem(p) + Ext(p) && IsExt(Ext(p))
    ensures DirLen(p) <= |Stem(p)|
    ensures Ext(p) == "" ==> NoDotInLast(p)
  {
    ExtFromSpec(p, |p|);
  }

  lemma {:induction false} ExtFromFinds(p: string, at: nat, i: nat)
    requires at < i <= |p| && p[at] == '.' && PlainFrom(p, at + 1)
    ensures ExtFrom(p, i) == at
  {
    if i - 1 > at {
      ExtFromFinds(p, at, i - 1);
    }
  }

  lemma {:induction false} ExtFromNone(p: string, i: nat)
    requires DirLen(p) <= i <= |p| && NoDotInLast(p)
    ensures ExtFrom(p, i) == |p|
  {
    if i > DirLen(p) {
      ExtFromNone(p, i - 1);
    }
  }

  /** A stem and an extension are recovered; an empty extension needs a last component without dots. */
  lemma ExtOfParts(stem: string, ext: string)
    requires IsExt(ext)
    requires ext == "" ==> NoDotInLast(stem)
    ensures Stem(stem + ext) == stem && Ext(stem + ext) == ext
  {
    var p := stem + ext;
    if ext == "" {
      assert p == stem;
      ExtFromNone(p, |p|);
    } else {
      forall k | |stem| + 1 <= k < |p|
        ensures p[k] != '.' && p[k] != '/'
      {
        assert p[k] == ext[k - |stem|];
      }
      ExtFromFinds(p, |stem|, |p|);
    }
  }

  // ---- Size suffixes

  predicate Digit(c: char) {
    '0' <= c <= '9'
  }

  predicate DigitsIn(s: string, from: int, to: int) {
    forall k | from <= k < to && 0 <= k < |s| :: Digit(s[k])
  }

  predicate Digits(s: string) {
    DigitsIn(s, 0, |s|)
  }

  /** `s` ends in "-WxH", the dash at `k` and the x at `m`. */
  predicate SizeAt(s: string, k: int, m: int) {
    && 0 <= k && k + 1 < m && m + 1 < |s|
    && s[k] == '-' && s[m] == 'x'
    && DigitsIn(s, k + 1, m) && DigitsIn(s, m + 1, |s|)
  }

  /** Start of the run of digits that ends before `n`. */
  function DigitsBack(s: string, n: nat): (m: nat)
    requires n <= |s|
    ensures m <= n
    ensures forall k | m <= k < n :: Digit(s[k])
    ensures m > 0 ==> !Digit(s[m - 1])
  {
    if n > 0 && Digit(s[n - 1]) then DigitsBack(s, n - 1) else n
  }

  /** The match of -(\d+)x(\d+)$ as (dash, x), if there is one. */
  function SizeMatch(s: string): Option<(nat, nat)> {
    var h := DigitsBack(s, |s|);
    if h == |s| || h == 0 || s[h - 1] != 'x' then None
    else
      var w := DigitsBack(s, h - 1);
      if w == h - 1 || w == 0 || s[w - 1] != '-' then None else Some((w - 1, h - 1))
  }

  /** The regular expression has at most one match, and the scan finds it. */
  lemma SizeMatchExact(s: string)
    ensures SizeMatch(s).Some? ==> SizeAt(s, SizeMatch(s).value.0, SizeMatch(s).value.1)
    ensures forall k, m | SizeAt(s, k, m) :: SizeMatch(s) == Some((k, m))
  {
    forall k, m | SizeAt(s, k, m)
      ensures SizeMatch(s) == Some((k, m))
    {
      assert DigitsBack(s, |s|) == m + 1;
      assert DigitsBack(s, m) == k + 1;
    }
  }

  function Strip(s: string): string {
    if SizeMatch(s).Some? then s[..SizeMatch(s).value.0] else s
  }

  predicate HasSize(s: string) {
    SizeMatch(s).Some?
  }

  function NormalizeImgURL(url: string): string {
    if HasSize(Base(Stem(url))) then Strip(Stem(url)) + Ext(url) else url
  }

  // ---- What normalisation does

  /** A size suffix contains neither slash nor dot. */
  lemma SizeIsPlain(s: string, k: int, m: int)
    requires SizeAt(s, k, m)
    ensures PlainFrom(s, k) && DirLen(s) <= k
  {
  }

  lemma SizeInBase(s: string, k: nat, m: nat, d: nat)
    requires SizeAt(s, k, m) && d <= k
    ensures HasSize(s[d..])
  {
    var base := s[d..];
    assert forall q | 0 <= q < |base| :: base[q] == s[q + d];
    assert SizeAt(base, k - d, m - d);
    SizeMatchExact(base);
  }

  lemma SizeInLastComponent(s: string)
    requires HasSize(s)
    ensures HasSize(Base(s))
  {
    SizeMatchExact(s);
    var (k, m) := SizeMatch(s).value;
    SizeIsPlain(s, k, m);
    SizeInBase(s, k, m, DirLen(s));
    assert TrimSlashes(s) == s;
  }

  /** The test on the last component is the same as stripping the whole stem. */
  lemma NormalizeIsStrip(url: string)
    ensures NormalizeImgURL(url) == Strip(Stem(url)) + Ext(url)
  {
    ExtSplits(url);
    if HasSize(Stem(url)) {
      SizeInLastComponent(Stem(url));
    }
  }

  lemma DirLenPrefix(s: string, n: nat)
    requires DirLen(s) <= n <= |s|
    ensures DirLen(s[..n]) == DirLen(s)
  {
    assert forall k | 0 <= k < n :: s[..n][k] == s[k];
  }

  lemma StripKeepsDir(s: string)
    ensures |Strip(s)| <= |s| && Strip(s) == s[..|Strip(s)|] && DirLen(s) <= |Strip(s)|
    ensures Strip(s) != s <==> HasSize(s)
  {
    SizeMatchExact(s);
    if HasSize(s) {
      SizeIsPlain(s, SizeMatch(s).value.0, SizeMatch(s).value.1);
    }
  }

  lemma StripKeepsDots(s: string)
    requires NoDotInLast(s)
    ensures NoDotInLast(Strip(s))
  {
    StripKeepsDir(s);
    DirLenPrefix(s, |Strip(s)|);
  }

  lemma StripParts(url: string)
    ensures Stem(NormalizeImgURL(url)) == Strip(Stem(url)) && Ext(NormalizeImgURL(url)) == Ext(url)
  {
    NormalizeIsStrip(url);
    ExtSplits(url);
    if Ext(url) == "" {
      assert Stem(url) == url;
      StripKeepsDots(url);
    }
    ExtOfParts(Strip(Stem(url)), Ext(url));
  }

  /** Only the last path component is edited, the extension survives, and any change shortens the URL. */
  lemma NormalizeIsLocal(url: string)
    ensures
      var n, d := NormalizeImgURL(url), DirLen(url);
      && Ext(n) == Ext(url)
      && d <= |n| && n[..d] == url[..d]
      && (n != url ==> |n| < |url|)
  {
    StripParts(url);
    NormalizeIsStrip(url);
    ExtSplits(url);
    var s := Stem(url);
    StripKeepsDir(s);
    DirLenPrefix(url, |s|);
    PrefixKeepsDir(url, s, Strip(s), Ext(url));
  }

  lemma PrefixKeepsDir(url: string, stem: string, stripped: string, ext: string)
    requires url == stem + ext && |stripped| <= |stem| && stripped == stem[..|stripped|]
    requires DirLen(url) <= |stripped|
    ensures (stripped + ext)[..DirLen(url)] == url[..DirLen(url)]
    ensures stripped + ext != url ==> |stripped + ext| < |url|
  {
    if |stripped| == |stem| {
      assert stripped == stem;
    }
  }

  lemma SizeAtEnd(stem: string, w: string, h: string)
    requires Digits(w) && Digits(h) && w != "" && h != ""
    ensures SizeAt(stem + "-" + w + "x" + h, |stem|, |stem| + 1 + |w|)
  {
    var s := stem + "-" + w + "x" + h;
    forall q | |stem| + 1 <= q < |stem| + 1 + |w|
      ensures Digit(s[q])
    {
      assert s[q] == w[q - |stem| - 1];
    }
    forall q | |stem| + 2 + |w| <= q < |s|
      ensures Digit(s[q])
    {
      assert s[q] == h[q - |stem| - 2 - |w|];
    }
  }

  lemma SizedStrips(stem: string, w: string, h: string)
    requires Digits(w) && Digits(h) && w != "" && h != ""
    ensures Strip(stem + "-" + w + "x" + h) == stem
    ensures NoDotInLast(stem) ==> NoDotInLast(stem + "-" + w + "x" + h)
  {
    var sized := stem + "-" + w + "x" + h;
    SizeAtEnd(stem, w, h);
    SizeMatchExact(sized);
    SizeIsPlain(sized, |stem|, |stem| + 1 + |w|);
    assert sized[..|stem|] == stem;
    DirLenPrefix(sized, |stem|);
    assert forall k | 0 <= k < |stem| :: sized[k] == stem[k];
  }

  /** Every size variant of an image has the same key. */
  lemma SizeVariantsShareKey(stem: string, w: string, h: string, ext: string)
    requires Digits(w) && Digits(h) && w != "" && h != "" && IsExt(ext)
    requires ext == "" ==> NoDotInLast(stem)
    ensures NormalizeImgURL(stem + "-" + w + "x" + h + ext) == stem + ext
  {
    var sized := stem + "-" + w + "x" + h;
    SizedStrips(stem, w, h);
    ExtOfParts(sized, ext);
    NormalizeIsStrip(sized + ext);
  }

  /** A URL changes exactly when it has the shape stem-WxH.ext, and then the suffix goes. */
  lemma NormalizeExactly(url: string)
    ensures NormalizeImgURL(url) != url <==> HasSize(Stem(url))
    ensures HasSize(Stem(url)) ==>
              exists stem, w, h :: w != "" && h != "" && Digits(w) && Digits(h) &&
                url == stem + "-" + w + "x" + h + Ext(url) && NormalizeImgURL(url) == stem + Ext(url)
  {
    NormalizeIsStrip(url);
    ExtSplits(url);
    StripKeepsDir(Stem(url));
    if HasSize(Stem(url)) {
      var s := Stem(url);
      SizeMatchExact(s);
      var (k, m) := SizeMatch(s).value;
      SizeParts(s, k, m);
    }
  }

  lemma SizeParts(s: string, k: nat, m: nat)
    requires SizeAt(s, k, m)
    ensures
      var w, h := s[k + 1..m], s[m + 1..];
      w != "" && h != "" && Digits(w) && Digits(h) && s == s[..k] + "-" + w + "x" + h
  {
  }

  /** One suffix only is stripped, so normalising twice changes nothing exactly when there is no second suffix underneath. */
  lemma IdempotentExactly(url: string)
    ensures NormalizeImgURL(NormalizeImgURL(url)) == NormalizeImgURL(url)
            <==> !(HasSize(Stem(url)) && HasSize(Strip(Stem(url))))
  {
    var n := NormalizeImgURL(url);
    StripParts(url);
    NormalizeIsStrip(n);
    NormalizeIsStrip(url);
    StripKeepsDir(Stem(url));
    StripKeepsDir(Strip(Stem(url)));
    assert Strip(Stem(n)) + Ext(n) == Strip(Stem(url)) + Ext(url) <==> |Strip(Strip(Stem(url)))| == |Strip(Stem(url))|;
  }

  lemma TwoSuffixes(stem: string, w1: string, h1: string, w2: string, h2: string, ext: string)
    requires Digits(w1) && Digits(h1) && w1 != "" && h1 != "" && Digits(w2) && Digits(h2) && w2 != "" && h2 != ""
    requires IsExt(ext) && (ext == "" ==> NoDotInLast(stem))
    ensures
      var url := stem + "-" + w1 + "x" + h1 + "-" + w2 + "x" + h2 + ext;
      NormalizeImgURL(NormalizeImgURL(url)) != NormalizeImgURL(url)
  {
    var once := stem + "-" + w1 + "x" + h1;
    SizedStrips(stem, w1, h1);
    SizeVariantsShareKey(once, w2, h2, ext);
    SizeVariantsShareKey(stem, w1, h1, ext);
  }
}
