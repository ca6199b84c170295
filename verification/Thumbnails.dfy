/** Reading image dimensions: 64-bit decimal parsing without range checks, and the tiny-thumbnail test. */
module Thumbnails {
  import opened Domain
  import opened UrlNorm

  const TWO63: int := 0x8000_0000_0000_0000
  const TWO64: int := 0x1_0000_0000_0000_0000
  const MIN_CONTENT_DIMENSION: int := 200

  /** Two's complement wrap-around of a 64-bit int. */
  function Wrap64(x: int): (r: int)
    ensures -TWO63 <= r < TWO63
    ensures -TWO63 <= x < TWO63 ==> r == x
  {
    (x + TWO63) % TWO64 - TWO63
  }

  /** Decimal value of a digit string; the empty string counts as 0. */
  function Decimal(s: string): (n: nat)
    requires Digits(s)
  {
    if s == "" then 0 else 10 * Decimal(s[..|s| - 1]) + (s[|s| - 1] as int - '0' as int)
  }

  lemma WrapStep(a: int, d: int)
    ensures Wrap64(Wrap64(a) * 10 + d) == Wrap64(a * 10 + d)
  {
    var q := (a + TWO63) / TWO64;
    assert Wrap64(a) == a - q * TWO64;
    WrapMultiple(a * 10 + d, -10 * q);
  }

  lemma WrapMultiple(x: int, k: int)
    ensures Wrap64(x + k * TWO64) == Wrap64(x)
  {
  }

  /** parseIntFast: 0 on any non-digit, otherwise the decimal value modulo 64-bit wrap-around. */
  function IntFast(s: string): int {
    if Digits(s) then Wrap64(Decimal(s)) else 0
  }

  method ParseIntFast(s: string) returns (n: int)
    ensures n == IntFast(s)
  {
    n := 0;
    for k := 0 to |s|
      invariant Digits(s[..k])
      invariant n == Wrap64(Decimal(s[..k]))
    {
      if s[k] < '0' || s[k] > '9' {
        return 0;
      }
      assert s[..k + 1][..k] == s[..k];
      WrapStep(Decimal(s[..k]), s[k] as int - '0' as int);
      n := Wrap64(n * 10 + (s[k] as int - '0' as int));
    }
    assert s[..|s|] == s;
  }

  /** The parser returns the decimal value exactly when that value fits into 64 bits, and 0 for anything but digits. */
  lemma IntFastExactly(s: string)
    ensures Digits(s) ==> (IntFast(s) == Decimal(s) <==> Decimal(s) < 0x8000_0000_0000_0000)
    ensures !Digits(s) ==> IntFast(s) == 0
  {
  }

  function Power10(n: nat): nat {
    if n == 0 then 1 else 10 * Power10(n - 1)
  }

  lemma {:induction false} DecimalBound(s: string)
    requires Digits(s)
    ensures Decimal(s) < Power10(|s|)
  {
    if s != "" {
      DecimalBound(s[..|s| - 1]);
    }
  }

  lemma {:induction false} PowerMonotone(a: nat, b: nat)
    requires a <= b
    ensures Power10(a) <= Power10(b)
  {
    if a < b {
      PowerMonotone(a, b - 1);
    }
  }

  lemma TenTo18()
    ensures Power10(18) == 1_000_000_000_000_000_000
  {
    assert Power10(3) == 1_000;
    assert Power10(6) == 1_000_000;
    assert Power10(9) == 1_000_000_000;
    assert Power10(12) == 1_000_000_000_000;
    assert Power10(15) == 1_000_000_000_000_000;
  }

  /** Up to 18 digits nothing overflows, at no prefix of the string. */
  lemma EighteenDigitsFit(s: string, k: nat)
    requires Digits(s) && |s| <= 18 && k <= |s|
    ensures Digits(s[..k]) && IntFast(s[..k]) == Decimal(s[..k]) < TWO63
  {
    var n: nat := 18;
    DecimalBound(s[..k]);
    PowerMonotone(k, n);
    TenTo18();
  }

  /** Decimal printing. */
  function Print(n: nat): (s: string)
    ensures s != "" && Digits(s)
  {
    if n < 10 then [('0' as int + n) as char] else Print(n / 10) + [('0' as int + n % 10) as char]
  }

  lemma {:induction false} DecimalOfPrint(n: nat)
    ensures Decimal(Print(n)) == n
  {
    if n < 10 {
      assert Print(n)[..0] == "";
    } else {
      DecimalOfPrint(n / 10);
      var s := Print(n);
      assert s[..|s| - 1] == Print(n / 10);
    }
  }

  /** Parsing undoes printing for every non-negative 64-bit int. */
  lemma ParsePrinted(n: nat)
    requires n < TWO63
    ensures IntFast(Print(n)) == n
  {
    DecimalOfPrint(n);
  }

  /** A number just past the 64-bit range reads as a tiny dimension. */
  lemma OverflowReadsTiny()
    ensures IntFast(Print(TWO64 + 1)) == 1
  {
    DecimalOfPrint(TWO64 + 1);
  }

  // ---- Tiny thumbnails

  function TrimSuffix(s: string, suffix: string): string {
    if |suffix| <= |s| && s[|s| - |suffix|..] == suffix then s[..|s| - |suffix|] else s
  }

  predicate SmallPair(w: string, h: string) {
    0 < IntFast(w) < MIN_CONTENT_DIMENSION && 0 < IntFast(h) < MIN_CONTENT_DIMENSION
  }

  /** The W and H of a trailing -WxH. */
  function Dimensions(s: string): (r: Option<(string, string)>)
    ensures r.Some? ==> Digits(r.value.0) && Digits(r.value.1) && r.value.0 != "" && r.value.1 != ""
  {
    SizeMatchExact(s);
    if SizeMatch(s).None? then None
    else
      var (k, m) := SizeMatch(s).value;
      Some((s[k + 1..m], s[m + 1..]))
  }

  /** `width` and `height` are the digits of the tag's attributes, empty when absent. */
  predicate IsTinyThumbnail(src: string, width: string, height: string) {
    var dims := Dimensions(TrimSuffix(Base(src), Ext(src)));
    || (dims.Some? && SmallPair(dims.value.0, dims.value.1))
    || (width != "" && height != "" && SmallPair(width, height))
  }

  predicate Tiny(s: string)
    requires Digits(s)
  {
    1 <= Decimal(s) <= 199
  }

  /** The number fits into a 64-bit int; every number of up to 18 digits does. */
  predicate Fits(s: string) {
    Digits(s) && Decimal(s) < TWO63
  }

  lemma SmallIsTiny(w: string, h: string)
    requires Fits(w) && Fits(h)
    ensures SmallPair(w, h) <==> Tiny(w) && Tiny(h)
  {
  }

  /** In range, the test is the stated comparison of the two pairs of dimensions, for every URL. */
  lemma TinyInRange(src: string, width: string, height: string)
    requires Fits(width) && Fits(height)
    requires
      var dims := Dimensions(TrimSuffix(Base(src), Ext(src)));
      dims.Some? ==> Fits(dims.value.0) && Fits(dims.value.1)
    ensures
      var dims := Dimensions(TrimSuffix(Base(src), Ext(src)));
      IsTinyThumbnail(src, width, height) <==>
        (dims.Some? && Tiny(dims.value.0) && Tiny(dims.value.1)) || (Tiny(width) && Tiny(height))
  {
    var dims := Dimensions(TrimSuffix(Base(src), Ext(src)));
    if dims.Some? {
      SmallIsTiny(dims.value.0, dims.value.1);
    }
    SmallIsTiny(width, height);
  }

  predicate NoSlash(s: string) {
    forall k | 0 <= k < |s| :: s[k] != '/'
  }

  lemma BaseOfFile(dir: string, name: string)
    requires name != "" && (dir == "" || dir[|dir| - 1] == '/') && NoSlash(name)
    ensures Base(dir + name) == name && DirLen(dir + name) == |dir|
  {
    var p := dir + name;
    assert p[|p| - 1] == name[|name| - 1];
    forall k | |dir| <= k < |p|
      ensures p[k] != '/'
    {
      assert p[k] == name[k - |dir|];
    }
    DirLenUnique(p, |dir|);
    assert TrimSlashes(p) == p;
    assert p[|dir|..] == name;
  }

  lemma DirLenUnique(p: string, n: nat)
    requires n <= |p| && (n > 0 ==> p[n - 1] == '/') && forall k | n <= k < |p| :: p[k] != '/'
    ensures DirLen(p) == n
  {
  }

  lemma DimensionsOfSized(stem: string, w: string, h: string)
    requires Digits(w) && Digits(h) && w != "" && h != ""
    ensures Dimensions(stem + "-" + w + "x" + h) == Some((w, h))
  {
    var s := stem + "-" + w + "x" + h;
    SizeAtEnd(stem, w, h);
    SizeMatchExact(s);
    assert s[|stem| + 1..|stem| + 1 + |w|] == w;
    assert s[|stem| + 2 + |w|..] == h;
  }

  /**
   * For a file dir/stem-WxH.ext, with or without an extension, whose numbers fit into 64 bits, the
   * test says tiny exactly when both suffix dimensions, or both attribute dimensions, lie in 1..199.
   */
  lemma TinyExactly(dir: string, stem: string, w: string, h: string, ext: string, width: string, height: string)
    requires dir == "" || dir[|dir| - 1] == '/'
    requires NoSlash(stem)
    requires IsExt(ext) && (ext == "" ==> forall k | 0 <= k < |stem| :: stem[k] != '.')
    requires Fits(w) && Fits(h) && Fits(width) && Fits(height) && w != "" && h != ""
    ensures IsTinyThumbnail(dir + (stem + "-" + w + "x" + h + ext), width, height) <==>
            (Tiny(w) && Tiny(h)) || (Tiny(width) && Tiny(height))
  {
    var sized := stem + "-" + w + "x" + h;
    SizedHasNoSlash(stem, w, h, ext);
    if ext == "" {
      SizedHasNoDot(stem, w, h);
    }
    FileParts(dir, sized, ext);
    DimensionsOfSized(stem, w, h);
    TinyInRange(dir + (sized + ext), width, height);
  }

  /** The parts of dir/sized.ext, given that its last component is sized.ext. */
  lemma FileParts(dir: string, sized: string, ext: string)
    requires dir == "" || dir[|dir| - 1] == '/'
    requires sized + ext != "" && IsExt(ext) && NoSlash(sized + ext)
    requires ext == "" ==> forall k | 0 <= k < |sized| :: sized[k] != '.'
    ensures TrimSuffix(Base(dir + (sized + ext)), Ext(dir + (sized + ext))) == sized
  {
    BaseOfFile(dir, sized + ext);
    if ext == "" {
      assert sized + ext == sized;
      NoDotInFile(dir, sized);
    }
    ExtOfFile(dir, sized, ext);
    TrimAppended(sized, ext);
  }

  lemma ExtOfFile(dir: string, sized: string, ext: string)
    requires IsExt(ext) && (ext == "" ==> NoDotInLast(dir + sized))
    ensures Ext(dir + (sized + ext)) == ext
  {
    assert dir + (sized + ext) == (dir + sized) + ext;
    ExtOfParts(dir + sized, ext);
  }

  lemma TrimAppended(s: string, suffix: string)
    ensures TrimSuffix(s + suffix, suffix) == s
  {
    assert (s + suffix)[|s|..] == suffix && (s + suffix)[..|s|] == s;
  }

  lemma NoDotInFile(dir: string, name: string)
    requires name != "" && (dir == "" || dir[|dir| - 1] == '/') && NoSlash(name)
    requires forall k | 0 <= k < |name| :: name[k] != '.'
    ensures NoDotInLast(dir + name)
  {
    var p := dir + name;
    BaseOfFile(dir, name);
    forall k | DirLen(p) <= k < |p|
      ensures p[k] != '.'
    {
      assert p[k] == name[k - |dir|];
    }
  }

  lemma SizedHasNoDot(stem: string, w: string, h: string)
    requires forall k | 0 <= k < |stem| :: stem[k] != '.'
    requires Digits(w) && Digits(h) && w != "" && h != ""
    ensures var sized := stem + "-" + w + "x" + h; forall k | 0 <= k < |sized| :: sized[k] != '.'
  {
    var sized := stem + "-" + w + "x" + h;
    SizeAtEnd(stem, w, h);
    SizeIsPlain(sized, |stem|, |stem| + 1 + |w|);
    assert forall k | 0 <= k < |stem| :: sized[k] == stem[k];
  }

  lemma SizedHasNoSlash(stem: string, w: string, h: string, ext: string)
    requires NoSlash(stem) && Digits(w) && Digits(h) && w != "" && h != "" && IsExt(ext)
    ensures NoSlash(stem + "-" + w + "x" + h + ext)
  {
    var sized := stem + "-" + w + "x" + h;
    SizeAtEnd(stem, w, h);
    SizeIsPlain(sized, |stem|, |stem| + 1 + |w|);
    assert forall k | 0 <= k < |stem| :: sized[k] == stem[k];
    NoSlashConcat(sized, ext);
  }

  lemma NoSlashConcat(a: string, b: string)
    requires NoSlash(a) && NoSlash(b)
    ensures NoSlash(a + b)
  {
  }
}
