/** Stock-agency and Creative Commons detection in embedded image metadata. */
module Metadata {
  import opened Domain
  import opened Text

  datatype ImageMetadata = ImageMetadata(
    exifCopyright: string,
    exifArtist: string,
    iptcCopyright: string,
    iptcCredit: string,
    iptcSource: string,
    iptcByline: string,
    xmpLicense: string,
    xmpWebStatement: string,
    xmpUsageTerms: string,
    xmpMarked: bool,
    dcRights: string,
    dcCreator: string)

  const STOCK_METADATA_KEYWORDS: seq<string> := [
    "shutterstock", "gettyimages", "getty images", "istockphoto", "istock", "alamy", "depositphotos",
    "dreamstime", "123rf", "adobestock", "adobe stock", "bigstockphoto", "stocksy", "pond5", "masterfile",
    "superstock", "agefotostock", "age fotostock", "colourbox", "yayimages", "vectorstock", "freepik",
    "canstockphoto"]

  const CC_LICENSE_PATH_SEGMENTS: seq<string> := ["creativecommons.org/licenses/", "creativecommons.org/publicdomain/"]

  // ---- Word-boundary search

  predicate IsWordChar(b: char) {
    'a' <= b <= 'z' || 'A' <= b <= 'Z' || '0' <= b <= '9'
  }

  predicate LeftClear(text: string, i: int) {
    i <= 0 || i > |text| || !IsWordChar(text[i - 1])
  }

  predicate RightClear(text: string, end: int) {
    end < 0 || end >= |text| || !IsWordChar(text[end])
  }

  /** `word` stands alone at `i` in the whole text. */
  predicate WordAt(text: string, word: string, i: int) {
    OccursAt(text, word, i) && LeftClear(text, i) && RightClear(text, i + |word|)
  }

  ghost predicate HasWord(text: string, word: string) {
    exists i :: WordAt(text, word, i)
  }

  /** What the re-slicing scan accepts: it forgets the left neighbour when the previous byte starts an occurrence too. */
  predicate ScanAccepts(text: string, word: string, i: int) {
    OccursAt(text, word, i) && RightClear(text, i + |word|) && (LeftClear(text, i) || OccursAt(text, word, i - 1))
  }

  ghost predicate ScanFinds(text: string, word: string) {
    exists i :: ScanAccepts(text, word, i)
  }

  /** Words on which the forgotten left neighbour can matter: empty, or one alphanumeric byte repeated. */
  predicate Deceptive(word: string) {
    word == "" || (IsWordChar(word[0]) && forall k | 0 <= k < |word| :: word[k] == word[0])
  }

  method ContainsWord(text: string, word: string) returns (found: bool)
    ensures found <==> ScanFinds(text, word)
    ensures !Deceptive(word) ==> (found <==> HasWord(text, word))
  {
    var rest := text;
    found := false;
    while true
      invariant !found && Scan(rest, word) == Scan(text, word)
      decreases |rest|
    {
      var idx := Index(rest, word);
      if idx < 0 {
        break;
      }
      var end := idx + |word|;
      var leftOK := idx == 0 || !IsWordChar(rest[idx - 1]);
      var rightOK := end >= |rest| || !IsWordChar(rest[end]);
      if leftOK && rightOK {
        found := true;
        break;
      }
      rest := rest[idx + 1..];
    }
    ScanCorrect(text, word);
  }

  lemma ScanCorrect(text: string, word: string)
    ensures Scan(text, word) <==> ScanFinds(text, word)
    ensures !Deceptive(word) ==> (Scan(text, word) <==> HasWord(text, word))
  {
    ScanMeaning(text, word, 0);
    assert text[0..] == text;
    if !Deceptive(word) {
      ScanIsExact(text, word);
    }
  }

  /** The loop as a function: it cuts its text behind the start of each occurrence it rejects. */
  function Scan(rest: string, word: string): bool
    decreases |rest|
  {
    var idx := Index(rest, word);
    if idx < 0 then false else if Stops(rest, word, idx) then true else Scan(rest[idx + 1..], word)
  }

  /** The occurrence at `idx` has clear neighbours in the text that is left. */
  predicate Stops(rest: string, word: string, idx: nat)
    requires idx + |word| <= |rest|
  {
    (idx == 0 || !IsWordChar(rest[idx - 1])) && (idx + |word| >= |rest| || !IsWordChar(rest[idx + |word|]))
  }

  /** After cutting `off` bytes the scan still decides the same question about the whole text. */
  lemma {:induction false} ScanMeaning(text: string, word: string, off: nat)
    requires off <= |text| && ScanState(text, word, off)
    ensures Scan(text[off..], word) <==> ScanFinds(text, word)
    decreases |text| - off
  {
    var rest := text[off..];
    var idx := Index(rest, word);
    ScanStep(text, word, off, idx);
    if idx >= 0 && !Stops(rest, word, idx) {
      assert rest[idx + 1..] == text[off + idx + 1..];
      ScanMeaning(text, word, off + idx + 1);
    }
  }

  /** The scan has cut `off` bytes: it rejected everything before and last stopped at an occurrence. */
  ghost predicate ScanState(text: string, word: string, off: int) {
    && (off > 0 ==> OccursAt(text, word, off - 1))
    && (forall i | i < off :: !ScanAccepts(text, word, i))
  }

  /** One iteration decides every position up to and including the occurrence it finds. */
  lemma ScanStep(text: string, word: string, off: nat, idx: int)
    requires off <= |text| && idx == Index(text[off..], word) && ScanState(text, word, off)
    ensures idx < 0 ==> !ScanFinds(text, word)
    ensures idx >= 0 && Stops(text[off..], word, idx) ==> ScanFinds(text, word)
    ensures idx >= 0 && !Stops(text[off..], word, idx) ==> off + idx < |text| && ScanState(text, word, off + idx + 1)
  {
    FirstFrom(text, word, off, idx);
    if idx >= 0 {
      ScanDecides(text, word, off, off + idx);
      StopsIsClear(text, word, off, idx);
      assert forall i | i < off + idx :: !ScanAccepts(text, word, i);
    }
  }

  lemma StopsIsClear(text: string, word: string, off: nat, idx: nat)
    requires off + idx + |word| <= |text|
    ensures Stops(text[off..], word, idx) <==>
            (idx == 0 || !IsWordChar(text[off + idx - 1])) && RightClear(text, off + idx + |word|)
  {
  }

  /** The index found in the cut text is the first occurrence in the whole text from the cut on. */
  lemma FirstFrom(text: string, word: string, off: nat, idx: int)
    requires off <= |text| && idx == Index(text[off..], word)
    ensures forall i | off <= i && (idx == -1 || i < off + idx) :: !OccursAt(text, word, i)
    ensures idx >= 0 ==> OccursAt(text, word, off + idx)
  {
    IndexIsFirst(text[off..], word);
    forall i | off <= i && (idx == -1 || i < off + idx)
      ensures !OccursAt(text, word, i)
    {
      ShiftOccurrence(text, word, off, i);
    }
    if idx >= 0 {
      ShiftOccurrence(text, word, off, off + idx);
    }
  }

  lemma ScanDecides(text: string, word: string, off: nat, i: nat)
    requires off <= i && OccursAt(text, word, i)
    requires off > 0 ==> OccursAt(text, word, off - 1)
    requires off < i ==> !OccursAt(text, word, i - 1)
    ensures ScanAccepts(text, word, i) <==> (i == off || !IsWordChar(text[i - 1])) && RightClear(text, i + |word|)
  {
  }

  lemma ShiftOccurrence(text: string, word: string, off: nat, i: int)
    requires off <= |text|
    ensures off <= i ==> (OccursAt(text, word, i) <==> OccursAt(text[off..], word, i - off))
  {
    if off <= i && i + |word| <= |text| {
      assert text[off..][i - off..i - off + |word|] == text[i..i + |word|];
    }
  }

  lemma {:induction false} OverlapIsRun(text: string, word: string, i: int, k: nat)
    requires OccursAt(text, word, i) && OccursAt(text, word, i - 1) && k < |word|
    ensures word[k] == word[0]
  {
    if k > 0 {
      OverlapIsRun(text, word, i, k - 1);
      assert text[i - 1..i - 1 + |word|][k] == text[i - 1 + k];
      assert text[i..i + |word|][k - 1] == text[i - 1 + k];
    }
  }

  lemma ScanIsExact(text: string, word: string)
    requires !Deceptive(word)
    ensures ScanFinds(text, word) <==> HasWord(text, word)
  {
    forall i | ScanAccepts(text, word, i)
      ensures WordAt(text, word, i)
    {
      if !LeftClear(text, i) {
        forall k | 0 <= k < |word|
          ensures word[k] == word[0]
        {
          OverlapIsRun(text, word, i, k);
        }
        assert false;
      }
    }
    forall i | WordAt(text, word, i)
      ensures ScanAccepts(text, word, i)
    {
    }
  }

  /** The text on which the scan reports a word that is not there. */
  function Trap(word: string): string
    requires Deceptive(word)
  {
    if word == "" then "a" else [word[0]] + word
  }

  lemma TrapWorks(word: string)
    requires Deceptive(word)
    ensures ScanFinds(Trap(word), word) && !HasWord(Trap(word), word)
  {
    var text := Trap(word);
    var w: char := if word == "" then 'a' else word[0];
    assert |text| == |word| + 1 && forall k | 0 <= k < |text| :: text[k] == w;
    assert text[0..|word|] == word && text[1..1 + |word|] == word;
    assert OccursAt(text, word, 1) && OccursAt(text, word, 0);
    assert ScanAccepts(text, word, 1);
    forall i
      ensures !WordAt(text, word, i)
    {
    }
  }

  /** The scan equals its documented meaning on every text exactly for the words that are not deceptive. */
  lemma ScanExactness(word: string)
    ensures (forall text :: ScanFinds(text, word) <==> HasWord(text, word)) <==> !Deceptive(word)
  {
    if Deceptive(word) {
      TrapWorks(word);
    } else {
      forall text
        ensures ScanFinds(text, word) <==> HasWord(text, word)
      {
        ScanIsExact(text, word);
      }
    }
  }

  lemma KeywordsAreExact()
    ensures forall kw | kw in STOCK_METADATA_KEYWORDS :: !Deceptive(kw)
  {
    forall k | 0 <= k < |STOCK_METADATA_KEYWORDS|
      ensures |STOCK_METADATA_KEYWORDS[k]| >= 2 && STOCK_METADATA_KEYWORDS[k][0] != STOCK_METADATA_KEYWORDS[k][1]
    {
    }
  }

  // ---- Stock and Creative Commons fields

  function StockFields(m: ImageMetadata): seq<string> {
    [m.exifCopyright, m.exifArtist, m.iptcCopyright, m.iptcCredit, m.iptcSource, m.iptcByline, m.dcRights, m.dcCreator]
  }

  function CCFields(m: ImageMetadata): seq<string> {
    [m.xmpLicense, m.xmpWebStatement, m.xmpUsageTerms, m.dcRights]
  }

  /** Some agency keyword stands alone in the lower-cased field. */
  ghost predicate NamesAgency(lower: string -> string, field: string) {
    field != "" && exists kw :: kw in STOCK_METADATA_KEYWORDS && HasWord(lower(field), kw)
  }

  ghost predicate IsStock(lower: string -> string, meta: Option<ImageMetadata>) {
    meta.Some? && exists k :: 0 <= k < 8 && NamesAgency(lower, StockFields(meta.value)[k])
  }

  ghost predicate FirstAgencyField(lower: string -> string, fields: seq<string>, k: int) {
    0 <= k < |fields| && NamesAgency(lower, fields[k]) && forall m | 0 <= m < k :: !NamesAgency(lower, fields[m])
  }

  // ---- Which fields count, one by one

  /** A word stands alone: before and after it there is nothing, or no ASCII letter or digit. */
  lemma HasWordExactly(text: string, word: string)
    ensures HasWord(text, word) <==>
            exists i :: OccursAt(text, word, i) &&
              (i > 0 ==> !('a' <= text[i - 1] <= 'z' || 'A' <= text[i - 1] <= 'Z' || '0' <= text[i - 1] <= '9')) &&
              (i + |word| < |text| ==> !('a' <= text[i + |word|] <= 'z' || 'A' <= text[i + |word|] <= 'Z' || '0' <= text[i + |word|] <= '9'))
  {
    if HasWord(text, word) {
      var i :| WordAt(text, word, i);
      assert OccursAt(text, word, i);
    }
    if i :| OccursAt(text, word, i) &&
            (i > 0 ==> !('a' <= text[i - 1] <= 'z' || 'A' <= text[i - 1] <= 'Z' || '0' <= text[i - 1] <= '9')) &&
            (i + |word| < |text| ==> !('a' <= text[i + |word|] <= 'z' || 'A' <= text[i + |word|] <= 'Z' || '0' <= text[i + |word|] <= '9')) {
      assert WordAt(text, word, i);
    }
  }

  /** An agency keyword in any of the eight rights and author fields makes the image stock, and nothing else does. */
  lemma StockFieldsExactly(lower: string -> string, m: ImageMetadata)
    ensures IsStock(lower, Some(m)) <==>
            || NamesAgency(lower, m.exifCopyright) || NamesAgency(lower, m.exifArtist)
            || NamesAgency(lower, m.iptcCopyright) || NamesAgency(lower, m.iptcCredit)
            || NamesAgency(lower, m.iptcSource) || NamesAgency(lower, m.iptcByline)
            || NamesAgency(lower, m.dcRights) || NamesAgency(lower, m.dcCreator)
  {
    var fs := StockFields(m);
    assert fs[0] == m.exifCopyright && fs[1] == m.exifArtist && fs[2] == m.iptcCopyright && fs[3] == m.iptcCredit;
    assert fs[4] == m.iptcSource && fs[5] == m.iptcByline && fs[6] == m.dcRights && fs[7] == m.dcCreator;
  }

  /** One keyword in one field is enough. */
  lemma OneKeywordIsEnough(lower: string -> string, m: ImageMetadata, field: string, kw: string)
    requires field in {m.exifCopyright, m.exifArtist, m.iptcCopyright, m.iptcCredit, m.iptcSource, m.iptcByline,
                       m.dcRights, m.dcCreator}
    requires field != "" && kw in STOCK_METADATA_KEYWORDS && HasWord(lower(field), kw)
    ensures IsStock(lower, Some(m))
  {
    StockFieldsExactly(lower, m);
  }

  /** And it takes one: a field that contains a keyword only inside a longer word does not count. */
  lemma StockNeedsKeyword(lower: string -> string, m: ImageMetadata) returns (field: string, kw: string)
    requires IsStock(lower, Some(m))
    ensures field in {m.exifCopyright, m.exifArtist, m.iptcCopyright, m.iptcCredit, m.iptcSource, m.iptcByline,
                      m.dcRights, m.dcCreator}
    ensures field != "" && kw in STOCK_METADATA_KEYWORDS && HasWord(lower(field), kw)
  {
    StockFieldsExactly(lower, m);
    field :=
      if NamesAgency(lower, m.exifCopyright) then m.exifCopyright else if NamesAgency(lower, m.exifArtist) then m.exifArtist
      else if NamesAgency(lower, m.iptcCopyright) then m.iptcCopyright else if NamesAgency(lower, m.iptcCredit) then m.iptcCredit
      else if NamesAgency(lower, m.iptcSource) then m.iptcSource else if NamesAgency(lower, m.iptcByline) then m.iptcByline
      else if NamesAgency(lower, m.dcRights) then m.dcRights else m.dcCreator;
    kw := AgencyKeyword(lower, field);
  }

  lemma AgencyKeyword(lower: string -> string, field: string) returns (kw: string)
    requires NamesAgency(lower, field)
    ensures field != "" && kw in STOCK_METADATA_KEYWORDS && HasWord(lower(field), kw)
  {
    kw :| kw in STOCK_METADATA_KEYWORDS && HasWord(lower(field), kw);
  }

  /** The XMP fields never make an image stock, and no image without metadata is. */
  lemma XmpIsNotStock(lower: string -> string, m: ImageMetadata, license: string, web: string, terms: string, marked: bool)
    ensures IsStock(lower, Some(m)) <==>
            IsStock(lower, Some(m.(xmpLicense := license, xmpWebStatement := web, xmpUsageTerms := terms, xmpMarked := marked)))
    ensures !IsStock(lower, None)
  {
    StockFieldsExactly(lower, m);
    StockFieldsExactly(lower, m.(xmpLicense := license, xmpWebStatement := web, xmpUsageTerms := terms, xmpMarked := marked));
  }

  /** The detail is looked up in the order EXIF, IPTC, Dublin Core. */
  lemma FirstFieldExactly(lower: string -> string, m: ImageMetadata, k: int)
    requires FirstAgencyField(lower, StockFields(m), k)
    ensures StockFields(m)[k] ==
            if NamesAgency(lower, m.exifCopyright) then m.exifCopyright
            else if NamesAgency(lower, m.exifArtist) then m.exifArtist
            else if NamesAgency(lower, m.iptcCopyright) then m.iptcCopyright
            else if NamesAgency(lower, m.iptcCredit) then m.iptcCredit
            else if NamesAgency(lower, m.iptcSource) then m.iptcSource
            else if NamesAgency(lower, m.iptcByline) then m.iptcByline
            else if NamesAgency(lower, m.dcRights) then m.dcRights
            else m.dcCreator
  {
    var fs := StockFields(m);
    assert fs[0] == m.exifCopyright && fs[1] == m.exifArtist && fs[2] == m.iptcCopyright && fs[3] == m.iptcCredit;
    assert fs[4] == m.iptcSource && fs[5] == m.iptcByline && fs[6] == m.dcRights && fs[7] == m.dcCreator;
  }

  /** The lower-cased field contains the path of a Creative Commons license or dedication. */
  predicate LinksCC(lower: string -> string, field: string) {
    field != "" &&
    (Contains(lower(field), "creativecommons.org/licenses/") || Contains(lower(field), "creativecommons.org/publicdomain/"))
  }

  /** Such a link in one of the three XMP fields or the Dublin Core rights makes the image free, and nothing else does. */
  lemma CCFieldsExactly(lower: string -> string, m: ImageMetadata)
    ensures IsCC(lower, Some(m)) <==>
            || LinksCC(lower, m.xmpLicense) || LinksCC(lower, m.xmpWebStatement)
            || LinksCC(lower, m.xmpUsageTerms) || LinksCC(lower, m.dcRights)
    ensures !IsCC(lower, None)
  {
    var fs := CCFields(m);
    assert fs[0] == m.xmpLicense && fs[1] == m.xmpWebStatement && fs[2] == m.xmpUsageTerms && fs[3] == m.dcRights;
    forall k | 0 <= k < 4
      ensures IsCCLicenseURL(lower, fs[k]) <==> LinksCC(lower, fs[k])
    {
      CCLinkExactly(lower, fs[k]);
    }
  }

  lemma CCLinkExactly(lower: string -> string, url: string)
    ensures IsCCLicenseURL(lower, url) <==> LinksCC(lower, url)
  {
    assert CC_LICENSE_PATH_SEGMENTS[0] == "creativecommons.org/licenses/";
    assert CC_LICENSE_PATH_SEGMENTS[1] == "creativecommons.org/publicdomain/";
  }

  // ---- The scans over the fields

  method FieldNamesAgency(lower: string -> string, field: string) returns (found: bool)
    ensures found <==> NamesAgency(lower, field)
  {
    if field == "" {
      return false;
    }
    KeywordsAreExact();
    for k := 0 to |STOCK_METADATA_KEYWORDS|
      invariant forall m | 0 <= m < k :: !HasWord(lower(field), STOCK_METADATA_KEYWORDS[m])
    {
      var hit := ContainsWord(lower(field), STOCK_METADATA_KEYWORDS[k]);
      if hit {
        return true;
      }
    }
    return false;
  }

  method IsStockByMetadata(lower: string -> string, meta: Option<ImageMetadata>) returns (stock: bool)
    ensures stock <==> IsStock(lower, meta)
  {
    if meta.None? {
      return false;
    }
    var fields := StockFields(meta.value);
    for k := 0 to |fields|
      invariant forall m | 0 <= m < k :: !NamesAgency(lower, fields[m])
    {
      var hit := FieldNamesAgency(lower, fields[k]);
      if hit {
        return true;
      }
    }
    return false;
  }

  /** The detail shown with a stock signal is the first field that names an agency; empty exactly when none does. */
  method MetadataStockDetail(lower: string -> string, meta: Option<ImageMetadata>) returns (detail: string)
    ensures detail != "" <==> IsStock(lower, meta)
    ensures detail != "" ==> exists k :: FirstAgencyField(lower, StockFields(meta.value), k) && StockFields(meta.value)[k] == detail
  {
    if meta.None? {
      return "";
    }
    var fields := StockFields(meta.value);
    for k := 0 to |fields|
      invariant forall m | 0 <= m < k :: !NamesAgency(lower, fields[m])
    {
      var hit := FieldNamesAgency(lower, fields[k]);
      if hit {
        assert FirstAgencyField(lower, fields, k);
        return fields[k];
      }
    }
    return "";
  }

  predicate IsCCLicenseURL(lower: string -> string, url: string) {
    url != "" && exists k | 0 <= k < |CC_LICENSE_PATH_SEGMENTS| :: Contains(lower(url), CC_LICENSE_PATH_SEGMENTS[k])
  }

  predicate IsCC(lower: string -> string, meta: Option<ImageMetadata>) {
    meta.Some? && exists k | 0 <= k < 4 :: IsCCLicenseURL(lower, CCFields(meta.value)[k])
  }

  method IsCCByMetadata(lower: string -> string, meta: Option<ImageMetadata>) returns (cc: bool)
    ensures cc <==> IsCC(lower, meta)
  {
    if meta.None? {
      return false;
    }
    var fields := CCFields(meta.value);
    for k := 0 to |fields|
      invariant forall m | 0 <= m < k :: !IsCCLicenseURL(lower, fields[m])
    {
      if IsCCLicenseURL(lower, fields[k]) {
        return true;
      }
    }
    return false;
  }
}
