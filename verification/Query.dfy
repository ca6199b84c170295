/** Building an image-search query from a title. Strings are sequences of runes here. */
module Query {
  import opened Text
  import opened Words

  const MIN_WORD_RUNES: nat := 3
  const MAX_QUERY_WORDS: nat := 5
  const PUNCTUATION: string := ".,;:!?\"'()[]{}«»—–-"

  const RU_STOP_WORDS: set<string> := {
    "в", "на", "и", "из", "для", "что", "как", "это", "по", "от", "с", "о", "к", "не", "за", "у", "но", "же",
    "все", "так", "его", "её", "их", "мы", "вы", "он", "она", "они", "был", "была", "будет", "уже", "ещё", "еще",
    "или", "ни", "бы", "до", "под", "при", "без", "над", "через"}

  const EN_STOP_WORDS: set<string> := {
    "the", "and", "for", "with", "best", "top", "good", "your", "you", "this", "that", "these", "those", "from",
    "into", "about", "over", "under", "some", "any", "all", "more", "most", "very", "really", "just", "only", "also"}

  /** Per-rune lower-casing and white space. */
  datatype Runes = Runes(lower: char -> char, space: char -> bool)

  function Lower(rs: Runes, s: string): string {
    seq(|s|, k requires 0 <= k < |s| => rs.lower(s[k]))
  }

  predicate Punct(c: char) {
    c in PUNCTUATION
  }

  // ---- Language

  /** The lower-cased language tag up to its first dash, unless the dash comes first. */
  function Primary(rs: Runes, lang: string): string {
    var low := Lower(rs, lang);
    var idx := Index(low, "-");
    if idx > 0 then low[..idx] else low
  }

  function StopWords(rs: Runes, lang: string): set<string> {
    if Primary(rs, lang) == "en" then EN_STOP_WORDS else RU_STOP_WORDS
  }

  // ---- Words of a title

  predicate Qualifies(rs: Runes, stop: set<string>, w: string) {
    w != "" && Lower(rs, w) !in stop && |w| >= MIN_WORD_RUNES
  }

  /** The words without surrounding punctuation, those that qualify, in order. */
  function Meaningful(rs: Runes, stop: set<string>, words: seq<string>): seq<string> {
    if words == [] then []
    else
      var w := Trim(Punct, words[|words| - 1]);
      Meaningful(rs, stop, words[..|words| - 1]) + (if Qualifies(rs, stop, w) then [w] else [])
  }

  function FirstFive(ws: seq<string>): seq<string> {
    if |ws| > MAX_QUERY_WORDS then ws[..MAX_QUERY_WORDS] else ws
  }

  function TitleWords(rs: Runes, stop: set<string>, title: string): seq<string> {
    FirstFive(Meaningful(rs, stop, Fields(rs.space, title)))
  }

  function QueryWith(rs: Runes, stop: set<string>, title: string, city: string): string {
    var query := Join(TitleWords(rs, stop, title));
    if city != "" && !Contains(Lower(rs, query), Lower(rs, city)) then query + " " + city else query
  }

  method BuildImageQueryLang(rs: Runes, title: string, city: string, lang: string) returns (query: string)
    ensures query == QueryWith(rs, StopWords(rs, lang), title, city)
  {
    var stopWords := RU_STOP_WORDS;
    var primary := Lower(rs, lang);
    var idx := Index(primary, "-");
    if idx > 0 {
      primary := primary[..idx];
    }
    if primary == "en" {
      stopWords := EN_STOP_WORDS;
    }
    var meaningful := KeepMeaningful(rs, stopWords, Fields(rs.space, title));
    if |meaningful| > MAX_QUERY_WORDS {
      meaningful := meaningful[..MAX_QUERY_WORDS];
    }
    query := Join(meaningful);
    if city != "" && !Contains(Lower(rs, query), Lower(rs, city)) {
      query := query + " " + city;
    }
  }

  /** The loop over the words of the title. */
  method KeepMeaningful(rs: Runes, stop: set<string>, words: seq<string>) returns (meaningful: seq<string>)
    ensures meaningful == Meaningful(rs, stop, words)
  {
    meaningful := [];
    for k := 0 to |words|
      invariant meaningful == Meaningful(rs, stop, words[..k])
    {
      assert words[..k + 1][..k] == words[..k];
      var w := Trim(Punct, words[k]);
      if w == "" || Lower(rs, w) in stop || |w| < MIN_WORD_RUNES {
        continue;
      }
      meaningful := meaningful + [w];
    }
    assert words[..|words|] == words;
  }

  // ---- Guarantees

  lemma TrimIsInner(cut: char -> bool, w: string)
    ensures var t := Trim(cut, w); t == "" || (!cut(t[0]) && !cut(t[|t| - 1]))
    ensures forall c | c in Trim(cut, w) :: c in w
  {
    var left := TrimLeft(cut, w);
    TrimLeftIsSuffix(cut, w);
    TrimRightIsPrefix(cut, left);
    forall c | c in Trim(cut, w)
      ensures c in w
    {
      assert c in left;
      var k :| 0 <= k < |left| && left[k] == c;
      assert w[|w| - |left|..][k] == c;
    }
  }

  lemma TrimTwice(cut: char -> bool, w: string)
    ensures Trim(cut, Trim(cut, w)) == Trim(cut, w)
  {
    TrimIsInner(cut, w);
  }

  /** How many of the words qualify. */
  ghost function QualifyingCount(rs: Runes, stop: set<string>, words: seq<string>): nat {
    if words == [] then 0
    else QualifyingCount(rs, stop, words[..|words| - 1]) +
         (if Qualifies(rs, stop, Trim(Punct, words[|words| - 1])) then 1 else 0)
  }

  /** A qualifying word sits at the position given by the number of qualifying words before it. */
  lemma {:induction false} MeaningfulAt(rs: Runes, stop: set<string>, words: seq<string>, k: nat)
    requires k < |words| && Qualifies(rs, stop, Trim(Punct, words[k]))
    ensures |Meaningful(rs, stop, words)| == QualifyingCount(rs, stop, words)
    ensures QualifyingCount(rs, stop, words[..k]) < |Meaningful(rs, stop, words)|
    ensures Meaningful(rs, stop, words)[QualifyingCount(rs, stop, words[..k])] == Trim(Punct, words[k])
  {
    var front := words[..|words| - 1];
    MeaningfulCount(rs, stop, front);
    if k < |front| {
      assert front[..k] == words[..k] && front[k] == words[k];
      MeaningfulAt(rs, stop, front, k);
    }
  }

  lemma {:induction false} MeaningfulCount(rs: Runes, stop: set<string>, words: seq<string>)
    ensures |Meaningful(rs, stop, words)| == QualifyingCount(rs, stop, words)
  {
    if words != [] {
      MeaningfulCount(rs, stop, words[..|words| - 1]);
    }
  }

  /** Every qualifying word is there, at its rank among the qualifying words, and nothing else is. */
  lemma MeaningfulExactly(rs: Runes, stop: set<string>, words: seq<string>)
    ensures |Meaningful(rs, stop, words)| == QualifyingCount(rs, stop, words)
    ensures forall k | 0 <= k < |words| && Qualifies(rs, stop, Trim(Punct, words[k])) ::
              && QualifyingCount(rs, stop, words[..k]) < |Meaningful(rs, stop, words)|
              && Meaningful(rs, stop, words)[QualifyingCount(rs, stop, words[..k])] == Trim(Punct, words[k])
  {
    MeaningfulCount(rs, stop, words);
    forall k | 0 <= k < |words| && Qualifies(rs, stop, Trim(Punct, words[k]))
      ensures QualifyingCount(rs, stop, words[..k]) < |Meaningful(rs, stop, words)|
      ensures Meaningful(rs, stop, words)[QualifyingCount(rs, stop, words[..k])] == Trim(Punct, words[k])
    {
      MeaningfulAt(rs, stop, words, k);
    }
  }

  /** A finished query word: no white space, no outer punctuation, long enough and not a stop word. */
  ghost predicate Finished(rs: Runes, stop: set<string>, w: string) {
    Word(rs.space, w) && Trim(Punct, w) == w && Qualifies(rs, stop, w)
  }

  lemma {:induction false} MeaningfulFinished(rs: Runes, stop: set<string>, words: seq<string>)
    requires forall k | 0 <= k < |words| :: Word(rs.space, words[k])
    ensures forall k | 0 <= k < |Meaningful(rs, stop, words)| :: Finished(rs, stop, Meaningful(rs, stop, words)[k])
  {
    if words != [] {
      var last := words[|words| - 1];
      MeaningfulFinished(rs, stop, words[..|words| - 1]);
      TrimIsInner(Punct, last);
      TrimTwice(Punct, last);
      var w := Trim(Punct, last);
      forall k | 0 <= k < |w|
        ensures !rs.space(w[k])
      {
        assert w[k] in last;
      }
    }
  }

  lemma {:induction false} FinishedStay(rs: Runes, stop: set<string>, ws: seq<string>)
    requires forall k | 0 <= k < |ws| :: Finished(rs, stop, ws[k])
    ensures Meaningful(rs, stop, ws) == ws
  {
    if ws != [] {
      FinishedStay(rs, stop, ws[..|ws| - 1]);
      assert ws == ws[..|ws| - 1] + [ws[|ws| - 1]];
    }
  }

  /**
   * The title part is exactly the first five qualifying words of the title, or all if there are
   * fewer; they are finished words and can be read back from the query.
   */
  lemma TitleWordsReadBack(rs: Runes, stop: set<string>, title: string)
    requires rs.space(' ')
    ensures
      var ws := TitleWords(rs, stop, title);
      && |ws| == (if QualifyingCount(rs, stop, Fields(rs.space, title)) < 5
                  then QualifyingCount(rs, stop, Fields(rs.space, title)) else 5)
      && (forall k | 0 <= k < |ws| :: Finished(rs, stop, ws[k]))
      && Fields(rs.space, Join(ws)) == ws
      && ws <= Meaningful(rs, stop, Fields(rs.space, title))
  {
    FieldsAreWords(rs.space, title);
    MeaningfulFinished(rs, stop, Fields(rs.space, title));
    MeaningfulCount(rs, stop, Fields(rs.space, title));
    SplitJoin(rs.space, TitleWords(rs, stop, title));
  }

  /** English exactly for the primary subtag "en" in any letter case; every other tag, and no tag, means Russian. */
  lemma LanguageExactly(rs: Runes, lang: string, primary: string)
    requires Lawful(rs)
    ensures HasPrimary(lang, primary) && Lower(rs, primary) == "en" ==> StopWords(rs, lang) == EN_STOP_WORDS
    ensures HasPrimary(lang, primary) && Lower(rs, primary) != "en" ==> StopWords(rs, lang) == RU_STOP_WORDS
    ensures StopWords(rs, "") == RU_STOP_WORDS
  {
    if HasPrimary(lang, primary) {
      PrimaryIsLowered(rs, lang, primary);
    }
    NoDash(Lower(rs, ""));
  }

  /** The words of an English title: no stop word such as "the", none shorter than three runes. */
  lemma EnglishTitle(rs: Runes, title: string, lang: string, primary: string, k: nat)
    requires Lawful(rs) && HasPrimary(lang, primary) && Lower(rs, primary) == "en"
    requires k < |TitleWords(rs, StopWords(rs, lang), title)|
    ensures
      var w := TitleWords(rs, StopWords(rs, lang), title)[k];
      |w| >= 3 && Lower(rs, w) !in EN_STOP_WORDS && Lower(rs, w) != "the"
  {
    LanguageExactly(rs, lang, primary);
    FieldsAreWords(rs.space, title);
    MeaningfulFinished(rs, EN_STOP_WORDS, Fields(rs.space, title));
    assert "the" in EN_STOP_WORDS;
  }

  /** Words are joined by one space and carry no outer punctuation. */
  lemma WordsAreClean(rs: Runes, stop: set<string>, title: string, k: nat)
    requires k < |TitleWords(rs, stop, title)|
    ensures
      var w := TitleWords(rs, stop, title)[k];
      w != "" && w[0] !in ".,;:!?\"'()[]{}«»—–-" && w[|w| - 1] !in ".,;:!?\"'()[]{}«»—–-"
  {
    FieldsAreWords(rs.space, title);
    MeaningfulFinished(rs, stop, Fields(rs.space, title));
    TrimIsInner(Punct, TitleWords(rs, stop, title)[k]);
  }

  lemma JoinedBySpace(ws: seq<string>, w: string)
    ensures Join(ws + [w]) == if ws == [] then w else Join(ws) + " " + w
  {
    assert (ws + [w])[..|ws|] == ws;
  }

  /** Which words count: at least three runes and no stop word, compared in lower case. */
  lemma QualifiesExactly(rs: Runes, stop: set<string>, w: string)
    ensures Qualifies(rs, stop, w) <==> |w| >= 3 && Lower(rs, w) !in stop
  {
  }

  /** A city is appended behind one space exactly when the query does not contain it already in some letter case. */
  lemma CityExactly(rs: Runes, stop: set<string>, title: string, city: string)
    ensures
      var words := QueryWith(rs, stop, title, "");
      && words == Join(TitleWords(rs, stop, title))
      && QueryWith(rs, stop, title, city) ==
         if city == "" || Contains(Lower(rs, words), Lower(rs, city)) then words else words + " " + city
  {
  }

  /** Without a city, building a query from a query changes nothing. */
  lemma QueryIsIdempotent(rs: Runes, stop: set<string>, title: string)
    requires rs.space(' ')
    ensures QueryWith(rs, stop, QueryWith(rs, stop, title, ""), "") == QueryWith(rs, stop, title, "")
  {
    TitleWordsReadBack(rs, stop, title);
    FinishedStay(rs, stop, TitleWords(rs, stop, title));
  }

  /** A non-empty city always ends up in the query, whatever its case. */
  lemma CityIsMentioned(rs: Runes, stop: set<string>, title: string, city: string)
    requires city != ""
    ensures Contains(Lower(rs, QueryWith(rs, stop, title, city)), Lower(rs, city))
  {
    AppendedIsContained(rs, Join(TitleWords(rs, stop, title)) + " ", city);
  }

  lemma AppendedIsContained(rs: Runes, front: string, city: string)
    ensures Contains(Lower(rs, front + city), Lower(rs, city))
  {
    var low := Lower(rs, front + city);
    assert low[|front|..|front| + |city|] == Lower(rs, city);
    ContainsAt(low, Lower(rs, city), |front|);
  }

  /** Lower-casing keeps dashes and adds none. */
  ghost predicate Lawful(rs: Runes) {
    forall c :: rs.lower(c) == '-' <==> c == '-'
  }

  lemma DashFound(low: string)
    ensures var r := Index(low, "-"); r == -1 || (0 <= r < |low| && low[r] == '-')
  {
    var r := Index(low, "-");
    IndexIsFirst(low, "-");
    if r != -1 {
      assert low[r..r + 1] == "-";
      assert low[r..r + 1][0] == low[r];
    }
  }

  lemma FirstDash(low: string, n: nat)
    requires n < |low| && low[n] == '-' && forall k | 0 <= k < n :: low[k] != '-'
    ensures Index(low, "-") == n
  {
    assert low[n..n + 1] == "-";
    assert OccursAt(low, "-", n);
    IndexIsFirst(low, "-");
    DashFound(low);
  }

  lemma NoDash(low: string)
    requires forall k | 0 <= k < |low| :: low[k] != '-'
    ensures Index(low, "-") == -1
  {
    DashFound(low);
  }

  /** The language tag is its primary subtag, alone or with further subtags behind a dash. */
  ghost predicate HasPrimary(lang: string, primary: string) {
    && primary != "" && (forall k | 0 <= k < |primary| :: primary[k] != '-')
    && (lang == primary || exists rest :: lang == primary + "-" + rest)
  }

  lemma PrimaryIsLowered(rs: Runes, lang: string, primary: string)
    requires Lawful(rs) && HasPrimary(lang, primary)
    ensures Primary(rs, lang) == Lower(rs, primary)
  {
    var low := Lower(rs, lang);
    assert forall k | 0 <= k < |primary| :: low[k] == rs.lower(primary[k]);
    if lang == primary {
      NoDash(low);
    } else {
      FirstDash(low, |primary|);
      assert low[..|primary|] == Lower(rs, primary);
    }
  }

  /**
   * Region, script and variant subtags and letter case of the language do not matter: two tags with
   * the same lower-cased primary subtag give the same query.
   */
  lemma OnlyPrimarySubtagMatters(rs: Runes, title: string, city: string,
                                 lang: string, primary: string, lang': string, primary': string)
    requires Lawful(rs) && HasPrimary(lang, primary) && HasPrimary(lang', primary')
    requires Lower(rs, primary) == Lower(rs, primary')
    ensures QueryWith(rs, StopWords(rs, lang), title, city) == QueryWith(rs, StopWords(rs, lang'), title, city)
  {
    PrimaryIsLowered(rs, lang, primary);
    PrimaryIsLowered(rs, lang', primary');
  }
}
