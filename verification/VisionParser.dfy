/** Parsing of vision-model answers such as "PHOTO 0.92". */
module VisionParser {
  import opened Domain
  import opened Words

  const CLASSES: seq<string> := ["ILLUSTRATION", "PLACEHOLDER", "SCREENSHOT", "REJECT", "PHOTO", "STOCK", "MAP"]

  /** Per-rune upper-casing, white space, and strconv.ParseFloat (None on error). */
  datatype Runes = Runes(upper: char -> char, space: char -> bool, parseFloat: string -> Option<Float>)

  /** Upper-casing neither creates nor removes white space, and capital letters are not white space. */
  ghost predicate Lawful(rs: Runes) {
    && (forall c :: rs.space(rs.upper(c)) <==> rs.space(c))
    && (forall c | 'A' <= c <= 'Z' :: !rs.space(c))
  }

  const NOTHING := ClassificationResult("", Finite(0.0))

  function Upper(rs: Runes, s: string): string {
    seq(|s|, k requires 0 <= k < |s| => rs.upper(s[k]))
  }

  function Normal(rs: Runes, resp: string): string {
    Upper(rs, Trim(rs.space, resp))
  }

  /** The first label of the list that the text starts with, or "". */
  function FirstMatch(labels: seq<string>, text: string): (r: string)
    ensures r <= text && (r == "" || r in labels)
  {
    if labels == [] then "" else if labels[0] <= text then labels[0] else FirstMatch(labels[1..], text)
  }

  /** The confidence read from what follows the label. */
  function Confidence(rs: Runes, rest: string): Float {
    var fields := Fields(rs.space, rest);
    if fields == [] then Finite(0.0)
    else
      match rs.parseFloat(fields[0])
      case None => Finite(0.0)
      case Some(conf) => if conf.AtMost(0.0) || conf.Above(1.0) then Finite(0.0) else conf
  }

  function Parse(rs: Runes, labels: seq<string>, resp: string): ClassificationResult {
    var text := Normal(rs, resp);
    var tag := FirstMatch(labels, text);
    if tag == "" then NOTHING else ClassificationResult(tag, Confidence(rs, text[|tag|..]))
  }

  method ParseClassificationResult(rs: Runes, resp: string) returns (r: ClassificationResult)
    ensures r == Parse(rs, CLASSES, resp)
  {
    var upper := Normal(rs, resp);
    if upper == "" {
      return NOTHING;
    }
    var matched := "";
    var k := 0;
    assert CLASSES[0..] == CLASSES;
    while k < |CLASSES|
      invariant 0 <= k <= |CLASSES| && matched == ""
      invariant FirstMatch(CLASSES, upper) == FirstMatch(CLASSES[k..], upper)
    {
      assert CLASSES[k..][1..] == CLASSES[k + 1..];
      if CLASSES[k] <= upper {
        matched := CLASSES[k];
        break;
      }
      k := k + 1;
    }
    if matched == "" {
      return NOTHING;
    }
    var remainder := Trim(rs.space, upper[|matched|..]);
    FieldsTrim(rs.space, upper[|matched|..]);
    TrimmedStart(rs.space, upper[|matched|..]);
    if remainder == "" {
      return ClassificationResult(matched, Finite(0.0));
    }
    var fields := Fields(rs.space, remainder);
    FieldsAreWords(rs.space, remainder);
    var conf := rs.parseFloat(fields[0]);
    if conf.None? || conf.value.AtMost(0.0) || conf.value.Above(1.0) {
      return ClassificationResult(matched, Finite(0.0));
    }
    return ClassificationResult(matched, conf.value);
  }

  /** A non-empty trimmed text is not blank. */
  lemma TrimmedStart(space: char -> bool, s: string)
    ensures var t := Trim(space, s); t != "" ==> !Blank(space, t)
  {
    TrimLeftIsSuffix(space, s);
    TrimRightIsPrefix(space, TrimLeft(space, s));
    var t := Trim(space, s);
    if t != "" {
      assert !space(t[|t| - 1]);
    }
  }

  // ---- The label list is prefix-free, so its order does not matter

  lemma LabelsArePrefixFree()
    ensures forall a, b | a in CLASSES && b in CLASSES && a != b :: !(a <= b)
    ensures forall a | a in CLASSES :: a != "" && forall k | 0 <= k < |a| :: 'A' <= a[k] <= 'Z'
  {
    forall i, j | 0 <= i < |CLASSES| && 0 <= j < |CLASSES| && i != j
      ensures !(CLASSES[i] <= CLASSES[j])
    {
      PrefixStart(CLASSES[i], CLASSES[j]);
    }
  }

  lemma PrefixStart(a: string, b: string)
    ensures a <= b && |a| >= 2 ==> |b| >= 2 && a[0] == b[0] && a[1] == b[1]
  {
  }

  lemma PrefixesNest(a: string, b: string, text: string)
    requires a <= text && b <= text
    ensures a <= b || b <= a
  {
  }

  /** Of two labels that a text starts with, both are the same. */
  lemma LabelsDoNotOverlap(a: string, b: string, text: string)
    requires a in CLASSES && b in CLASSES && a <= text && b <= text
    ensures a == b && a != ""
  {
    LabelsArePrefixFree();
    PrefixesNest(a, b, text);
  }

  lemma {:induction false} OnlyMatch(labels: seq<string>, tag: string, text: string)
    requires forall k | 0 <= k < |labels| && labels[k] <= text :: labels[k] == tag
    requires tag in labels && tag <= text
    ensures FirstMatch(labels, text) == tag
  {
    if labels[0] != tag {
      OnlyMatch(labels[1..], tag, text);
    }
  }

  /** A list of known labels finds the one that the text starts with. */
  lemma KnownMatch(labels: seq<string>, tag: string, text: string)
    requires forall l | l in labels :: l in CLASSES
    requires tag in labels && tag <= text
    ensures FirstMatch(labels, text) == tag && tag != ""
  {
    forall k | 0 <= k < |labels| && labels[k] <= text
      ensures labels[k] == tag
    {
      LabelsDoNotOverlap(labels[k], tag, text);
    }
    LabelsDoNotOverlap(tag, tag, text);
    OnlyMatch(labels, tag, text);
  }

  lemma {:induction false} NoMatch(labels: seq<string>, text: string)
    requires forall k | 0 <= k < |labels| :: !(labels[k] <= text)
    ensures FirstMatch(labels, text) == ""
  {
    if labels != [] {
      NoMatch(labels[1..], text);
    }
  }

  /** Any ordering of the same labels parses every answer the same way. */
  lemma LabelOrderIsIrrelevant(rs: Runes, labels: seq<string>, resp: string)
    requires forall l :: l in labels <==> l in CLASSES
    ensures Parse(rs, labels, resp) == Parse(rs, CLASSES, resp)
  {
    var text := Normal(rs, resp);
    if k :| 0 <= k < |CLASSES| && CLASSES[k] <= text {
      KnownMatch(labels, CLASSES[k], text);
      KnownMatch(CLASSES, CLASSES[k], text);
    } else {
      forall m | 0 <= m < |labels|
        ensures !(labels[m] <= text)
      {
        assert labels[m] in CLASSES;
      }
      NoMatch(labels, text);
      NoMatch(CLASSES, text);
    }
  }

  // ---- Rendering and parsing

  lemma UpperConcat(rs: Runes, a: string, b: string)
    ensures Upper(rs, a + b) == Upper(rs, a) + Upper(rs, b)
  {
  }

  lemma UpperBlank(rs: Runes, s: string)
    requires Lawful(rs)
    ensures Blank(rs.space, s) ==> Blank(rs.space, Upper(rs, s))
    ensures Word(rs.space, s) ==> Word(rs.space, Upper(rs, s))
  {
  }

  lemma TrimPadded(space: char -> bool, pad: string, core: string, tail: string)
    requires Blank(space, pad) && core != "" && !space(core[0]) && !space(core[|core| - 1])
    ensures Trim(space, pad + core + tail) == core + TrimRight(space, tail)
  {
    assert pad + core + tail == pad + (core + tail);
    TrimLeftBlank(space, pad, core + tail);
    TrimRightKeeps(space, core, tail);
  }

  lemma ConfidenceAfter(rs: Runes, sep: string, number: string, tail: string, v: real)
    requires Blank(rs.space, sep) && Word(rs.space, number) && (tail == "" || rs.space(tail[0]))
    requires rs.parseFloat(number) == Some(Finite(v)) && 0.0 < v <= 1.0
    ensures Confidence(rs, sep + number + tail) == Finite(v)
  {
    assert sep + number + tail == sep + (number + tail);
    FieldsSkip(rs.space, sep, number + tail);
    FieldsFirst(rs.space, number, tail);
  }

  lemma ParseNormal(rs: Runes, resp: string, tag: string, rest: string)
    requires tag in CLASSES && Normal(rs, resp) == tag + rest
    ensures Parse(rs, CLASSES, resp) == ClassificationResult(tag, Confidence(rs, rest))
  {
    KnownMatch(CLASSES, tag, tag + rest);
    assert (tag + rest)[|tag|..] == rest;
  }

  lemma NormalRendered(rs: Runes, pad: string, spelled: string, sep: string, number: string, tail: string)
    requires Blank(rs.space, pad) && spelled != "" && number != ""
    requires !rs.space(spelled[0]) && !rs.space(number[|number| - 1])
    ensures Normal(rs, pad + spelled + sep + number + tail) ==
            Upper(rs, spelled) + (Upper(rs, sep) + Upper(rs, number) + Upper(rs, TrimRight(rs.space, tail)))
  {
    var core := spelled + sep + number;
    assert pad + spelled + sep + number + tail == pad + core + tail;
    Ends(spelled, sep, number);
    TrimPadded(rs.space, pad, core, tail);
    UpperFour(rs, spelled, sep, number, TrimRight(rs.space, tail));
  }

  lemma Ends(a: string, b: string, c: string)
    requires a != "" && c != ""
    ensures (a + b + c)[0] == a[0] && (a + b + c)[|a + b + c| - 1] == c[|c| - 1]
  {
  }

  lemma UpperFour(rs: Runes, a: string, b: string, c: string, d: string)
    ensures Upper(rs, a + b + c + d) == Upper(rs, a) + (Upper(rs, b) + Upper(rs, c) + Upper(rs, d))
  {
    UpperConcat(rs, a + b + c, d);
    UpperConcat(rs, a + b, c);
    UpperConcat(rs, a, b);
  }

  /**
   * Any spelling of a label, padded anyhow, followed by a number in (0,1] and by noise set off with
   * white space, parses back to that label and number.
   */
  lemma ParseRendered(rs: Runes, tag: string, spelled: string, pad: string, sep: string, number: string, tail: string, v: real)
    requires Lawful(rs) && tag in CLASSES && Upper(rs, spelled) == tag
    requires Blank(rs.space, pad) && Blank(rs.space, sep)
    requires Word(rs.space, number) && (tail == "" || rs.space(tail[0]))
    requires rs.parseFloat(Upper(rs, number)) == Some(Finite(v)) && 0.0 < v <= 1.0
    ensures Parse(rs, CLASSES, pad + spelled + sep + number + tail) == ClassificationResult(tag, Finite(v))
  {
    LabelStart(rs, tag, spelled);
    NormalRendered(rs, pad, spelled, sep, number, tail);
    var noise := TrimRight(rs.space, tail);
    TrimRightIsPrefix(rs.space, tail);
    ParseNormal(rs, pad + spelled + sep + number + tail, tag, Upper(rs, sep) + Upper(rs, number) + Upper(rs, noise));
    UpperBlank(rs, sep);
    UpperBlank(rs, number);
    ConfidenceAfter(rs, Upper(rs, sep), Upper(rs, number), Upper(rs, noise), v);
  }

  lemma LabelStart(rs: Runes, tag: string, spelled: string)
    requires Lawful(rs) && tag in CLASSES && Upper(rs, spelled) == tag
    ensures spelled != "" && !rs.space(spelled[0])
  {
    LabelsArePrefixFree();
    assert tag[0] == rs.upper(spelled[0]);
  }

  // ---- Range of the confidence

  /** What the number parser is given: the first field after the recognised label, if there is one. */
  function NumberField(rs: Runes, resp: string): Option<string> {
    var tag := FirstMatch(CLASSES, Normal(rs, resp));
    var fields := Fields(rs.space, Normal(rs, resp)[|tag|..]);
    if tag == "" || fields == [] then None else Some(fields[0])
  }

  /** The documented range, 0 or (0,1], holds exactly when the number field does not read as NaN. */
  lemma ConfidenceRange(rs: Runes, resp: string)
    ensures
      var c, n := Parse(rs, CLASSES, resp).confidence, NumberField(rs, resp);
      (c.Finite? && 0.0 <= c.value <= 1.0) <==> !(n.Some? && rs.parseFloat(n.value) == Some(NaN))
  {
  }

  /**
   * The confidence for every answer: 0 without a label, without a number, for an unreadable number
   * and for one outside (0,1]; otherwise the number itself.
   */
  lemma ConfidenceExactly(rs: Runes, resp: string)
    ensures
      var c, n := Parse(rs, CLASSES, resp).confidence, NumberField(rs, resp);
      && (n.None? ==> c == Finite(0.0))
      && (n.Some? && rs.parseFloat(n.value).None? ==> c == Finite(0.0))
      && (n.Some? && rs.parseFloat(n.value).Some? ==>
            match rs.parseFloat(n.value).value
            case Finite(v) => c == Finite(if 0.0 < v <= 1.0 then v else 0.0)
            case Infinite(_) => c == Finite(0.0)
            case NaN => c == NaN)
  {
  }

  /** The label for every answer: the one it starts with after trimming and upper-casing; none gives the zero result. */
  lemma LabelExactly(rs: Runes, resp: string, tag: string)
    requires tag in ["PHOTO", "STOCK", "REJECT", "SCREENSHOT", "ILLUSTRATION", "MAP", "PLACEHOLDER"]
    ensures Parse(rs, CLASSES, resp).cls == tag <==> tag <= Upper(rs, Trim(rs.space, resp))
  {
    LabelsAreKnown(tag);
    if tag <= Normal(rs, resp) {
      KnownMatch(CLASSES, tag, Normal(rs, resp));
    }
  }

  lemma LabelsAreKnown(tag: string)
    ensures tag in CLASSES <==> tag in ["PHOTO", "STOCK", "REJECT", "SCREENSHOT", "ILLUSTRATION", "MAP", "PLACEHOLDER"]
  {
    assert CLASSES == ["ILLUSTRATION", "PLACEHOLDER", "SCREENSHOT", "REJECT", "PHOTO", "STOCK", "MAP"];
  }

  /** An answer that starts with no label is not recognised at all. */
  lemma UnrecognisedExactly(rs: Runes, resp: string)
    ensures Parse(rs, CLASSES, resp) == ClassificationResult("", Finite(0.0)) <==>
            forall tag | tag in CLASSES :: !(tag <= Upper(rs, Trim(rs.space, resp)))
  {
    var text := Normal(rs, resp);
    if k :| 0 <= k < |CLASSES| && CLASSES[k] <= text {
      KnownMatch(CLASSES, CLASSES[k], text);
    } else {
      NoMatch(CLASSES, text);
    }
  }

  lemma LabelEnd(rs: Runes, tag: string, spelled: string)
    requires Lawful(rs) && tag in CLASSES && Upper(rs, spelled) == tag
    ensures spelled != "" && !rs.space(spelled[|spelled| - 1])
  {
    LabelsArePrefixFree();
    Letter(rs, tag, spelled, |tag| - 1);
  }

  lemma Letter(rs: Runes, tag: string, spelled: string, k: nat)
    requires Lawful(rs) && Upper(rs, spelled) == tag && k < |tag| && 'A' <= tag[k] <= 'Z'
    ensures !rs.space(spelled[k])
  {
    assert tag[k] == rs.upper(spelled[k]);
  }

  lemma TrimBare(space: char -> bool, pad: string, core: string, tail: string)
    requires Blank(space, pad) && Blank(space, tail) && core != "" && !space(core[0]) && !space(core[|core| - 1])
    ensures Trim(space, pad + core + tail) == core
  {
    TrimPadded(space, pad, core, tail);
    SolidIs(space, tail, 0);
  }

  /** A bare label, with any padding, has confidence 0. */
  lemma BareLabel(rs: Runes, tag: string, spelled: string, pad: string, tail: string)
    requires Lawful(rs) && tag in CLASSES && Upper(rs, spelled) == tag && Blank(rs.space, pad) && Blank(rs.space, tail)
    ensures Parse(rs, CLASSES, pad + spelled + tail) == ClassificationResult(tag, Finite(0.0))
  {
    LabelStart(rs, tag, spelled);
    LabelEnd(rs, tag, spelled);
    TrimBare(rs.space, pad, spelled, tail);
    assert tag == tag + "";
    ParseNormal(rs, pad + spelled + tail, tag, "");
  }

  /** An answer whose number reads as NaN defeats the documented range. */
  lemma NaNPasses(rs: Runes, tag: string, number: string)
    requires Lawful(rs) && tag in CLASSES && Upper(rs, tag) == tag
    requires Word(rs.space, number) && rs.parseFloat(Upper(rs, number)) == Some(NaN)
    ensures Parse(rs, CLASSES, tag + number) == ClassificationResult(tag, NaN)
  {
    LabelStart(rs, tag, tag);
    NormalBare(rs, tag, number);
    ParseNormal(rs, tag + number, tag, Upper(rs, number));
    UpperBlank(rs, number);
    OneField(rs.space, Upper(rs, number));
  }

  lemma NormalBare(rs: Runes, tag: string, number: string)
    requires tag != "" && number != "" && !rs.space(tag[0]) && !rs.space(number[|number| - 1])
    ensures Normal(rs, tag + number) == Upper(rs, tag) + Upper(rs, number)
  {
    NormalRendered(rs, "", tag, "", number, "");
    assert "" + tag + "" + number + "" == tag + number;
    assert Upper(rs, "") + Upper(rs, number) + Upper(rs, "") == Upper(rs, number);
  }

  lemma OneField(space: char -> bool, w: string)
    requires Word(space, w)
    ensures Fields(space, w) == [w]
  {
    FieldsFirst(space, w, "");
    assert w + "" == w;
  }

  // ---- The legacy parser

  function ParseVisionResponse(rs: Runes, resp: string): string {
    var word := Normal(rs, resp);
    if "PHOTO" <= word then "PHOTO" else if "STOCK" <= word then "STOCK" else if "REJECT" <= word then "REJECT" else ""
  }

  /** The legacy three-class parser is the new parser's class, with the newer classes read as unrecognised. */
  lemma LegacyAgrees(rs: Runes, resp: string)
    ensures
      var cls := Parse(rs, CLASSES, resp).cls;
      ParseVisionResponse(rs, resp) == if cls in ["PHOTO", "STOCK", "REJECT"] then cls else ""
  {
    var text := Normal(rs, resp);
    assert CLASSES[3] == "REJECT" && CLASSES[4] == "PHOTO" && CLASSES[5] == "STOCK";
    if k :| 0 <= k < |CLASSES| && CLASSES[k] <= text {
      KnownMatch(CLASSES, CLASSES[k], text);
      forall m | 0 <= m < |CLASSES| && CLASSES[m] <= text
        ensures CLASSES[m] == CLASSES[k]
      {
        KnownMatch(CLASSES, CLASSES[m], text);
      }
    } else {
      NoMatch(CLASSES, text);
    }
  }
}
