/** Splitting, trimming and joining of texts, over an arbitrary notion of white space. */
module Words {

  predicate Blank(space: char -> bool, s: string) {
    forall k | 0 <= k < |s| :: space(s[k])
  }

  /** A non-empty run of non-space characters. */
  predicate Word(space: char -> bool, s: string) {
    s != "" && forall k | 0 <= k < |s| :: !space(s[k])
  }

  /** Number of leading spaces. */
  function Leading(space: char -> bool, s: string): (n: nat)
    ensures n <= |s|
    ensures forall k | 0 <= k < n :: space(s[k])
    ensures n < |s| ==> !space(s[n])
  {
    if s != "" && space(s[0]) then 1 + Leading(space, s[1..]) else 0
  }

  /** Length without trailing spaces. */
  function Solid(space: char -> bool, s: string): (n: nat)
    ensures n <= |s|
    ensures forall k | n <= k < |s| :: space(s[k])
    ensures n > 0 ==> !space(s[n - 1])
  {
    if s != "" && space(s[|s| - 1]) then Solid(space, s[..|s| - 1]) else |s|
  }

  function TrimLeft(space: char -> bool, s: string): string {
    s[Leading(space, s)..]
  }

  function TrimRight(space: char -> bool, s: string): string {
    s[..Solid(space, s)]
  }

  /** strings.TrimSpace */
  function Trim(space: char -> bool, s: string): string {
    TrimRight(space, TrimLeft(space, s))
  }

  /** Length of the leading word. */
  function Span(space: char -> bool, s: string): (n: nat)
    ensures n <= |s|
    ensures forall k | 0 <= k < n :: !space(s[k])
    ensures n < |s| ==> space(s[n])
  {
    if s == "" || space(s[0]) then 0 else 1 + Span(space, s[1..])
  }

  /** strings.Fields */
  function Fields(space: char -> bool, s: string): seq<string>
    decreases |s|
  {
    if s == "" then []
    else if space(s[0]) then Fields(space, s[1..])
    else [s[..Span(space, s)]] + Fields(space, s[Span(space, s)..])
  }

  /** strings.Join with a single space. */
  function Join(ws: seq<string>): string {
    if ws == [] then "" else if |ws| == 1 then ws[0] else Join(ws[..|ws| - 1]) + " " + ws[|ws| - 1]
  }

  lemma LeadingIs(space: char -> bool, s: string, n: nat)
    requires n <= |s| && (forall k | 0 <= k < n :: space(s[k])) && (n < |s| ==> !space(s[n]))
    ensures Leading(space, s) == n
  {
  }

  lemma SolidIs(space: char -> bool, s: string, n: nat)
    requires n <= |s| && (forall k | n <= k < |s| :: space(s[k])) && (n > 0 ==> !space(s[n - 1]))
    ensures Solid(space, s) == n
  {
  }

  lemma TrimLeftBlank(space: char -> bool, pad: string, s: string)
    requires Blank(space, pad)
    ensures TrimLeft(space, pad + s) == TrimLeft(space, s)
  {
    var n := Leading(space, s);
    forall k | 0 <= k < |pad| + n
      ensures space((pad + s)[k])
    {
      if k >= |pad| {
        assert (pad + s)[k] == s[k - |pad|];
      }
    }
    LeadingIs(space, pad + s, |pad| + n);
  }

  lemma TrimRightKeeps(space: char -> bool, s: string, tail: string)
    requires s != "" && !space(s[|s| - 1])
    ensures TrimRight(space, s + tail) == s + TrimRight(space, tail)
  {
    var n := Solid(space, tail);
    forall k | |s| + n <= k < |s + tail|
      ensures space((s + tail)[k])
    {
      assert (s + tail)[k] == tail[k - |s|];
    }
    SolidIs(space, s + tail, |s| + n);
  }

  lemma TrimRightIsPrefix(space: char -> bool, s: string)
    ensures TrimRight(space, s) <= s
    ensures Blank(space, s[|TrimRight(space, s)|..])
    ensures var t := TrimRight(space, s); t == "" || !space(t[|t| - 1])
  {
  }

  lemma {:induction false} FieldsAreWords(space: char -> bool, s: string)
    ensures forall k | 0 <= k < |Fields(space, s)| :: Word(space, Fields(space, s)[k])
    ensures Fields(space, s) == [] <==> Blank(space, s)
    decreases |s|
  {
    if s != "" {
      if space(s[0]) {
        FieldsAreWords(space, s[1..]);
        assert forall k | 1 <= k < |s| :: s[k] == s[1..][k - 1];
      } else {
        FieldsAreWords(space, s[Span(space, s)..]);
      }
    }
  }

  lemma {:induction false} FieldsSkip(space: char -> bool, pad: string, s: string)
    requires Blank(space, pad)
    ensures Fields(space, pad + s) == Fields(space, s)
  {
    if pad == "" {
      assert pad + s == s;
    } else {
      assert (pad + s)[1..] == pad[1..] + s;
      FieldsSkip(space, pad[1..], s);
    }
  }

  lemma {:induction false} SpanWord(space: char -> bool, w: string, rest: string)
    requires forall k | 0 <= k < |w| :: !space(w[k])
    requires rest == "" || space(rest[0])
    ensures Span(space, w + rest) == |w|
  {
    if w == "" {
      assert w + rest == rest;
    } else {
      assert (w + rest)[1..] == w[1..] + rest;
      SpanWord(space, w[1..], rest);
    }
  }

  lemma FieldsFirst(space: char -> bool, w: string, rest: string)
    requires Word(space, w) && (rest == "" || space(rest[0]))
    ensures Fields(space, w + rest) == [w] + Fields(space, rest)
  {
    SpanWord(space, w, rest);
    assert (w + rest)[..|w|] == w && (w + rest)[|w|..] == rest;
  }

  lemma {:induction false} FieldsPadRight(space: char -> bool, s: string, pad: string)
    requires Blank(space, pad)
    ensures Fields(space, s + pad) == Fields(space, s)
    decreases |s|
  {
    if s == "" {
      assert s + pad == pad + "";
      FieldsSkip(space, pad, "");
    } else if space(s[0]) {
      assert (s + pad)[1..] == s[1..] + pad;
      FieldsPadRight(space, s[1..], pad);
    } else {
      var n := Span(space, s);
      var w, rest := s[..n], s[n..];
      assert s == w + rest && s + pad == w + (rest + pad);
      FieldsFirst(space, w, rest + pad);
      FieldsPadRight(space, rest, pad);
    }
  }

  lemma TrimLeftIsSuffix(space: char -> bool, s: string)
    ensures |TrimLeft(space, s)| <= |s| && s[|s| - |TrimLeft(space, s)|..] == TrimLeft(space, s)
    ensures Blank(space, s[..|s| - |TrimLeft(space, s)|])
    ensures var t := TrimLeft(space, s); t == "" || !space(t[0])
  {
  }

  lemma FieldsPadded(space: char -> bool, pad: string, s: string, tail: string)
    requires Blank(space, pad) && Blank(space, tail)
    ensures Fields(space, pad + (s + tail)) == Fields(space, s)
  {
    FieldsSkip(space, pad, s + tail);
    FieldsPadRight(space, s, tail);
  }

  /** Trimming takes blank text off both ends. */
  lemma TrimSplits(space: char -> bool, s: string) returns (pad: string, tail: string)
    ensures Blank(space, pad) && Blank(space, tail) && s == pad + (Trim(space, s) + tail)
  {
    var left := TrimLeft(space, s);
    TrimLeftIsSuffix(space, s);
    TrimRightIsPrefix(space, left);
    pad, tail := s[..|s| - |left|], left[|Trim(space, s)|..];
  }

  lemma FieldsTrim(space: char -> bool, s: string)
    ensures Fields(space, Trim(space, s)) == Fields(space, s)
  {
    var pad, tail := TrimSplits(space, s);
    FieldsPadded(space, pad, Trim(space, s), tail);
  }

  /** Splitting undoes joining. */
  lemma {:induction false} SplitJoin(space: char -> bool, ws: seq<string>)
    requires space(' ') && forall k | 0 <= k < |ws| :: Word(space, ws[k])
    ensures Fields(space, Join(ws)) == ws
  {
    if |ws| == 1 {
      FieldsFirst(space, ws[0], "");
      assert ws[0] + "" == ws[0];
    } else if |ws| > 1 {
      var front, last := ws[..|ws| - 1], ws[|ws| - 1];
      SplitJoin(space, front);
      FieldsSnoc(space, Join(front), last);
    }
  }

  lemma {:induction false} FieldsSnoc(space: char -> bool, s: string, w: string)
    requires space(' ') && Word(space, w)
    ensures Fields(space, s + " " + w) == Fields(space, s) + [w]
    decreases |s|
  {
    if s == "" {
      assert s + " " + w == " " + w;
      FieldsSkip(space, " ", w);
      FieldsFirst(space, w, "");
      assert w + "" == w;
    } else if space(s[0]) {
      assert (s + " " + w)[1..] == s[1..] + " " + w;
      FieldsSnoc(space, s[1..], w);
    } else {
      var n := Span(space, s);
      var v, rest := s[..n], s[n..];
      assert s + " " + w == v + (rest + " " + w);
      FieldsFirst(space, v, rest + " " + w);
      FieldsSnoc(space, rest, w);
      assert [v] + (Fields(space, rest) + [w]) == [v] + Fields(space, rest) + [w];
    }
  }
}
