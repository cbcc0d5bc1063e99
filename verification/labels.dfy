/**
 * Treatment labels of a population row and their classification as control,
 * treated or neither. Each label carries the scheme it is read under: a text
 * label is matched by prefix and trailing digit, a numeric code by zero and
 * non-zero.
 */
module Labels {
  import opened Wrappers
  import opened Decimal

  /** A treatment label, tagged with its classification scheme. */
  datatype Label =
    | Text(text: string)        // "control_1", "incentive3", ...
    | Code(code: Option<int>)   // 0 = control, any other present value = treated; None = missing

  /** One individual of the ranked population: its label and its realised outcome. */
  datatype Row = Row(treatment: Label, outcome: int)

  /** The characters the string strip and the regex class \s treat as whitespace (ASCII part). */
  predicate IsSpace(c: char) {
    9 <= c as int <= 13 || 28 <= c as int <= 32
  }

  function LowerChar(c: char): char {
    if 'A' <= c <= 'Z' then (c as int + 32) as char else c
  }

  function Lower(s: string): (r: string)
    ensures |r| == |s|
    ensures forall i :: 0 <= i < |s| ==> r[i] == LowerChar(s[i])
  {
    if s == [] then [] else [LowerChar(s[0])] + Lower(s[1..])
  }

  function StripLeft(s: string): (r: string)
    ensures |r| <= |s| && r == s[|s| - |r|..]
    ensures forall i :: 0 <= i < |s| - |r| ==> IsSpace(s[i])
    ensures r != [] ==> !IsSpace(r[0])
  {
    if s != [] && IsSpace(s[0]) then StripLeft(s[1..]) else s
  }

  function StripRight(s: string): (r: string)
    ensures |r| <= |s| && r == s[..|r|]
    ensures forall i :: |r| <= i < |s| ==> IsSpace(s[i])
    ensures r != [] ==> !IsSpace(r[|r| - 1])
  {
    if s != [] && IsSpace(s[|s| - 1]) then StripRight(s[..|s| - 1]) else s
  }

  /**
   * Whitespace removed from both ends: what is left neither starts nor ends
   * with whitespace, and it is a contiguous part of `s` whose surroundings are
   * all whitespace.
   */
  function Strip(s: string): (r: string)
    ensures r == [] || (!IsSpace(r[0]) && !IsSpace(r[|r| - 1]))
    ensures exists k :: 0 <= k <= |s| - |r| && r == s[k..][..|r|] &&
              (forall i :: 0 <= i < k ==> IsSpace(s[i])) &&
              (forall i :: k + |r| <= i < |s| ==> IsSpace(s[i]))
  {
    var l := StripLeft(s);
    var r := StripRight(l);
    StrippedBetweenSpaces(s, l, r);
    r
  }

  /**
   * A suffix `l` of `s` after whitespace, cut to a prefix `r` before
   * whitespace, sits in `s` between two runs of whitespace.
   */
  lemma StrippedBetweenSpaces(s: string, l: string, r: string)
    requires |l| <= |s| && l == s[|s| - |l|..]
    requires forall i :: 0 <= i < |s| - |l| ==> IsSpace(s[i])
    requires |r| <= |l| && r == l[..|r|]
    requires forall i :: |r| <= i < |l| ==> IsSpace(l[i])
    ensures var k := |s| - |l|;
      0 <= k <= |s| - |r| && r == s[k..][..|r|] &&
      (forall i :: 0 <= i < k ==> IsSpace(s[i])) &&
      (forall i :: k + |r| <= i < |s| ==> IsSpace(s[i]))
  {
    var k := |s| - |l|;
    forall i | k + |r| <= i < |s|
      ensures IsSpace(s[i])
    {
      assert s[i] == l[i - k];
    }
  }

  predicate StartsWith(s: string, prefix: string) {
    |prefix| <= |s| && s[..|prefix|] == prefix
  }

  /** The regular expression (\d)\s*$ finds a match: a digit followed only by whitespace. */
  predicate HasTrailingDigit(t: string)
    decreases |t|
  {
    |t| > 0 &&
    (IsDigit(t[|t| - 1]) || (IsSpace(t[|t| - 1]) && HasTrailingDigit(t[..|t| - 1])))
  }

  /** The trimmed, lower-cased label the text scheme matches against. */
  function Normalized(s: string): string {
    Lower(Strip(s))
  }

  /** Text: the normalised label starts with "control". Code: the value is 0. */
  predicate IsControl(l: Label) {
    match l
    case Text(s) => StartsWith(Normalized(s), "control")
    case Code(v) => v == Some(0)
  }

  /**
   * Text: not control and the normalised label ends in a digit (followed by
   * whitespace only). Code: present and non-zero.
   */
  predicate IsTreated(l: Label) {
    match l
    case Text(s) => !IsControl(l) && HasTrailingDigit(Normalized(s))
    case Code(v) => v.Some? && v.value != 0
  }

  /**
   * A treated row is never a control row, and a text label is treated exactly
   * when it is not control and its last non-blank character is a digit.
   */
  lemma TreatedMeaning(l: Label)
    ensures IsTreated(l) ==> !IsControl(l)
    ensures l.Text? ==>
      (IsTreated(l) <==>
        !IsControl(l) && Normalized(l.text) != [] &&
        IsDigit(Normalized(l.text)[|Normalized(l.text)| - 1]))
  {
    if l.Text? {
      NormalizedEndsInNonSpace(l.text);
      TrailingDigitOfTrimmed(Normalized(l.text));
    }
  }

  /** Lower-casing keeps the stripped label free of trailing whitespace. */
  lemma NormalizedEndsInNonSpace(s: string)
    ensures Normalized(s) == [] || !IsSpace(Normalized(s)[|Normalized(s)| - 1])
  {
    var r := Strip(s);
    LowerKeepsSpace(r);
  }

  /** The group a label falls in; never both control and treated. */
  datatype Group = Control | Treated | Unclassified

  function Classify(l: Label): (g: Group)
    ensures g == Control <==> IsControl(l)
    ensures g == Treated <==> IsTreated(l)
  {
    if IsControl(l) then Control else if IsTreated(l) then Treated else Unclassified
  }

  lemma LowerKeepsSpace(s: string)
    ensures s == [] || (IsSpace(Lower(s)[0]) == IsSpace(s[0]) &&
                        IsSpace(Lower(s)[|s| - 1]) == IsSpace(s[|s| - 1]))
  {
  }

  /** On a string that does not end in whitespace the regex reduces to "the last character is a digit". */
  lemma TrailingDigitOfTrimmed(t: string)
    requires t == [] || !IsSpace(t[|t| - 1])
    ensures HasTrailingDigit(t) <==> t != [] && IsDigit(t[|t| - 1])
  {
  }

  /** A mixed-case control label with a trailing blank is control. */
  lemma ControlExample(s: string)
    requires s == "Control_2 "
    ensures IsControl(Text(s)) && !IsTreated(Text(s))
  {
    ControlExampleNormalized(s);
  }

  lemma ControlExampleNormalized(s: string)
    requires s == "Control_2 "
    ensures StartsWith(Normalized(s), "control")
  {
    ControlExampleStripped(s);
    ControlExampleLowered(s[..9]);
  }

  lemma ControlExampleStripped(s: string)
    requires s == "Control_2 "
    ensures Strip(s) == s[..9]
  {
    var u := s[..9];
    assert StripLeft(s) == s;
    assert StripRight(u) == u;
    assert StripRight(s) == u;
  }

  lemma ControlExampleLowered(u: string)
    requires u == "Control_2"
    ensures StartsWith(Lower(u), "control")
  {
    var t := Lower(u);
    forall i | 0 <= i < 7
      ensures t[..7][i] == "control"[i]
    {
      assert t[i] == LowerChar(u[i]);
    }
  }

  /** A label ending in a digit that is not control is treated. */
  lemma TreatedExample(s: string)
    requires s == "incentive3"
    ensures IsTreated(Text(s)) && !IsControl(Text(s))
  {
    assert StripLeft(s) == s;
    assert StripRight(s) == s;
    var t := Lower(s);
    assert t[0] == LowerChar(s[0]) == 'i';
    assert t[9] == LowerChar(s[9]) == '3';
    assert t[..7] != "control" by {
      assert t[..7][0] != "control"[0];
    }
  }

  /** A label with no trailing digit is neither treated nor control. */
  lemma NeitherExample(s: string)
    requires s == "incentive"
    ensures !IsControl(Text(s)) && !IsTreated(Text(s))
  {
    assert StripLeft(s) == s;
    assert StripRight(s) == s;
    var t := Lower(s);
    assert t[0] == LowerChar(s[0]) == 'i';
    assert t[8] == LowerChar(s[8]) == 'e';
    assert t[..7] != "control" by {
      assert t[..7][0] != "control"[0];
    }
  }

  /** Numeric codes: 0 is control, a present non-zero code is treated, a missing one neither. */
  lemma CodeExamples()
    ensures IsControl(Code(Some(0))) && !IsTreated(Code(Some(0)))
    ensures IsTreated(Code(Some(2))) && IsTreated(Code(Some(-1)))
    ensures !IsControl(Code(None)) && !IsTreated(Code(None))
  {
  }
}
