/** The value classifiers shared by both extractors: the five anchored regular
    expressions of `data_type_patterns`, tried in the dict's insertion order,
    first match wins.

    Regex semantics kept: `^` anchors at the start (`re.match`); `$` matches at
    the end or just before one final "\n"; the DATETIME pattern has no `$`, so
    it is a prefix test; `[T\s]` accepts `T` or any `str.isspace` character;
    IGNORECASE folds ASCII case and also lets U+017F (long s) match `s`.
    `\d` is read as an ASCII digit only. */
module Patterns {
  import opened Text
  import opened Model

  predicate EndsWithNewline(s: string) {
    |s| > 0 && s[|s| - 1] == '\n'
  }

  /** The text with one trailing "\n" removed. */
  function DropNewline(s: string): string
    requires EndsWithNewline(s)
  {
    s[..|s| - 1]
  }

  // ---- pattern bodies (what must lie between `^` and `$`) ----

  /** `-?\d+` */
  predicate IntegerBody(t: string) {
    (|t| > 0 && AllDigits(t)) || (|t| > 1 && t[0] == '-' && AllDigits(t[1..]))
  }

  /** The text after an optional leading `-`. */
  function Unsigned(t: string): string {
    if |t| > 0 && t[0] == '-' then t[1..] else t
  }

  /** `\d+\.\d+` with the point at position `i`. */
  predicate PointAt(u: string, i: int) {
    0 < i < |u| - 1 && u[i] == '.' && AllDigits(u[..i]) && AllDigits(u[i + 1..])
  }

  /** `-?\d+\.\d+` */
  predicate FloatBody(t: string) {
    var u := Unsigned(t);
    exists i :: 0 < i < |u| - 1 && PointAt(u, i)
  }

  /** Regex IGNORECASE equality of one character with a lower-case pattern character. */
  predicate CaseFoldMatch(c: char, p: char) {
    c == p || AsciiLowerChar(c) == p || (p == 's' && c == '\U{017F}')
  }

  predicate EqualsIgnoreCase(t: string, w: string) {
    |t| == |w| && forall i :: 0 <= i < |t| ==> CaseFoldMatch(t[i], w[i])
  }

  /** `(w1|w2|...)` under IGNORECASE */
  predicate WordBody(words: seq<string>, t: string) {
    exists w :: w in words && EqualsIgnoreCase(t, w)
  }

  /** `\d{4}-\d{2}-\d{2}` */
  predicate DateBody(t: string) {
    |t| == 10 && t[4] == '-' && t[7] == '-'
    && IsDigit(t[0]) && IsDigit(t[1]) && IsDigit(t[2]) && IsDigit(t[3])
    && IsDigit(t[5]) && IsDigit(t[6]) && IsDigit(t[8]) && IsDigit(t[9])
  }

  // ---- the five patterns, anchored ----

  /** `^-?\d+$` */
  predicate IntegerText(s: string) {
    IntegerBody(s) || (EndsWithNewline(s) && IntegerBody(DropNewline(s)))
  }

  /** `^-?\d+\.\d+$` */
  predicate FloatText(s: string) {
    FloatBody(s) || (EndsWithNewline(s) && FloatBody(DropNewline(s)))
  }

  /** `^(w1|w2|...)$` with IGNORECASE */
  predicate WordText(words: seq<string>, s: string) {
    WordBody(words, s) || (EndsWithNewline(s) && WordBody(words, DropNewline(s)))
  }

  /** `^\d{4}-\d{2}-\d{2}$` */
  predicate DateText(s: string) {
    DateBody(s) || (EndsWithNewline(s) && DateBody(DropNewline(s)))
  }

  /** `^\d{4}-\d{2}-\d{2}[T\s]\d{2}:\d{2}:\d{2}` (no end anchor) */
  predicate DateTimePrefix(s: string) {
    |s| >= 19 && DateBody(s[..10]) && (s[10] == 'T' || IsSpace(s[10]))
    && IsDigit(s[11]) && IsDigit(s[12]) && s[13] == ':'
    && IsDigit(s[14]) && IsDigit(s[15]) && s[16] == ':'
    && IsDigit(s[17]) && IsDigit(s[18])
  }

  datatype Pattern =
    | IntegerPattern
    | FloatPattern
    | WordPattern(words: seq<string>)
    | DatePattern
    | DateTimePattern

  /** `pattern.match(s)` is truthy */
  predicate Matches(p: Pattern, s: string) {
    match p
    case IntegerPattern => IntegerText(s)
    case FloatPattern => FloatText(s)
    case WordPattern(words) => WordText(words, s)
    case DatePattern => DateText(s)
    case DateTimePattern => DateTimePrefix(s)
  }

  const JsonBooleanWords: seq<string> := ["true", "false"]
  const XmlBooleanWords: seq<string> := ["true", "false", "yes", "no", "1", "0"]

  /** `JSONExtractor.data_type_patterns`, in insertion order. */
  const JsonPatterns: seq<(DataType, Pattern)> := [
    (Integer, IntegerPattern), (Float, FloatPattern), (Boolean, WordPattern(JsonBooleanWords)),
    (Date, DatePattern), (DateTime, DateTimePattern)]

  /** `XMLExtractor.data_type_patterns`, in insertion order. */
  const XmlPatterns: seq<(DataType, Pattern)> := [
    (Integer, IntegerPattern), (Float, FloatPattern), (Boolean, WordPattern(XmlBooleanWords)),
    (Date, DatePattern), (DateTime, DateTimePattern)]

  /** The loop over the pattern table: the first entry whose tag is in
      `allowed` and whose pattern matches, else STRING. */
  function FirstMatch(table: seq<(DataType, Pattern)>, s: string, allowed: set<DataType>): DataType {
    if table == [] then String
    else if table[0].0 in allowed && Matches(table[0].1, s) then table[0].0
    else FirstMatch(table[1..], s, allowed)
  }

  /** `JSONExtractor._infer_string_type`: only the DATE and DATETIME entries are consulted. */
  function InferStringType(s: string): DataType {
    if s == "" then String else FirstMatch(JsonPatterns, s, {Date, DateTime})
  }

  /** `XMLExtractor._determine_data_type`: every entry is consulted. */
  function ClassifyText(s: string): DataType {
    if s == "" then String
    else FirstMatch(XmlPatterns, s, {Integer, Float, Boolean, Date, DateTime})
  }

  /** The pattern loop over a five-entry table, unrolled. */
  lemma FirstMatchOfFive(t: seq<(DataType, Pattern)>, s: string, allowed: set<DataType>)
    requires |t| == 5
    ensures FirstMatch(t, s, allowed) ==
      if t[0].0 in allowed && Matches(t[0].1, s) then t[0].0
      else if t[1].0 in allowed && Matches(t[1].1, s) then t[1].0
      else if t[2].0 in allowed && Matches(t[2].1, s) then t[2].0
      else if t[3].0 in allowed && Matches(t[3].1, s) then t[3].0
      else if t[4].0 in allowed && Matches(t[4].1, s) then t[4].0
      else String
  {
    var t1 := t[1..];
    var t2 := t1[1..];
    var t3 := t2[1..];
    var t4 := t3[1..];
    assert t4[1..] == [];
    assert FirstMatch(t4, s, allowed) ==
      if t[4].0 in allowed && Matches(t[4].1, s) then t[4].0 else String;
    assert FirstMatch(t3, s, allowed) ==
      if t[3].0 in allowed && Matches(t[3].1, s) then t[3].0 else FirstMatch(t4, s, allowed);
    assert FirstMatch(t2, s, allowed) ==
      if t[2].0 in allowed && Matches(t[2].1, s) then t[2].0 else FirstMatch(t3, s, allowed);
    assert FirstMatch(t1, s, allowed) ==
      if t[1].0 in allowed && Matches(t[1].1, s) then t[1].0 else FirstMatch(t2, s, allowed);
  }

  // ---- the patterns' mutual exclusions ----

  /** A character that is neither a digit nor `.` (nor a leading `-`) rules
      out both numeric patterns. */
  lemma StrayCharNotNumber(t: string, k: nat)
    requires k < |t| && !IsDigit(t[k]) && t[k] != '.'
    requires k == 0 ==> t[k] != '-'
    ensures !IntegerBody(t) && !FloatBody(t)
  {
    if k >= 1 {
      assert t[1..][k - 1] == t[k];
    }
    var u := Unsigned(t);
    var kk := k - (|t| - |u|);
    assert u[kk] == t[k];
    forall i | 0 < i < |u| - 1
      ensures !PointAt(u, i)
    {
      if kk < i {
        assert u[..i][kk] == u[kk];
      } else if kk > i {
        assert u[i + 1..][kk - i - 1] == u[kk];
      }
    }
  }

  lemma NoPointNotFloat(t: string)
    requires forall j :: 0 <= j < |t| ==> t[j] != '.'
    ensures !FloatBody(t)
  {
    var u := Unsigned(t);
    forall i | 0 < i < |u| - 1
      ensures !PointAt(u, i)
    {
      assert u[i] == t[i + (|t| - |u|)];
    }
  }

  lemma IntegerNotFloat(s: string)
    ensures IntegerText(s) ==> !FloatText(s)
  {
    if IntegerText(s) {
      var t := if EndsWithNewline(s) then DropNewline(s) else s;
      if EndsWithNewline(s) {
        StrayCharNotNumber(s, |s| - 1);
      }
      assert IntegerBody(t);
      assert AllDigits(Unsigned(t));
      NoPointNotFloat(t);
    }
  }

  lemma DateNotNumber(s: string)
    ensures DateText(s) ==> !IntegerText(s) && !FloatText(s)
    ensures DateTimePrefix(s) ==> !IntegerText(s) && !FloatText(s)
  {
    if DateText(s) {
      if DateBody(s) {
        assert !EndsWithNewline(s);
        StrayCharNotNumber(s, 4);
      } else {
        var d := DropNewline(s);
        assert d[4] == s[4];
        StrayCharNotNumber(s, 4);
        StrayCharNotNumber(d, 4);
      }
    }
    if DateTimePrefix(s) {
      assert s[..10][4] == s[4];
      StrayCharNotNumber(s, 4);
      if EndsWithNewline(s) {
        assert DropNewline(s)[4] == s[4];
        StrayCharNotNumber(DropNewline(s), 4);
      }
    }
  }

  /** Every character of a word matched against the XML boolean words is a
      letter or digit, and there are at most five of them. */
  lemma WordChars(t: string)
    requires WordBody(XmlBooleanWords, t)
    ensures |t| <= 5
    ensures forall j :: 0 <= j < |t| ==> t[j] != '.' && t[j] != '\n'
  {
    var w :| w in XmlBooleanWords && EqualsIgnoreCase(t, w);
    assert w == "true" || w == "false" || w == "yes" || w == "no" || w == "1" || w == "0";
    forall j | 0 <= j < |t|
      ensures t[j] != '.' && t[j] != '\n'
    {
      assert CaseFoldMatch(t[j], w[j]);
    }
  }

  lemma WordNotFloatNorDate(s: string)
    ensures WordText(XmlBooleanWords, s) ==> !FloatText(s) && !DateText(s) && !DateTimePrefix(s)
  {
    if WordText(XmlBooleanWords, s) {
      if WordBody(XmlBooleanWords, s) {
        WordChars(s);
        assert !EndsWithNewline(s);
        NoPointNotFloat(s);
      } else {
        var d := DropNewline(s);
        WordChars(d);
        NoPointNotFloat(d);
        StrayCharNotNumber(s, |s| - 1);
      }
    }
  }

  // ---- the classifiers as decision lists ----

  /** JSON strings are only ever refined to DATE or DATETIME, each exactly
      when its own pattern matches; everything else stays STRING. */
  lemma InferStringTypeExact(s: string)
    ensures InferStringType(s) in {String, Date, DateTime}
    ensures InferStringType(s) == Date <==> DateText(s)
    ensures InferStringType(s) == DateTime <==> DateTimePrefix(s)
  {
    FirstMatchOfFive(JsonPatterns, s, {Date, DateTime});
  }

  /** Each XML class is exactly its own pattern; the table order only decides
      the overlap of INTEGER with BOOLEAN, which INTEGER wins ("1", "0"). */
  lemma ClassifyTextExact(s: string)
    ensures ClassifyText(s) == Integer <==> IntegerText(s)
    ensures ClassifyText(s) == Float <==> FloatText(s)
    ensures ClassifyText(s) == Boolean <==> WordText(XmlBooleanWords, s) && !IntegerText(s)
    ensures ClassifyText(s) == Date <==> DateText(s)
    ensures ClassifyText(s) == DateTime <==> DateTimePrefix(s)
    ensures ClassifyText(s) == String <==>
      !IntegerText(s) && !FloatText(s) && !WordText(XmlBooleanWords, s)
      && !DateText(s) && !DateTimePrefix(s)
  {
    FirstMatchOfFive(XmlPatterns, s, {Integer, Float, Boolean, Date, DateTime});
    IntegerNotFloat(s);
    DateNotNumber(s);
    WordNotFloatNorDate(s);
  }

  /** The documented examples of the string refinement. */
  lemma InferStringTypeExamples()
    ensures InferStringType("2024-01-15") == Date
    ensures InferStringType("2024-01-15T10:30:00") == DateTime
    ensures InferStringType("2024-01-15 10:30:00Z") == DateTime
    ensures InferStringType("2024-01-15X") == String
    ensures InferStringType("123") == String
    ensures InferStringType("true") == String
  {
    InferStringTypeExact("2024-01-15");
    InferStringTypeExact("2024-01-15T10:30:00");
    InferStringTypeExact("2024-01-15 10:30:00Z");
    InferStringTypeExact("2024-01-15X");
    InferStringTypeExact("123");
    InferStringTypeExact("true");
    assert "2024-01-15T10:30:00"[..10] == "2024-01-15";
    assert "2024-01-15 10:30:00Z"[..10] == "2024-01-15";
  }

  /** "1" and "0" are integers before they are booleans. */
  lemma ClassifyTextIntegerExamples()
    ensures ClassifyText("1") == Integer
    ensures ClassifyText("0") == Integer
    ensures ClassifyText("-42") == Integer
  {
    FirstMatchOfFive(XmlPatterns, "1", {Integer, Float, Boolean, Date, DateTime});
    FirstMatchOfFive(XmlPatterns, "0", {Integer, Float, Boolean, Date, DateTime});
    FirstMatchOfFive(XmlPatterns, "-42", {Integer, Float, Boolean, Date, DateTime});
    assert IntegerBody("1") && IntegerBody("0");
    assert AllDigits("-42"[1..]);
  }

  /** A decimal is FLOAT; a case-insensitive boolean word is BOOLEAN; free text is STRING. */
  lemma ClassifyTextOtherExamples()
    ensures ClassifyText("3.14") == Float
    ensures ClassifyText("YES") == Boolean
    ensures ClassifyText("hello") == String
  {
    DecimalExample();
    UpperWordExample();
    FreeTextExample();
  }

  lemma DecimalExample()
    ensures ClassifyText("3.14") == Float
  {
    ClassifyTextExact("3.14");
    assert FloatBody("3.14") by {
      assert Unsigned("3.14") == "3.14";
      assert "3.14"[..1] == "3" && "3.14"[2..] == "14";
      assert PointAt("3.14", 1);
    }
  }

  lemma UpperWordExample()
    ensures ClassifyText("YES") == Boolean
  {
    ClassifyTextExact("YES");
    assert EqualsIgnoreCase("YES", "yes");
    StrayCharNotNumber("YES", 0);
  }

  lemma FreeTextExample()
    ensures ClassifyText("hello") == String
  {
    ClassifyTextExact("hello");
    StrayCharNotNumber("hello", 0);
    assert !WordBody(XmlBooleanWords, "hello") by {
      forall w | w in XmlBooleanWords
        ensures !EqualsIgnoreCase("hello", w)
      {
        assert w == "true" || w == "false" || w == "yes" || w == "no" || w == "1" || w == "0";
      }
    }
  }
}
