/** The human-readable rendering of `utils/helpers.py`: a schema as a list of
    lines, nested elements indented further. */
module Pretty {
  import opened Wrappers
  import opened Text
  import opened Model

  // ---- Python `repr` of example values ----

  /** The quote `repr` puts around a string: double quotes when the string
      holds a single quote and no double quote, single quotes otherwise. */
  function QuoteFor(s: string): char {
    if '\'' in s && '"' !in s then '"' else '\''
  }

  function HexDigit(n: nat): char
    requires n < 16
  {
    if n < 10 then ('0' as int + n) as char else ('a' as int + n - 10) as char
  }

  /** One character inside a `repr`ed string. */
  function EscapeChar(c: char, q: char): string {
    if c == '\\' then "\\\\"
    else if c == q then ['\\', q]
    else if c == '\n' then "\\n"
    else if c == '\r' then "\\r"
    else if c == '\t' then "\\t"
    else if c < ' ' || c == 127 as char then
      ['\\', 'x', HexDigit(c as int / 16), HexDigit(c as int % 16)]
    else [c]
  }

  function Escape(s: string, q: char): string {
    if s == [] then "" else EscapeChar(s[0], q) + Escape(s[1..], q)
  }

  function StrRepr(s: string): string {
    var q := QuoteFor(s);
    [q] + Escape(s, q) + [q]
  }

  /** `repr` of a value `json.load` produced; a float keeps its source text. */
  function Repr(j: Json): string
    decreases j, 1
  {
    match j
    case JNull => "None"
    case JBool(b) => BoolRepr(b)
    case JInt(i) => IntToString(i)
    case JFloat(r) => r
    case JStr(s) => StrRepr(s)
    case JArr(items) => ListRepr(items)
    case JObj(fields) => "{" + FieldsRepr(fields) + "}"
    case JOther => "<object>"
  }

  /** `repr` of a list: the items' `repr`s, comma-separated, in brackets. */
  function ListRepr(items: seq<Json>): string
    decreases items, 2
  {
    "[" + ItemsRepr(items) + "]"
  }

  function ItemsRepr(items: seq<Json>): string
    decreases items, 1
  {
    if items == [] then ""
    else if |items| == 1 then Repr(items[0])
    else Repr(items[0]) + ", " + ItemsRepr(items[1..])
  }

  function FieldsRepr(fields: seq<(string, Json)>): string
    decreases fields, 1
  {
    if fields == [] then ""
    else
      assert fields[0].1 < fields[0];
      var entry := StrRepr(fields[0].0) + ": " + Repr(fields[0].1);
      if |fields| == 1 then entry else entry + ", " + FieldsRepr(fields[1..])
  }

  /** `str` of an optional string: the string, or "None". */
  function OptStr(s: Option<string>): string {
    match s
    case Some(v) => v
    case None => "None"
  }

  // ---- the element block ----

  /** `_format_element_pretty(element, indent)` */
  function ElementLines(e: Element, indent: nat): seq<string>
    decreases e, 2
  {
    HeadLines(e, indent)
    + AttributeSection(e, indent)
    + PropertySection(e, indent)
    + ArraySection(e, indent)
  }

  /** Name, type and required flag, then description and examples when set. */
  function HeadLines(e: Element, indent: nat): seq<string> {
    Indent(HeadTexts(e), indent)
  }

  function HeadTexts(e: Element): (ts: seq<string>)
    ensures forall i :: 0 <= i < |ts| ==> |ts[i]| > 0 && ts[i][0] in "NTRDE"
  {
    ["Name: " + e.name, "Type: " + e.dataType.Value(), "Required: " + BoolRepr(e.required)]
    + (if NonEmpty(e.description) then ["Description: " + e.description.value] else [])
    + (if e.examples != [] then ["Examples: " + ListRepr(e.examples)] else [])
  }

  /** Each text behind `indent` spaces. */
  function Indent(ts: seq<string>, indent: nat): (ls: seq<string>)
    ensures |ls| == |ts|
    ensures forall i :: 0 <= i < |ts| ==> ls[i] == Spaces(indent) + ts[i]
  {
    seq(|ts|, i requires 0 <= i < |ts| => Spaces(indent) + ts[i])
  }

  function AttributeSection(e: Element, indent: nat): seq<string> {
    if e.attributes == [] then []
    else [Spaces(indent) + "Attributes:"] + AttributeLines(e.attributes, indent)
  }

  /** One `  name: type (required: flag)` line per attribute. */
  function AttributeLines(attrs: seq<(string, Attribute)>, indent: nat): (ls: seq<string>)
    ensures |ls| == |attrs|
  {
    if attrs == [] then []
    else
      [Spaces(indent) + "  " + attrs[0].0 + ": " + attrs[0].1.dataType.Value()
       + " (required: " + BoolRepr(attrs[0].1.required) + ")"]
      + AttributeLines(attrs[1..], indent)
  }

  function PropertySection(e: Element, indent: nat): seq<string>
    decreases e, 1
  {
    if e.properties == [] then []
    else [Spaces(indent) + "Properties:"] + PropertyLines(e.properties, indent)
  }

  /** Per property: a `  name:` header, then the property's block four
      columns deeper. */
  function PropertyLines(ps: seq<(string, Element)>, indent: nat): seq<string>
    decreases ps, 3
  {
    if ps == [] then []
    else
      assert ps[0].1 < ps[0];
      PropertyBlock(ps[0].0, ps[0].1, indent) + PropertyLines(ps[1..], indent)
  }

  function PropertyBlock(name: string, p: Element, indent: nat): seq<string>
    decreases p, 3
  {
    [Spaces(indent) + "  " + name + ":"] + ElementLines(p, indent + 4)
  }

  function ArraySection(e: Element, indent: nat): seq<string>
    decreases e, 1
  {
    match e.arrayType
    case Some(a) => [Spaces(indent) + "Array Type:"] + ElementLines(a, indent + 2)
    case None => []
  }

  // ---- the schema ----

  /** `"\n".join(lines)` */
  function Join(ls: seq<string>): string {
    if ls == [] then ""
    else if |ls| == 1 then ls[0]
    else ls[0] + "\n" + Join(ls[1..])
  }

  /** `s.split("\n")`: the pieces between newlines; never empty. */
  function Split(s: string): (ls: seq<string>)
    ensures |ls| >= 1
  {
    if s == [] then [""]
    else if s[0] == '\n' then [""] + Split(s[1..])
    else var r := Split(s[1..]); [[s[0]] + r[0]] + r[1..]
  }

  /** A piece without a newline, then a newline, splits off as one line. */
  lemma {:induction false} SplitLine(a: string, b: string)
    requires '\n' !in a
    ensures Split(a + "\n" + b) == [a] + Split(b)
    ensures Split(a) == [a]
  {
    if a == [] {
      assert a + "\n" + b == "\n" + b;
      assert ("\n" + b)[1..] == b;
    } else {
      SplitLine(a[1..], b);
      assert (a + "\n" + b)[1..] == a[1..] + "\n" + b;
      assert [a[0]] + a[1..] == a;
    }
  }

  /** Joining lines that hold no newline and splitting the text again
      gives the lines back. */
  lemma {:induction false} SplitJoin(ls: seq<string>)
    requires ls != []
    requires forall i :: 0 <= i < |ls| ==> '\n' !in ls[i]
    ensures Split(Join(ls)) == ls
  {
    SplitLine(ls[0], "");
    if |ls| > 1 {
      SplitJoin(ls[1..]);
      SplitLine(ls[0], Join(ls[1..]));
      assert [ls[0]] + ls[1..] == ls;
    }
  }

  /** The lines of `_format_schema_pretty(schema)`. */
  function SchemaLines(s: Schema): (ls: seq<string>)
    ensures |ls| >= 8 && ls[0] == "Schema: " + s.name && ls[7] == ""
  {
    ["Schema: " + s.name,
     "Type: " + s.fileType,
     "Version: " + s.version,
     "Created: " + OptStr(s.createdAt),
     "Total Elements: " + IntToString(s.totalElements),
     "Total Attributes: " + IntToString(s.totalAttributes),
     "Max Depth: " + IntToString(s.maxDepth),
     ""]
    + (if NonEmpty(s.description) then ["Description: " + s.description.value, ""] else [])
    + (match s.root
       case Some(root) => ["Root Element:"] + ElementLines(root, 2)
       case None => [])
  }

  function FormatSchemaPretty(s: Schema): string {
    Join(SchemaLines(s))
  }

  // ---- indentation ----

  /** `l` begins with at least `n` spaces. */
  predicate IndentedBy(l: string, n: nat) {
    n <= |l| && forall j :: 0 <= j < n ==> l[j] == ' '
  }

  ghost predicate AllIndented(ls: seq<string>, n: nat) {
    forall i :: 0 <= i < |ls| ==> IndentedBy(ls[i], n)
  }

  lemma AllIndentedAppend(a: seq<string>, b: seq<string>, n: nat)
    requires AllIndented(a, n) && AllIndented(b, n)
    ensures AllIndented(a + b, n)
  {
    forall i | 0 <= i < |a + b|
      ensures IndentedBy((a + b)[i], n)
    {
      if i < |a| { assert (a + b)[i] == a[i]; } else { assert (a + b)[i] == b[i - |a|]; }
    }
  }

  lemma AllIndentedDeeper(ls: seq<string>, n: nat, k: nat)
    requires AllIndented(ls, n + k)
    ensures AllIndented(ls, n)
  {
    forall i | 0 <= i < |ls|
      ensures IndentedBy(ls[i], n)
    {
      assert IndentedBy(ls[i], n + k);
    }
  }

  lemma SpacesIndent(n: nat, rest: string)
    ensures IndentedBy(Spaces(n) + rest, n)
  {
    assert forall j :: 0 <= j < n ==> (Spaces(n) + rest)[j] == Spaces(n)[j];
  }

  /** Spaces followed by more spaces. */
  lemma SpacesDeeper(n: nat, rest: string)
    ensures IndentedBy(Spaces(n) + "  " + rest, n + 2)
  {
    var l := Spaces(n) + "  " + rest;
    forall j | 0 <= j < n + 2
      ensures l[j] == ' '
    {
      if j < n {
        assert l[j] == Spaces(n)[j];
      } else {
        assert l[j] == "  "[j - n];
      }
    }
  }

  lemma HeadIndented(e: Element, n: nat)
    ensures AllIndented(HeadLines(e, n), n)
  {
    var ts := HeadTexts(e);
    forall i | 0 <= i < |ts|
      ensures IndentedBy(HeadLines(e, n)[i], n)
    {
      SpacesIndent(n, ts[i]);
    }
  }

  lemma {:induction false} AttributeLinesIndented(attrs: seq<(string, Attribute)>, n: nat)
    ensures AllIndented(AttributeLines(attrs, n), n + 2)
    decreases attrs
  {
    if attrs != [] {
      var a := attrs[0];
      var tail := a.0 + ": " + a.1.dataType.Value() + " (required: " + BoolRepr(a.1.required) + ")";
      SpacesDeeper(n, tail);
      assert Spaces(n) + "  " + a.0 + ": " + a.1.dataType.Value() + " (required: " + BoolRepr(a.1.required) + ")"
        == Spaces(n) + "  " + tail;
      AttributeLinesIndented(attrs[1..], n);
      AllIndentedAppend([Spaces(n) + "  " + tail], AttributeLines(attrs[1..], n), n + 2);
    }
  }

  /** Every line of an element's block at indent `n` starts with `n` spaces:
      attribute lines and property headers sit two columns deeper, property
      blocks four and the array type's block two. */
  lemma {:induction false} ElementIndented(e: Element, n: nat)
    ensures AllIndented(ElementLines(e, n), n)
    decreases e, 2
  {
    HeadIndented(e, n);
    if e.attributes != [] {
      SpacesIndent(n, "Attributes:");
      AttributeLinesIndented(e.attributes, n);
      AllIndentedDeeper(AttributeLines(e.attributes, n), n, 2);
      AllIndentedAppend([Spaces(n) + "Attributes:"], AttributeLines(e.attributes, n), n);
    }
    PropertySectionIndented(e, n);
    ArraySectionIndented(e, n);
    AllIndentedAppend(HeadLines(e, n), AttributeSection(e, n), n);
    AllIndentedAppend(HeadLines(e, n) + AttributeSection(e, n), PropertySection(e, n), n);
    AllIndentedAppend(HeadLines(e, n) + AttributeSection(e, n) + PropertySection(e, n), ArraySection(e, n), n);
  }

  lemma {:induction false} PropertySectionIndented(e: Element, n: nat)
    ensures AllIndented(PropertySection(e, n), n)
    decreases e, 1
  {
    if e.properties != [] {
      SpacesIndent(n, "Properties:");
      PropertyLinesIndented(e.properties, n);
      AllIndentedDeeper(PropertyLines(e.properties, n), n, 2);
      AllIndentedAppend([Spaces(n) + "Properties:"], PropertyLines(e.properties, n), n);
    }
  }

  lemma {:induction false} ArraySectionIndented(e: Element, n: nat)
    ensures AllIndented(ArraySection(e, n), n)
    decreases e, 1
  {
    if e.arrayType.Some? {
      var a := e.arrayType.value;
      var h := [Spaces(n) + "Array Type:"];
      assert ArraySection(e, n) == h + ElementLines(a, n + 2);
      assert AllIndented(h, n) by { SpacesIndent(n, "Array Type:"); }
      assert AllIndented(ElementLines(a, n + 2), n) by {
        ElementIndented(a, n + 2);
        AllIndentedDeeper(ElementLines(a, n + 2), n, 2);
      }
      AllIndentedAppend(h, ElementLines(a, n + 2), n);
    }
  }

  /** Property headers and blocks sit at least two columns deeper. */
  lemma {:induction false} PropertyLinesIndented(ps: seq<(string, Element)>, n: nat)
    ensures AllIndented(PropertyLines(ps, n), n + 2)
    decreases ps, 2
  {
    if ps != [] {
      assert ps[0].1 < ps[0];
      PropertyBlockIndented(ps[0].0, ps[0].1, n);
      PropertyLinesIndented(ps[1..], n);
      AllIndentedAppend(PropertyBlock(ps[0].0, ps[0].1, n), PropertyLines(ps[1..], n), n + 2);
    }
  }

  lemma {:induction false} PropertyBlockIndented(name: string, p: Element, n: nat)
    ensures AllIndented(PropertyBlock(name, p, n), n + 2)
    decreases p, 3
  {
    SpacesDeeper(n, name + ":");
    assert Spaces(n) + "  " + name + ":" == Spaces(n) + "  " + (name + ":");
    ElementIndented(p, n + 4);
    AllIndentedDeeper(ElementLines(p, n + 4), n + 2, 2);
    AllIndentedAppend([Spaces(n) + "  " + name + ":"], ElementLines(p, n + 4), n + 2);
  }

  // ---- where each property's block sits ----

  /** `small` occurs in `big` starting at index `k`. */
  predicate SliceAt<T(==)>(big: seq<T>, k: nat, small: seq<T>) {
    k + |small| <= |big| && big[k..k + |small|] == small
  }

  /** Each property's block (its `  name:` header at indent + 2 followed
      immediately by its own lines at indent + 4) occurs as one contiguous
      slice of the property lines. */
  lemma {:induction false} PropertyBlockAt(ps: seq<(string, Element)>, n: nat, i: nat)
    requires i < |ps|
    ensures exists k: nat :: SliceAt(PropertyLines(ps, n), k, PropertyBlock(ps[i].0, ps[i].1, n))
    decreases ps
  {
    assert ps[0].1 < ps[0];
    var first := PropertyBlock(ps[0].0, ps[0].1, n);
    var rest := PropertyLines(ps[1..], n);
    assert PropertyLines(ps, n) == first + rest;
    if i == 0 {
      assert (first + rest)[0..|first|] == first;
      assert SliceAt(PropertyLines(ps, n), 0, first);
    } else {
      PropertyBlockAt(ps[1..], n, i - 1);
      assert ps[1..][i - 1] == ps[i];
      var b := PropertyBlock(ps[i].0, ps[i].1, n);
      var k: nat :| SliceAt(rest, k, b);
      assert (first + rest)[|first| + k..|first| + k + |b|] == rest[k..k + |b|];
      assert SliceAt(PropertyLines(ps, n), |first| + k, b);
    }
  }

  /** The array type's block closes the element's block, two columns deeper
      under an `Array Type:` line. */
  lemma ArrayBlockLast(e: Element, n: nat)
    requires e.arrayType.Some?
    ensures var ls := ElementLines(e, n);
      var b := [Spaces(n) + "Array Type:"] + ElementLines(e.arrayType.value, n + 2);
      |b| <= |ls| && ls[|ls| - |b|..] == b
  {
    var front := HeadLines(e, n) + AttributeSection(e, n) + PropertySection(e, n);
    var b := ArraySection(e, n);
    assert ElementLines(e, n) == front + b;
    assert (front + b)[|front|..] == b;
  }

  // ---- which section headers appear ----

  /** No head line is a section header: after the indentation the head
      lines start with N, T, R, D or E. */
  lemma HeadNotHeader(e: Element, n: nat, h: string)
    requires |h| > 0 && h[0] in "AP"
    ensures Spaces(n) + h !in HeadLines(e, n)
  {
    var ts := HeadTexts(e);
    var ls := HeadLines(e, n);
    forall i | 0 <= i < |ls|
      ensures ls[i] != Spaces(n) + h
    {
      assert ls[i][n] == ts[i][0];
      assert (Spaces(n) + h)[n] == h[0];
    }
  }

  /** No line indented past `n` is a header at indent `n`. */
  lemma DeeperNotHeader(ls: seq<string>, n: nat, h: string)
    requires AllIndented(ls, n + 2) && |h| > 0 && h[0] != ' '
    ensures Spaces(n) + h !in ls
  {
    forall i | 0 <= i < |ls|
      ensures ls[i] != Spaces(n) + h
    {
      assert IndentedBy(ls[i], n + 2);
      assert (Spaces(n) + h)[n] == h[0];
    }
  }

  /** Two headers that differ at some position after the indentation. */
  lemma HeadersDiffer(n: nat, h1: string, h2: string, j: nat)
    requires j < |h1| && j < |h2| && h1[j] != h2[j]
    ensures Spaces(n) + h1 != Spaces(n) + h2
  {
    assert (Spaces(n) + h1)[n + j] == h1[j];
    assert (Spaces(n) + h2)[n + j] == h2[j];
  }

  /** The Attributes, Properties and Array Type sections are there exactly
      when the element has attributes, properties and an array type. */
  lemma SectionHeaders(e: Element, n: nat)
    ensures var ls := ElementLines(e, n);
      && (Spaces(n) + "Attributes:" in ls <==> e.attributes != [])
      && (Spaces(n) + "Properties:" in ls <==> e.properties != [])
      && (Spaces(n) + "Array Type:" in ls <==> e.arrayType.Some?)
  {
    AttributesHeader(e, n);
    PropertiesHeader(e, n);
    ArrayHeader(e, n);
  }

  lemma AttributesHeader(e: Element, n: nat)
    ensures Spaces(n) + "Attributes:" in ElementLines(e, n) <==> e.attributes != []
  {
    var h := Spaces(n) + "Attributes:";
    assert ElementLines(e, n) == HeadLines(e, n) + AttributeSection(e, n) + PropertySection(e, n) + ArraySection(e, n);
    HeadNotHeader(e, n, "Attributes:");
    if e.attributes != [] {
      assert AttributeSection(e, n)[0] == h;
    }
    NotInPropertySection(e, n, "Attributes:", 0);
    NotInArraySection(e, n, "Attributes:", 1);
  }

  lemma PropertiesHeader(e: Element, n: nat)
    ensures Spaces(n) + "Properties:" in ElementLines(e, n) <==> e.properties != []
  {
    var h := Spaces(n) + "Properties:";
    assert ElementLines(e, n) == HeadLines(e, n) + AttributeSection(e, n) + PropertySection(e, n) + ArraySection(e, n);
    HeadNotHeader(e, n, "Properties:");
    NotInAttributeSection(e, n, "Properties:", 0);
    if e.properties != [] {
      assert PropertySection(e, n)[0] == h;
    }
    NotInArraySection(e, n, "Properties:", 0);
  }

  lemma ArrayHeader(e: Element, n: nat)
    ensures Spaces(n) + "Array Type:" in ElementLines(e, n) <==> e.arrayType.Some?
  {
    var h := Spaces(n) + "Array Type:";
    assert ElementLines(e, n) == HeadLines(e, n) + AttributeSection(e, n) + PropertySection(e, n) + ArraySection(e, n);
    HeadNotHeader(e, n, "Array Type:");
    NotInAttributeSection(e, n, "Array Type:", 1);
    NotInPropertySection(e, n, "Array Type:", 0);
    if e.arrayType.Some? {
      assert ArraySection(e, n)[0] == h;
    }
  }

  /** A header other than "Attributes:" is no line of the attribute section. */
  lemma NotInAttributeSection(e: Element, n: nat, h: string, j: nat)
    requires |h| > 0 && h[0] != ' ' && j < |h| && j < |"Attributes:"| && h[j] != "Attributes:"[j]
    ensures Spaces(n) + h !in AttributeSection(e, n)
  {
    if e.attributes != [] {
      AttributeLinesIndented(e.attributes, n);
      DeeperNotHeader(AttributeLines(e.attributes, n), n, h);
      HeadersDiffer(n, h, "Attributes:", j);
    }
  }

  /** A header other than "Properties:" is no line of the property section. */
  lemma NotInPropertySection(e: Element, n: nat, h: string, j: nat)
    requires |h| > 0 && h[0] != ' ' && j < |h| && j < |"Properties:"| && h[j] != "Properties:"[j]
    ensures Spaces(n) + h !in PropertySection(e, n)
  {
    if e.properties != [] {
      PropertyLinesIndented(e.properties, n);
      DeeperNotHeader(PropertyLines(e.properties, n), n, h);
      HeadersDiffer(n, h, "Properties:", j);
    }
  }

  /** A header other than "Array Type:" is no line of the array section. */
  lemma NotInArraySection(e: Element, n: nat, h: string, j: nat)
    requires |h| > 0 && h[0] != ' ' && j < |h| && j < |"Array Type:"| && h[j] != "Array Type:"[j]
    ensures Spaces(n) + h !in ArraySection(e, n)
  {
    if e.arrayType.Some? {
      ElementIndented(e.arrayType.value, n + 2);
      DeeperNotHeader(ElementLines(e.arrayType.value, n + 2), n, h);
      HeadersDiffer(n, h, "Array Type:", j);
    }
  }

  /** The schema text opens with the `Schema:` line; when a root element is
      present the text ends with `Root Element:` and the root's block at
      indent 2, and otherwise no line announces a root. */
  lemma RootBlock(s: Schema)
    ensures var ls := SchemaLines(s);
      && (s.root.Some? ==>
            var b := ["Root Element:"] + ElementLines(s.root.value, 2);
            |b| <= |ls| && ls[|ls| - |b|..] == b)
      && (s.root.None? ==> "Root Element:" !in ls)
  {
    var meta := ["Schema: " + s.name,
                 "Type: " + s.fileType,
                 "Version: " + s.version,
                 "Created: " + OptStr(s.createdAt),
                 "Total Elements: " + IntToString(s.totalElements),
                 "Total Attributes: " + IntToString(s.totalAttributes),
                 "Max Depth: " + IntToString(s.maxDepth),
                 ""]
      + (if NonEmpty(s.description) then ["Description: " + s.description.value, ""] else []);
    match s.root
    case Some(root) =>
      var b := ["Root Element:"] + ElementLines(root, 2);
      assert SchemaLines(s) == meta + b;
      assert (meta + b)[|meta|..] == b;
    case None =>
      assert SchemaLines(s) == meta;
      forall i | 0 <= i < |meta|
        ensures meta[i] != "Root Element:"
      {
        assert "Root Element:"[0] == 'R';
        if i == 0 { assert meta[i][0] == 'S'; }
        else if i == 1 { assert meta[i][0] == 'T'; }
        else if i == 2 { assert meta[i][0] == 'V'; }
        else if i == 3 { assert meta[i][0] == 'C'; }
        else if i == 4 || i == 5 { assert meta[i][0] == 'T'; }
        else if i == 6 { assert meta[i][0] == 'M'; }
        else if i == 7 || i == 9 { assert |meta[i]| == 0; }
        else { assert meta[i][0] == 'D'; }
      }
  }
}
