/** `Schema.to_xsd`: a schema element rendered as XML Schema text, one
    declaration per line, nested declarations indented further. */
module Xsd {
  import opened Wrappers
  import opened Text
  import opened Assoc
  import opened Model

  const Header: string :=
    "<?xml version=\"1.0\" encoding=\"UTF-8\"?>\n<xs:schema xmlns:xs=\"http://www.w3.org/2001/XMLSchema\">\n"
  const Footer: string := "</xs:schema>"

  /** One output line: `indent` spaces, the text, a line break. */
  function Line(indent: nat, text: string): (r: string)
    ensures |r| == indent + |text| + 1
  {
    Spaces(indent) + text + "\n"
  }

  /** `Schema.to_xsd()`: the XML declaration, the `xs:schema` envelope around
      the root's declaration at indent 2, or nothing without a root. */
  function ToXsd(s: Schema): (r: string)
    ensures s.root == None <==> r == ""
    ensures s.root.Some? ==> r == Header + ElementXsd(s.root.value, 2) + Footer
  {
    match s.root
    case Some(root) => Header + ElementXsd(root, 2) + Footer
    case None => ""
  }

  /** `_element_to_xsd(element, indent)` */
  function ElementXsd(e: Element, indent: nat): string
    decreases e, 2
  {
    match e.dataType
    case Object => ObjectXsd(e, indent)
    case Array => ArrayXsd(e, indent)
    case _ => ScalarXsd(e, indent)
  }

  /** An OBJECT: a complex type with a sequence of the properties (only when
      there are some) followed by the attribute declarations. */
  function ObjectXsd(e: Element, indent: nat): string
    decreases e, 1
  {
    Line(indent, "<xs:element " + Field("name", e.name) + ">")
    + Line(indent, "  <xs:complexType>")
    + (if e.properties != [] then
         Line(indent, "    <xs:sequence>")
         + PropertiesXsd(e.properties, indent + 6)
         + Line(indent, "    </xs:sequence>")
       else "")
    + AttributesXsd(e.attributes, indent)
    + Line(indent, "  </xs:complexType>")
    + Line(indent, "</xs:element>")
  }

  /** The property declarations, six columns deeper; each is declared under
      its own `name`, not its dict key. */
  function PropertiesXsd(ps: seq<(string, Element)>, indent: nat): string
    decreases ps, 3
  {
    if ps == [] then ""
    else
      assert ps[0].1 < ps[0];
      ElementXsd(ps[0].1, indent) + PropertiesXsd(ps[1..], indent)
  }

  /** The attribute declarations, declared under their dict keys. */
  function AttributesXsd(attrs: seq<(string, Attribute)>, indent: nat): string {
    if attrs == [] then ""
    else AttributeXsd(attrs[0].0, attrs[0].1, indent) + AttributesXsd(attrs[1..], indent)
  }

  /** `use="optional"` for an attribute that is not required, `default` for
      a non-empty default value. */
  function AttributeXsd(name: string, a: Attribute, indent: nat): string {
    Line(indent, AttributeText(name, a))
  }

  /** `key="value"` */
  function Field(key: string, value: string): string {
    key + "=\"" + value + "\""
  }

  function AttributeText(name: string, a: Attribute): string {
    Spaces(4) + ("<xs:attribute " + (Field("name", name) + (" " + (Field("type", "xs:" + a.dataType.Value())
    + (UseText(a) + (DefaultText(a) + "/>"))))))
  }

  function UseText(a: Attribute): string {
    if !a.required then " use=\"optional\"" else ""
  }

  function DefaultText(a: Attribute): string {
    if NonEmpty(a.defaultValue) then " " + Field("default", a.defaultValue.value) else ""
  }

  /** An ARRAY: a sequence of one unbounded `item` typed by the item schema's
      tag, "string" when there is no item schema. */
  function ArrayXsd(e: Element, indent: nat): string {
    Line(indent, "<xs:element " + Field("name", e.name) + ">")
    + Line(indent, "  <xs:complexType>")
    + Line(indent, "    <xs:sequence>")
    + Line(indent, ItemText(e))
    + Line(indent, "    </xs:sequence>")
    + Line(indent, "  </xs:complexType>")
    + Line(indent, "</xs:element>")
  }

  function ItemTypeName(e: Element): string {
    match e.arrayType
    case Some(a) => a.dataType.Value()
    case None => "string"
  }

  function ItemText(e: Element): string {
    Spaces(6) + ("<xs:element " + (Field("name", "item") + (" " + (Field("type", "xs:" + ItemTypeName(e))
    + " maxOccurs=\"unbounded\"/>"))))
  }

  /** Any other tag: a typed element, `minOccurs="0"` when not required. */
  function ScalarXsd(e: Element, indent: nat): string {
    Line(indent, ScalarText(e))
  }

  function ScalarText(e: Element): string {
    "<xs:element " + (Field("name", e.name) + (" " + (Field("type", "xs:" + e.dataType.Value())
    + ((if !e.required then " minOccurs=\"0\"" else "") + "/>"))))
  }

  // ---- reading a declaration line back ----

  /** The text up to the first double quote, and what follows that quote. */
  function ReadQuoted(s: string): (r: Option<(string, string)>)
    ensures r.Some? ==> '"' !in r.value.0 && s == r.value.0 + "\"" + r.value.1
  {
    if s == [] then None
    else if s[0] == '"' then Some(([], s[1..]))
    else
      match ReadQuoted(s[1..])
      case Some(p) => Some(([s[0]] + p.0, p.1))
      case None => None
  }

  /** `key="value"` at the head of `s`: the value and the rest. */
  function ReadField(s: string, key: string): Option<(string, string)> {
    var open := key + "=\"";
    if StartsWith(s, open) then ReadQuoted(s[|open|..]) else None
  }

  /** What an element declaration line says. */
  datatype ElementDecl = ElementDecl(name: string, typeName: string, optional: bool, unbounded: bool)

  /** What an attribute declaration line says. */
  datatype AttributeDecl = AttributeDecl(name: string, typeName: string, optional: bool, default: Option<string>)

  /** The line without its indentation and line break, if it has one. */
  function LineBody(line: string): Option<string> {
    if line == [] || line[|line| - 1] != '\n' then None else Some(TrimLeft(line[..|line| - 1]))
  }

  /** Reads `<xs:element name="N" type="T" [minOccurs="0"|maxOccurs="unbounded"]/>`. */
  function ReadElementLine(line: string): Option<ElementDecl> {
    match LineBody(line)
    case None => None
    case Some(s) => ReadElementBody(s)
  }

  function ReadElementBody(s: string): Option<ElementDecl> {
    if !StartsWith(s, "<xs:element ") then None
    else
      match ReadField(s[12..], "name")
      case None => None
      case Some(p) =>
        if !StartsWith(p.1, " ") then None
        else
          match ReadField(p.1[1..], "type")
          case None => None
          case Some(q) => ReadElementTail(p.0, q.0, q.1)
  }

  function ReadElementTail(name: string, typeName: string, s: string): Option<ElementDecl> {
    if s == "/>" then Some(ElementDecl(name, typeName, false, false))
    else if s == " minOccurs=\"0\"/>" then Some(ElementDecl(name, typeName, true, false))
    else if s == " maxOccurs=\"unbounded\"/>" then Some(ElementDecl(name, typeName, false, true))
    else None
  }

  /** Reads `<xs:attribute name="N" type="T" [use="optional"] [default="D"]/>`. */
  function ReadAttributeLine(line: string): Option<AttributeDecl> {
    match LineBody(line)
    case None => None
    case Some(s) =>
      if !StartsWith(s, "<xs:attribute ") then None
      else
        match ReadField(s[14..], "name")
        case None => None
        case Some(p) =>
          if !StartsWith(p.1, " ") then None
          else
            match ReadField(p.1[1..], "type")
            case None => None
            case Some(q) => ReadAttributeTail(p.0, q.0, q.1)
  }

  function ReadAttributeTail(name: string, typeName: string, s: string): Option<AttributeDecl> {
    var optional := StartsWith(s, " use=\"optional\"");
    var s1 := if optional then s[15..] else s;
    if s1 == "/>" then Some(AttributeDecl(name, typeName, optional, None))
    else if !StartsWith(s1, " ") then None
    else
      match ReadField(s1[1..], "default")
      case Some(d) =>
        if d.1 == "/>" then Some(AttributeDecl(name, typeName, optional, Some(d.0))) else None
      case None => None
  }

  /** Cutting a known prefix off a concatenation. */
  lemma Cut(p: string, r: string)
    ensures StartsWith(p + r, p) && (p + r)[|p|..] == r
  {
    assert (p + r)[..|p|] == p;
  }

  lemma {:induction false} ReadQuotedOf(v: string, rest: string)
    requires '"' !in v
    ensures ReadQuoted(v + "\"" + rest) == Some((v, rest))
    decreases v
  {
    var s := v + "\"" + rest;
    if v == [] {
      assert s == "\"" + rest;
    } else {
      assert s[1..] == v[1..] + "\"" + rest;
      ReadQuotedOf(v[1..], rest);
      assert [v[0]] + v[1..] == v;
    }
  }

  lemma ReadFieldOf(key: string, v: string, rest: string)
    requires '"' !in v
    ensures ReadField(Field(key, v) + rest, key) == Some((v, rest))
  {
    var open := key + "=\"";
    assert Field(key, v) + rest == open + (v + "\"" + rest);
    Cut(open, v + "\"" + rest);
    ReadQuotedOf(v, rest);
  }

  /** The indentation of a line is dropped before it is read. */
  lemma LineBodyOf(n: nat, text: string)
    requires text != [] && !IsSpace(text[0])
    ensures LineBody(Line(n, text)) == Some(text)
  {
    var line := Line(n, text);
    assert line[..|line| - 1] == Spaces(n) + text;
    TrimIndent(n, text);
  }

  /** Spaces inside a line's text add to its indentation. */
  lemma LineDeeper(n: nat, k: nat, body: string)
    ensures Line(n, Spaces(k) + body) == Line(n + k, body)
  {
    assert Spaces(n) + (Spaces(k) + body) == Spaces(n + k) + body;
  }

  lemma {:induction false} TrimIndent(n: nat, text: string)
    requires text != [] && !IsSpace(text[0])
    ensures TrimLeft(Spaces(n) + text) == text
    decreases n
  {
    if n > 0 {
      var s := Spaces(n) + text;
      assert s[1..] == Spaces(n - 1) + text;
      TrimIndent(n - 1, text);
    } else {
      assert Spaces(n) + text == text;
    }
  }

  /** Reads back `name="N" type="T"` followed by `tail`. */
  lemma NameTypeReadBack(name: string, tn: string, tail: string)
    requires '"' !in name && '"' !in tn
    ensures var s := Field("name", name) + (" " + (Field("type", tn) + tail));
      && ReadField(s, "name") == Some((name, " " + (Field("type", tn) + tail)))
      && StartsWith(" " + (Field("type", tn) + tail), " ")
      && ReadField((" " + (Field("type", tn) + tail))[1..], "type") == Some((tn, tail))
  {
    ReadFieldOf("name", name, " " + (Field("type", tn) + tail));
    Cut(" ", Field("type", tn) + tail);
    ReadFieldOf("type", tn, tail);
  }

  lemma ElementBodyOf(name: string, tn: string, tail: string)
    requires '"' !in name && '"' !in tn
    ensures ReadElementBody("<xs:element " + (Field("name", name) + (" " + (Field("type", tn) + tail))))
            == ReadElementTail(name, tn, tail)
  {
    Cut("<xs:element ", Field("name", name) + (" " + (Field("type", tn) + tail)));
    NameTypeReadBack(name, tn, tail);
  }

  /** A scalar element's declaration reads back as its name, its tag's XSD
      type, and "optional" exactly when the element is not required. */
  lemma ScalarReadBack(e: Element, indent: nat)
    requires '"' !in e.name
    ensures ReadElementLine(ScalarXsd(e, indent)) ==
      Some(ElementDecl(e.name, "xs:" + e.dataType.Value(), !e.required, false))
  {
    var tn := "xs:" + e.dataType.Value();
    var tail := (if !e.required then " minOccurs=\"0\"" else "") + "/>";
    LineBodyOf(indent, ScalarText(e));
    QuoteFreeType(e.dataType);
    ElementBodyOf(e.name, tn, tail);
  }

  /** An array's item line reads back as an unbounded `item` of the item
      schema's tag, "string" without one. */
  lemma ItemReadBack(e: Element, indent: nat)
    ensures ReadElementLine(Line(indent, ItemText(e))) ==
      Some(ElementDecl("item", "xs:" + ItemTypeName(e), false, true))
  {
    var tn := "xs:" + ItemTypeName(e);
    var tail := " maxOccurs=\"unbounded\"/>";
    var body := "<xs:element " + (Field("name", "item") + (" " + (Field("type", tn) + tail)));
    assert ItemText(e) == Spaces(6) + body;
    LineDeeper(indent, 6, body);
    LineBodyOf(indent + 6, body);
    ItemTypeQuoteFree(e);
    ElementBodyOf("item", tn, tail);
  }

  /** An attribute's declaration reads back as its key, its tag's XSD type,
      "optional" exactly when it is not required, and its default exactly
      when that is non-empty. */
  lemma AttributeReadBack(name: string, a: Attribute, indent: nat)
    requires '"' !in name
    requires a.defaultValue.Some? ==> '"' !in a.defaultValue.value
    ensures ReadAttributeLine(AttributeXsd(name, a, indent)) ==
      Some(AttributeDecl(name, "xs:" + a.dataType.Value(), !a.required,
                         if NonEmpty(a.defaultValue) then a.defaultValue else None))
  {
    var tn := "xs:" + a.dataType.Value();
    var tail := UseText(a) + (DefaultText(a) + "/>");
    var rest := Field("name", name) + (" " + (Field("type", tn) + tail));
    var body := "<xs:attribute " + rest;
    assert AttributeText(name, a) == Spaces(4) + body;
    LineDeeper(indent, 4, body);
    LineBodyOf(indent + 4, body);
    Cut("<xs:attribute ", rest);
    QuoteFreeType(a.dataType);
    NameTypeReadBack(name, tn, tail);
    AttributeTailReadBack(name, tn, a);
  }

  lemma AttributeTailReadBack(name: string, tn: string, a: Attribute)
    requires a.defaultValue.Some? ==> '"' !in a.defaultValue.value
    ensures ReadAttributeTail(name, tn, UseText(a) + (DefaultText(a) + "/>")) ==
      Some(AttributeDecl(name, tn, !a.required, if NonEmpty(a.defaultValue) then a.defaultValue else None))
  {
    var s1 := DefaultText(a) + "/>";
    var s := UseText(a) + s1;
    if !a.required {
      Cut(" use=\"optional\"", s1);
    } else {
      assert s == s1;
      assert !StartsWith(s, " use=\"optional\"") by {
        if NonEmpty(a.defaultValue) {
          assert s[1] == 'd';
        } else {
          assert |s| < 15;
        }
      }
    }
    if NonEmpty(a.defaultValue) {
      var d := a.defaultValue.value;
      assert s1 == " " + (Field("default", d) + "/>");
      Cut(" ", Field("default", d) + "/>");
      ReadFieldOf("default", d, "/>");
      assert s1 != "/>";
    }
  }

  lemma NotInAppend(c: char, a: string, b: string)
    requires c !in a && c !in b
    ensures c !in a + b
  {
  }

  lemma FieldSingle(key: string, value: string)
    requires '\n' !in key && '\n' !in value
    ensures '\n' !in Field(key, value)
  {
    NotInAppend('\n', key, "=\"");
    NotInAppend('\n', key + "=\"", value);
    NotInAppend('\n', key + "=\"" + value, "\"");
  }

  /** A declaration text `prefix name="N" type="T" tail` holds no line break. */
  lemma DeclSingle(prefix: string, name: string, tn: string, tail: string)
    requires '\n' !in prefix && '\n' !in name && '\n' !in tn && '\n' !in tail
    ensures '\n' !in prefix + (Field("name", name) + (" " + (Field("type", tn) + tail)))
  {
    FieldSingle("name", name);
    FieldSingle("type", tn);
    NotInAppend('\n', Field("type", tn), tail);
    NotInAppend('\n', " ", Field("type", tn) + tail);
    NotInAppend('\n', Field("name", name), " " + (Field("type", tn) + tail));
    NotInAppend('\n', prefix, Field("name", name) + (" " + (Field("type", tn) + tail)));
  }

  lemma OpenTextSingle(name: string)
    requires '\n' !in name
    ensures '\n' !in "<xs:element " + Field("name", name) + ">"
  {
    FieldSingle("name", name);
    NotInAppend('\n', "<xs:element ", Field("name", name));
    NotInAppend('\n', "<xs:element " + Field("name", name), ">");
  }

  lemma TypeNameSingle(t: DataType)
    ensures '\n' !in "xs:" + t.Value()
  {
    QuoteFreeType(t);
    NotInAppend('\n', "xs:", t.Value());
  }

  lemma ScalarTextSingle(e: Element)
    requires '\n' !in e.name
    ensures '\n' !in ScalarText(e)
  {
    TypeNameSingle(e.dataType);
    var tail := (if !e.required then " minOccurs=\"0\"" else "") + "/>";
    NotInAppend('\n', if !e.required then " minOccurs=\"0\"" else "", "/>");
    DeclSingle("<xs:element ", e.name, "xs:" + e.dataType.Value(), tail);
  }

  lemma ItemTextSingle(e: Element)
    ensures '\n' !in ItemText(e)
  {
    var tn := "xs:" + ItemTypeName(e);
    if e.arrayType.Some? {
      TypeNameSingle(e.arrayType.value.dataType);
    }
    DeclSingle("<xs:element ", "item", tn, " maxOccurs=\"unbounded\"/>");
    NotInAppend('\n', Spaces(6), "<xs:element " + (Field("name", "item") + (" " + (Field("type", tn) + " maxOccurs=\"unbounded\"/>"))));
  }

  lemma AttributeTextSingle(name: string, a: Attribute)
    requires '\n' !in name
    requires a.defaultValue.Some? ==> '\n' !in a.defaultValue.value
    ensures '\n' !in AttributeText(name, a)
  {
    TypeNameSingle(a.dataType);
    if NonEmpty(a.defaultValue) {
      FieldSingle("default", a.defaultValue.value);
      NotInAppend('\n', " ", Field("default", a.defaultValue.value));
    }
    NotInAppend('\n', DefaultText(a), "/>");
    NotInAppend('\n', UseText(a), DefaultText(a) + "/>");
    var tail := UseText(a) + (DefaultText(a) + "/>");
    DeclSingle("<xs:attribute ", name, "xs:" + a.dataType.Value(), tail);
    NotInAppend('\n', Spaces(4), "<xs:attribute " + (Field("name", name) + (" " + (Field("type", "xs:" + a.dataType.Value()) + tail))));
  }

  lemma ItemTypeQuoteFree(e: Element)
    ensures '"' !in "xs:" + ItemTypeName(e)
  {
    if e.arrayType.Some? {
      QuoteFreeType(e.arrayType.value.dataType);
    }
  }

  lemma QuoteFreeType(t: DataType)
    ensures '"' !in t.Value() && '\n' !in t.Value()
  {
  }

  // ---- layout ----

  /** Position `i` begins a line of `s`. */
  predicate LineStart(s: string, i: int) {
    0 <= i < |s| && (i == 0 || s[i - 1] == '\n')
  }

  /** At least `n` spaces follow position `i`. */
  predicate IndentAt(s: string, i: int, n: nat) {
    0 <= i && i + n <= |s| && forall j :: i <= j < i + n ==> s[j] == ' '
  }

  /** `s` is a run of complete lines, each indented by at least `n` spaces. */
  ghost predicate Indented(s: string, n: nat) {
    && (s == [] || s[|s| - 1] == '\n')
    && forall i :: LineStart(s, i) ==> IndentAt(s, i, n)
  }

  lemma IndentedLine(n: nat, text: string)
    requires '\n' !in text
    ensures Indented(Line(n, text), n)
  {
    var s := Line(n, text);
    forall j | 0 <= j < |s| - 1
      ensures s[j] != '\n'
    {
      if j < n {
        assert s[j] == ' ';
      } else {
        assert s[j] == text[j - n];
      }
    }
    forall i | LineStart(s, i)
      ensures IndentAt(s, i, n)
    {
      assert i == 0;
    }
  }

  lemma IndentedAppend(a: string, b: string, n: nat)
    requires Indented(a, n) && Indented(b, n)
    ensures Indented(a + b, n)
  {
    var s := a + b;
    forall i | LineStart(s, i)
      ensures IndentAt(s, i, n)
    {
      if i < |a| {
        assert LineStart(a, i);
        assert IndentAt(a, i, n);
      } else {
        assert LineStart(b, i - |a|);
        assert IndentAt(b, i - |a|, n);
      }
    }
  }

  lemma IndentedDeeper(s: string, n: nat, k: nat)
    requires Indented(s, n + k)
    ensures Indented(s, n)
  {
    forall i | LineStart(s, i)
      ensures IndentAt(s, i, n)
    {
      assert IndentAt(s, i, n + k);
    }
  }

  /** No name, key or default the text is built from contains a line break. */
  ghost predicate SingleLineNames(e: Element)
    decreases e, 1
  {
    && '\n' !in e.name
    && (forall i :: 0 <= i < |e.attributes| ==> SingleLineAttribute(e.attributes[i]))
    && PropsSingleLine(e.properties)
  }

  ghost predicate SingleLineAttribute(p: (string, Attribute)) {
    '\n' !in p.0 && (p.1.defaultValue.Some? ==> '\n' !in p.1.defaultValue.value)
  }

  ghost predicate PropsSingleLine(ps: seq<(string, Element)>)
    decreases ps, 2
  {
    ps != [] ==>
      assert ps[0].1 < ps[0];
      SingleLineNames(ps[0].1) && PropsSingleLine(ps[1..])
  }

  /** The declaration of an element at indent `n` is a run of complete lines
      each indented by at least `n`. */
  lemma {:induction false} XsdIndented(e: Element, n: nat)
    requires SingleLineNames(e)
    ensures Indented(ElementXsd(e, n), n)
    decreases e, 1
  {
    match e.dataType {
      case Object => ObjectIndented(e, n);
      case Array => ArrayIndented(e, n);
      case _ =>
        ScalarTextSingle(e);
        IndentedLine(n, ScalarText(e));
    }
  }

  lemma ArrayIndented(e: Element, n: nat)
    requires '\n' !in e.name
    ensures Indented(ArrayXsd(e, n), n)
  {
    var l1 := Line(n, "<xs:element " + Field("name", e.name) + ">");
    var l2 := Line(n, "  <xs:complexType>");
    var l3 := Line(n, "    <xs:sequence>");
    var l4 := Line(n, ItemText(e));
    var l5 := Line(n, "    </xs:sequence>");
    var l6 := Line(n, "  </xs:complexType>");
    var l7 := Line(n, "</xs:element>");
    OpenTextSingle(e.name);
    IndentedLine(n, "<xs:element " + Field("name", e.name) + ">");
    IndentedLine(n, "  <xs:complexType>");
    IndentedLine(n, "    <xs:sequence>");
    ItemTextSingle(e);
    IndentedLine(n, ItemText(e));
    IndentedLine(n, "    </xs:sequence>");
    IndentedLine(n, "  </xs:complexType>");
    IndentedLine(n, "</xs:element>");
    IndentedAppend(l1, l2, n);
    IndentedAppend(l1 + l2, l3, n);
    IndentedAppend(l1 + l2 + l3, l4, n);
    IndentedAppend(l1 + l2 + l3 + l4, l5, n);
    IndentedAppend(l1 + l2 + l3 + l4 + l5, l6, n);
    IndentedAppend(l1 + l2 + l3 + l4 + l5 + l6, l7, n);
  }

  lemma {:induction false} ObjectIndented(e: Element, n: nat)
    requires SingleLineNames(e)
    ensures Indented(ObjectXsd(e, n), n)
    decreases e, 0
  {
    var open := Line(n, "<xs:element " + Field("name", e.name) + ">");
    var ct := Line(n, "  <xs:complexType>");
    var seqPart :=
      if e.properties != [] then
        Line(n, "    <xs:sequence>") + PropertiesXsd(e.properties, n + 6) + Line(n, "    </xs:sequence>")
      else "";
    var attrs := AttributesXsd(e.attributes, n);
    var ctEnd := Line(n, "  </xs:complexType>");
    var close := Line(n, "</xs:element>");
    OpenTextSingle(e.name);
    IndentedLine(n, "<xs:element " + Field("name", e.name) + ">");
    IndentedLine(n, "  <xs:complexType>");
    IndentedLine(n, "  </xs:complexType>");
    IndentedLine(n, "</xs:element>");
    if e.properties != [] {
      SequenceIndented(e.properties, n);
    }
    AttributesIndented(e.attributes, n);
    IndentedAppend(open, ct, n);
    IndentedAppend(open + ct, seqPart, n);
    IndentedAppend(open + ct + seqPart, attrs, n);
    IndentedAppend(open + ct + seqPart + attrs, ctEnd, n);
    IndentedAppend(open + ct + seqPart + attrs + ctEnd, close, n);
    assert ObjectXsd(e, n) == open + ct + seqPart + attrs + ctEnd + close;
  }

  /** The `xs:sequence` block around the property declarations. */
  lemma {:induction false} SequenceIndented(ps: seq<(string, Element)>, n: nat)
    requires PropsSingleLine(ps)
    ensures Indented(Line(n, "    <xs:sequence>") + PropertiesXsd(ps, n + 6) + Line(n, "    </xs:sequence>"), n)
    decreases ps, 3
  {
    var sq, body, sqEnd := Line(n, "    <xs:sequence>"), PropertiesXsd(ps, n + 6), Line(n, "    </xs:sequence>");
    IndentedLine(n, "    <xs:sequence>");
    IndentedLine(n, "    </xs:sequence>");
    PropertiesIndented(ps, n + 6);
    IndentedDeeper(body, n, 6);
    IndentedAppend(sq, body, n);
    IndentedAppend(sq + body, sqEnd, n);
  }

  lemma {:induction false} PropertiesIndented(ps: seq<(string, Element)>, n: nat)
    requires PropsSingleLine(ps)
    ensures Indented(PropertiesXsd(ps, n), n)
    decreases ps, 2
  {
    if ps != [] {
      assert ps[0].1 < ps[0];
      XsdIndented(ps[0].1, n);
      PropertiesIndented(ps[1..], n);
      IndentedAppend(ElementXsd(ps[0].1, n), PropertiesXsd(ps[1..], n), n);
    }
  }

  lemma {:induction false} AttributesIndented(attrs: seq<(string, Attribute)>, n: nat)
    requires forall i :: 0 <= i < |attrs| ==> SingleLineAttribute(attrs[i])
    ensures Indented(AttributesXsd(attrs, n), n)
    decreases attrs
  {
    if attrs != [] {
      assert SingleLineAttribute(attrs[0]);
      AttributeTextSingle(attrs[0].0, attrs[0].1);
      IndentedLine(n, AttributeText(attrs[0].0, attrs[0].1));
      assert forall i :: 1 <= i < |attrs| ==> attrs[i] == attrs[1..][i - 1];
      AttributesIndented(attrs[1..], n);
      IndentedAppend(AttributeXsd(attrs[0].0, attrs[0].1, n), AttributesXsd(attrs[1..], n), n);
    }
  }

  // ---- the layout of an OBJECT ----

  /** `l` begins with exactly `m` spaces followed by `p`. */
  predicate StartsAt(l: string, m: nat, p: string) {
    |l| >= m + |p| && l[..m] == Spaces(m) && l[m..m + |p|] == p
  }

  /** `s` is a run of complete lines, each `m` spaces and then `p`. */
  ghost predicate LinesStartWith(s: string, m: nat, p: string) {
    && (s == [] || s[|s| - 1] == '\n')
    && forall i :: LineStart(s, i) ==> StartsAt(s[i..], m, p)
  }

  lemma StartsAtLine(m: nat, p: string, rest: string)
    ensures StartsAt(Line(m, p + rest), m, p)
  {
    var l := Line(m, p + rest);
    assert l == Spaces(m) + (p + rest) + "\n";
    assert l[..m] == Spaces(m);
    assert l[m..m + |p|] == p;
  }

  /** A text without line breaks makes a line that starts only at its head. */
  lemma OneLine(n: nat, text: string)
    requires '\n' !in text
    ensures forall i :: LineStart(Line(n, text), i) ==> i == 0
  {
    var s := Line(n, text);
    forall j | 0 <= j < |s| - 1
      ensures s[j] != '\n'
    {
      if j < n {
        assert s[j] == ' ';
      } else {
        assert s[j] == text[j - n];
      }
    }
  }

  lemma LinesStartWithAppend(a: string, b: string, m: nat, p: string)
    requires LinesStartWith(a, m, p) && LinesStartWith(b, m, p)
    ensures LinesStartWith(a + b, m, p)
  {
    var s := a + b;
    forall i | LineStart(s, i)
      ensures StartsAt(s[i..], m, p)
    {
      if i < |a| {
        assert LineStart(a, i);
        assert s[i..] == a[i..] + b;
        assert StartsAt(a[i..], m, p);
        assert s[i..][..m] == a[i..][..m];
        assert s[i..][m..m + |p|] == a[i..][m..m + |p|];
      } else {
        assert LineStart(b, i - |a|);
        assert s[i..] == b[i - |a|..];
      }
    }
  }

  /** An attribute declaration is one line: four columns past the element's
      indent, the `<xs:attribute ` tag. */
  lemma AttributeLayout(name: string, a: Attribute, n: nat)
    requires SingleLineAttribute((name, a))
    ensures LinesStartWith(AttributeXsd(name, a, n), n + 4, "<xs:attribute ")
  {
    var tag := "<xs:attribute ";
    var rest := Field("name", name) + (" " + (Field("type", "xs:" + a.dataType.Value())
                + (UseText(a) + (DefaultText(a) + "/>"))));
    var body := tag + rest;
    assert AttributeText(name, a) == Spaces(4) + body;
    LineDeeper(n, 4, body);
    AttributeTextSingle(name, a);
    assert '\n' !in body by {
      assert forall j :: 0 <= j < |body| ==> body[j] == AttributeText(name, a)[j + 4];
    }
    var l := Line(n + 4, body);
    StartsAtLine(n + 4, tag, rest);
    OneLine(n + 4, body);
    assert l[0..] == l;
  }

  lemma {:induction false} AttributesLayout(attrs: seq<(string, Attribute)>, n: nat)
    requires forall i :: 0 <= i < |attrs| ==> SingleLineAttribute(attrs[i])
    ensures LinesStartWith(AttributesXsd(attrs, n), n + 4, "<xs:attribute ")
    decreases attrs
  {
    if attrs != [] {
      AttributeLayout(attrs[0].0, attrs[0].1, n);
      assert forall i :: 1 <= i < |attrs| ==> attrs[i] == attrs[1..][i - 1];
      AttributesLayout(attrs[1..], n);
      LinesStartWithAppend(AttributeXsd(attrs[0].0, attrs[0].1, n), AttributesXsd(attrs[1..], n), n + 4, "<xs:attribute ");
    }
  }

  /** An OBJECT's declaration, column by column: the `xs:complexType` lines
      two columns past the element's indent, the `xs:sequence` lines (only
      when there are properties) four past it with the property declarations
      at least six past it, and the attribute declarations exactly four past
      it, after the sequence. */
  lemma ObjectLayout(e: Element, n: nat)
    requires SingleLineNames(e)
    ensures ObjectXsd(e, n) ==
      Line(n, "<xs:element " + Field("name", e.name) + ">")
      + Line(n + 2, "<xs:complexType>")
      + SequenceAt(e.properties, n)
      + AttributesXsd(e.attributes, n)
      + Line(n + 2, "</xs:complexType>")
      + Line(n, "</xs:element>")
    ensures Indented(PropertiesXsd(e.properties, n + 6), n + 6)
    ensures LinesStartWith(AttributesXsd(e.attributes, n), n + 4, "<xs:attribute ")
  {
    ObjectShape(e, n);
    PropertiesIndented(e.properties, n + 6);
    AttributesLayout(e.attributes, n);
  }

  /** The `xs:sequence` lines four columns in, around the property
      declarations six columns in; nothing without properties. */
  function SequenceAt(ps: seq<(string, Element)>, n: nat): string {
    if ps != [] then Line(n + 4, "<xs:sequence>") + PropertiesXsd(ps, n + 6) + Line(n + 4, "</xs:sequence>")
    else ""
  }

  lemma ObjectShape(e: Element, n: nat)
    ensures ObjectXsd(e, n) ==
      Line(n, "<xs:element " + Field("name", e.name) + ">")
      + Line(n + 2, "<xs:complexType>")
      + SequenceAt(e.properties, n)
      + AttributesXsd(e.attributes, n)
      + Line(n + 2, "</xs:complexType>")
      + Line(n, "</xs:element>")
  {
    var open := Line(n, "<xs:element " + Field("name", e.name) + ">");
    var ct, ctEnd := Line(n, "  <xs:complexType>"), Line(n, "  </xs:complexType>");
    var sq, sqEnd := Line(n, "    <xs:sequence>"), Line(n, "    </xs:sequence>");
    var attrs := AttributesXsd(e.attributes, n);
    var close := Line(n, "</xs:element>");
    var seqPart := if e.properties != [] then sq + PropertiesXsd(e.properties, n + 6) + sqEnd else "";
    assert ObjectXsd(e, n) == open + ct + seqPart + attrs + ctEnd + close;
    assert ct == Line(n + 2, "<xs:complexType>") by {
      ComplexTypeIndent();
      SpacedLine(n, 2, "<xs:complexType>", "  <xs:complexType>");
    }
    assert ctEnd == Line(n + 2, "</xs:complexType>") by {
      ComplexTypeIndent();
      SpacedLine(n, 2, "</xs:complexType>", "  </xs:complexType>");
    }
    assert seqPart == SequenceAt(e.properties, n) by {
      SequenceIndent();
      SpacedLine(n, 4, "<xs:sequence>", "    <xs:sequence>");
      SpacedLine(n, 4, "</xs:sequence>", "    </xs:sequence>");
    }
  }

  /** The indented tag texts of an OBJECT's declaration. */
  lemma ComplexTypeIndent()
    ensures "  <xs:complexType>" == Spaces(2) + "<xs:complexType>"
    ensures "  </xs:complexType>" == Spaces(2) + "</xs:complexType>"
  {
    assert Spaces(2) == "  ";
  }

  lemma SequenceIndent()
    ensures "    <xs:sequence>" == Spaces(4) + "<xs:sequence>"
    ensures "    </xs:sequence>" == Spaces(4) + "</xs:sequence>"
  {
    assert Spaces(4) == "    ";
  }

  lemma SpacedLine(n: nat, k: nat, body: string, text: string)
    requires text == Spaces(k) + body
    ensures Line(n, text) == Line(n + k, body)
  {
    LineDeeper(n, k, body);
  }
}
