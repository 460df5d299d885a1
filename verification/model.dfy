/** The schema data model of `schema_extractor/models/schema.py`, plus the
    parsed-document value the JSON extractor walks and the `DataNode` record
    both extractors emit. */
module Model {
  import opened Wrappers

  /** The closed set of inferred types; `Value` is the enum's string value. */
  datatype DataType =
    | String | Integer | Float | Boolean | Object | Array | Null | Date | DateTime | Unknown
  {
    function Value(): string {
      match this
      case String => "string"
      case Integer => "integer"
      case Float => "float"
      case Boolean => "boolean"
      case Object => "object"
      case Array => "array"
      case Null => "null"
      case Date => "date"
      case DateTime => "datetime"
      case Unknown => "unknown"
    }

    /** The scalar tags for which the JSON extractor keeps an example value. */
    predicate KeepsExample() {
      this in {String, Integer, Float, Boolean}
    }

    predicate IsContainer() {
      this == Object || this == Array
    }
  }

  /** A value as `json.load` hands it over. A JSON number with a fraction or
      exponent is kept as its text (no float arithmetic happens anywhere).
      `JOther` stands for any Python object that is none of the JSON kinds. */
  datatype Json =
    | JNull
    | JBool(b: bool)
    | JInt(i: int)
    | JFloat(repr: string)
    | JStr(s: string)
    | JArr(items: seq<Json>)
    | JObj(fields: seq<(string, Json)>)
    | JOther

  /** `min_value` / `max_value`: `Union[int, float]`. */
  datatype Number = IntNumber(i: int) | FloatNumber(repr: string)

  /** `SchemaAttribute` */
  datatype Attribute = Attribute(
    name: string,
    dataType: DataType,
    required: bool,
    defaultValue: Option<string>,
    description: Option<string>)

  /** `SchemaElement`: `properties` and `attributes` are dicts, kept as
      insertion-ordered key/value lists. */
  datatype Element = Element(
    name: string,
    dataType: DataType,
    required: bool,
    description: Option<string>,
    properties: seq<(string, Element)>,
    attributes: seq<(string, Attribute)>,
    arrayType: Option<Element>,
    minValue: Option<Number>,
    maxValue: Option<Number>,
    pattern: Option<string>,
    minLength: Option<int>,
    maxLength: Option<int>,
    occurrences: int,
    examples: seq<Json>)

  /** `SchemaElement(name=..., data_type=..., description=...)` with every
      other field at its declared default. */
  function NewElement(name: string, dataType: DataType, description: Option<string>): (e: Element)
    ensures e.name == name && e.dataType == dataType && e.description == description
    ensures !e.required && e.properties == [] && e.attributes == [] && e.arrayType == None
    ensures e.occurrences == 1 && e.examples == []
    ensures Unconstrained(e)
  {
    Element(name, dataType, false, description, [], [], None, None, None, None, None, None, 1, [])
  }

  /** None of `min_value`, `max_value`, `pattern`, `min_length` and
      `max_length` is set: nothing in either extractor ever sets them. */
  predicate Unconstrained(e: Element) {
    e.minValue == None && e.maxValue == None && e.pattern == None && e.minLength == None && e.maxLength == None
  }

  /** One visited position of a document, as built by both extractors'
      `DataNode(...)` calls; `value` is `JNull` where the source stores `None`. */
  datatype DataNode = DataNode(
    path: string,
    name: string,
    value: Json,
    dataType: DataType,
    depth: nat,
    parentPath: Option<string>,
    isLeaf: bool,
    description: string)

  /** `Schema`; `data_nodes` and `total_data_nodes` are the two fields the
      extractors assign. The never-populated `elements` and `attributes`
      dicts are not represented. */
  datatype Schema = Schema(
    name: string,
    fileType: string,
    root: Option<Element>,
    version: string,
    description: Option<string>,
    createdAt: Option<string>,
    totalElements: nat,
    totalAttributes: nat,
    maxDepth: nat,
    dataNodes: seq<DataNode>,
    totalDataNodes: nat)

  /** `Schema(name=..., file_type=..., created_at=...)` with declared defaults. */
  function NewSchema(name: string, fileType: string, createdAt: Option<string>): (s: Schema)
    ensures s.name == name && s.fileType == fileType && s.createdAt == createdAt
    ensures s.root == None && s.version == "1.0" && s.dataNodes == []
  {
    Schema(name, fileType, None, "1.0", None, createdAt, 0, 0, 0, [], 0)
  }

  /** Python truthiness of an optional string: present and non-empty. */
  predicate NonEmpty(s: Option<string>) {
    s.Some? && s.value != ""
  }
}
