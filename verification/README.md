# schema_extractor — a verified model of schema inference

This project models the schema-inference core of `schema_extractor`.

- **JSON extractor.** It classifies every value of an already-parsed JSON document. It then builds a `SchemaElement` tree in which objects get one property per key and arrays are shaped by their first item. It lists the document's data nodes in pre-order and computes the nesting depth. It also merges several schemas into one.
- **XML extractor.** It works the same way on an already-parsed XML element tree. Repeated child tags are grouped into `ARRAY` elements, attribute and text values are classified by regular expression, and the data nodes cover elements, attributes (`@`) and text (`#text`).
- **Serialisers.** `to_json_schema` emits JSON-Schema-style keywords and `to_xsd` emits XSD-flavoured text.
- **Decision logic of the helpers.** This covers file-type detection by extension and content prefix, the format checks of `save_schema` and `format_schema_output`, and the indented pretty renderer.

Python dicts keep insertion order, and that order shows in properties, `required` lists, XSD text and node order. They are modelled as sequences of key/value pairs (`Assoc`): `d[k] = v` replaces a key in place or appends it. The parsed document is a `Json` value or an `XmlElem` tree. Timestamps, file existence and file content are parameters.

Modules, one per file:
- `wrappers.dfy`: `Option`, `Result` and the raised exceptions.
- `text.dfy`: Python whitespace, `strip` and number printing.
- `assoc.dfy`: ordered dicts.
- `model.dfy`: `DataType`, `SchemaAttribute`, `SchemaElement`, `DataNode` and `Schema`.
- `patterns.dfy`: the regex tables.
- `data_nodes.dfy`: the shape of a pre-order node list.
- `json_extractor.dfy`, `json_merge.dfy`, `xml_extractor.dfy`.
- `json_schema_out.dfy`, `xsd.dfy`.
- `helpers.dfy`, `pretty.dfy`.

## Model

| member | source | states |
|---|---|---|
| JsonExtractor.ClassifyJson | schema_extractor/extractors/json_extractor.py:115-133 | null, bool, int, float, list, dict and anything else map one-to-one onto NULL, BOOLEAN, INTEGER, FLOAT, ARRAY, OBJECT and UNKNOWN, each as an if-and-only-if. A bool is never INTEGER. A string is STRING, DATE or DATETIME, and nothing else is. |
| Patterns.InferStringTypeExact | schema_extractor/extractors/json_extractor.py:135-145 | A string refines only to DATE or DATETIME. It is DATE exactly when the whole text is `DDDD-DD-DD`, optionally followed by one newline. It is DATETIME exactly when it starts with a date, then `T` or whitespace, then `DD:DD:DD`. Everything else is STRING. |
| Patterns.InferStringTypeExamples | schema_extractor/extractors/json_extractor.py:135-145 | Concrete cases: "123" and "true" stay STRING, a trailing character after a date gives STRING, and a space or `T` separator gives DATETIME. |
| Patterns.ClassifyTextExact | schema_extractor/extractors/xml_extractor.py:156-166 | First match in the order INTEGER, FLOAT, BOOLEAN, DATE, DATETIME. Each result is an if-and-only-if with its pattern. BOOLEAN additionally needs the INTEGER pattern to fail. STRING holds exactly when no pattern matches. |
| Patterns.FirstMatchOfFive | schema_extractor/extractors/xml_extractor.py:161-166 | The loop over a five-entry pattern table returns the first allowed entry that matches, and STRING when none does. |
| Patterns.IntegerNotFloat | schema_extractor/extractors/xml_extractor.py:22-23 | No text matches both the integer and the float pattern. |
| Patterns.DateNotNumber | schema_extractor/extractors/xml_extractor.py:22-26 | Date and datetime texts never match the integer or float pattern. |
| Patterns.WordNotFloatNorDate | schema_extractor/extractors/xml_extractor.py:23-26 | A boolean word never matches the float, date or datetime pattern. |
| Patterns.ClassifyTextIntegerExamples | schema_extractor/extractors/xml_extractor.py:22-24 | "1", "0" and "-42" classify as INTEGER: the integer pattern is tried before the boolean words. |
| Patterns.ClassifyTextOtherExamples | schema_extractor/extractors/xml_extractor.py:22-26 | "3.14" is FLOAT, "YES" is BOOLEAN (case-insensitive) and "hello" is STRING. |
| JsonExtractor.BuildJson | schema_extractor/extractors/json_extractor.py:69-113 | The element takes its name and its type from the value. It is not required and has no attributes. Only STRING, INTEGER, FLOAT and BOOLEAN values keep the value as their one example. NULL gets the "(nullable)" description and every other value gets "Property: name". Only objects get properties. A non-empty array gets an item schema and occurrences equal to its length. An empty array or a non-array has no item schema and occurrences 1. No minimum, maximum, length or pattern field is ever set. |
| JsonExtractor.MixedItems | schema_extractor/extractors/json_extractor.py:98-103 | The item loop finds a mismatch exactly when some later item classifies differently from the first. |
| JsonExtractor.ArrayItemSchema | schema_extractor/extractors/json_extractor.py:88-103 | The item schema is the schema of the first item, named "item". Its type is UNKNOWN if some later item classifies differently, and the first item's type otherwise. |
| JsonExtractor.FieldSchemas | schema_extractor/extractors/json_extractor.py:83-86 | One property schema per member, in member order, each built under its own key. |
| JsonExtractor.BuildFieldsAppends | schema_extractor/extractors/json_extractor.py:83-86 | With distinct keys, the property loop appends exactly the member schemas, in order. |
| JsonExtractor.ObjectProperties | schema_extractor/extractors/json_extractor.py:80-86 | An object's properties are exactly its keys, in order, each mapped to the recursively built schema. |
| JsonExtractor.BuildJsonFits | schema_extractor/extractors/json_extractor.py:69-113 | Every value fits the schema inferred from it, all the way down. An object has exactly the schema's property keys, each member fitting its property. A non-empty array's first item fits the item schema, and either every item has the item type or that type is UNKNOWN. |
| JsonExtractor.CountedNamesAreSchemaNames | schema_extractor/extractors/json_extractor.py:84 | The property names the counter sees are exactly the property names found anywhere in the built schema tree. |
| JsonExtractor.LastSegmentSuffix | schema_extractor/extractors/json_extractor.py:293 | A node's name is the suffix of its path after the last dot, or the whole path when the path has no dot. |
| JsonExtractor.JsonNodesTree | schema_extractor/extractors/json_extractor.py:274-316 | The node list is pre-order. It starts with the value's own node at the given depth. Every later node comes after its parent, one level below it, with its parent's path as parent path. |
| JsonExtractor.JsonNodesCount | schema_extractor/extractors/json_extractor.py:274-316 | One node per value: the list is as long as the number of values in the document. |
| JsonExtractor.JsonNodesLeaves | schema_extractor/extractors/json_extractor.py:298 | A node is a leaf exactly when its type is neither OBJECT nor ARRAY. |
| JsonExtractor.JsonNodesMaxDepth | schema_extractor/extractors/json_extractor.py:147-160 | The computed depth is the largest depth in the node list: every node is at most that deep, and some node is exactly that deep. |
| JsonExtractor.ExtractJson | schema_extractor/extractors/json_extractor.py:27-67 | The schema has the stem as its name, type "json" and the given time. Its root is the tree built under "root". Its nodes form a pre-order tree whose root is at depth 0 with path "root" and no parent, and `total_data_nodes` counts them. Leaf flags follow the type, `max_depth` is the deepest node, and `total_elements` counts the distinct property names of the tree. |
| JsonExtractor.ExtractJsonString | schema_extractor/extractors/json_extractor.py:171-201 | The same schema as a file extraction named "json_schema" with no time, except that no data nodes are produced. |
| JsonMerge.MergeSchemas | schema_extractor/extractors/json_extractor.py:203-230 | An empty list is an error. One schema is returned unchanged. Otherwise the result is the first schema renamed "merged_schema", and only its root may differ, and only when every input has a root. |
| JsonMerge.MergedRoot | schema_extractor/extractors/json_extractor.py:223-228 | The roots are merged exactly when every input has one. Otherwise the first schema's root is kept. |
| JsonMerge.MergeElements | schema_extractor/extractors/json_extractor.py:232-272 | Every field other than properties and attributes is the first element's, including `array_type`. The merge never grows the property nesting height. |
| JsonMerge.MergedLookup | schema_extractor/extractors/json_extractor.py:243-270 | A key is in the merged properties or attributes exactly when some input has it. Its value is the left fold of all its occurrences: a recursive merge for properties, and the attribute combination for attributes. |
| JsonMerge.MergedKeys | schema_extractor/extractors/json_extractor.py:243-270 | The merged properties and the merged attributes hold each key once. Keys come in order of first appearance, scanning the inputs in list order and each input in its own dict order. |
| JsonMerge.MergePropsIsAbsorb | schema_extractor/extractors/json_extractor.py:246-253 | The property loop over one dict equals the generic absorb step, which merges on collision and appends a new key. |
| JsonMerge.AbsorbAllGet | schema_extractor/extractors/json_extractor.py:244-253 | After absorbing several dicts, a key's value is the fold of its stored value with its occurrences in input order. |
| JsonMerge.CombineAttribute | schema_extractor/extractors/json_extractor.py:263-266 | A collision keeps the first attribute's name, type and description. `required` becomes the AND of the two flags. A non-empty existing default is kept. |
| JsonMerge.CombinedAttribute | schema_extractor/extractors/json_extractor.py:258-268 | Over all occurrences, `required` is the AND of every flag and the default is the first non-empty one. A key seen once keeps its attribute as it is. |
| JsonMerge.FirstDefault | schema_extractor/extractors/json_extractor.py:265-266 | Gives the index of the first non-empty default, or none when every default is empty. |
| JsonMerge.Occurrences | schema_extractor/extractors/json_extractor.py:245-247 | A key has no occurrences exactly when no input dict holds it. |
| XmlExtractor.ElementKindRule | schema_extractor/extractors/xml_extractor.py:139-154 | An element is OBJECT exactly when it has children, or when it has attributes and blank text. With no children, non-blank text makes it STRING. |
| XmlExtractor.GroupChildrenByTag | schema_extractor/extractors/xml_extractor.py:101-104 | Grouping gives each tag exactly the children with that tag, in document order, and no tag twice. |
| XmlExtractor.GroupChildrenOrder | schema_extractor/extractors/xml_extractor.py:101-104 | The groups come in order of each tag's first appearance among the children. |
| Assoc.AddKeysSpec | schema_extractor/extractors/xml_extractor.py:103-104 | Inserting keys one at a time into an insertion-ordered dict keeps the earlier keys as a prefix. The result holds exactly the old and the new keys, and none twice. |
| XmlExtractor.ChildProperties | schema_extractor/extractors/xml_extractor.py:106-121 | A tag seen once becomes a plain property. A repeated tag becomes an ARRAY property whose item schema is the first occurrence's and whose occurrences is the count. A tag with no children has no property. |
| XmlExtractor.XmlProperties | schema_extractor/extractors/xml_extractor.py:99-135 | The property under a key is the text property when the key is "text" and the text classifies as non-STRING. This holds even on a STRING element and overrides a child named "text". Otherwise, for an OBJECT element, it is the grouped child property. Otherwise there is none. |
| XmlExtractor.XmlPropertyOrder | schema_extractor/extractors/xml_extractor.py:99-135 | For an OBJECT element the property keys are the child tags in order of first appearance, and for any other element there are none. A text property adds "text" at the end, unless a child is already named "text", in which case that key keeps its place. No key appears twice. |
| XmlExtractor.XmlAttributes | schema_extractor/extractors/xml_extractor.py:88-97 | Every attribute becomes a required attribute schema, in order. Its default is its value when non-empty, and its type comes from the value classifier, whatever the element kind. |
| XmlExtractor.BuildXml | schema_extractor/extractors/xml_extractor.py:73-137 | The element is named by its tag, typed by the element-kind rule and described as "Element: tag". It is not required, has no item schema, has occurrences 1 and has no examples. No minimum, maximum, length or pattern field is ever set. |
| XmlExtractor.CountedTagsSkipLaterOccurrences | schema_extractor/extractors/xml_extractor.py:106-121 | Later occurrences of a repeated tag are never visited. A tag found only under a second `a` is missing from the element count. |
| XmlExtractor.CountedTagsOccur | schema_extractor/extractors/xml_extractor.py:76 | Every counted tag occurs in the tree, and the root's tag is counted. |
| XmlExtractor.LeafNodesUnder | schema_extractor/extractors/xml_extractor.py:250-280 | Attribute and text nodes sit one level below the element, with the element's path as parent path, and are leaves. |
| XmlExtractor.XmlNodesTree | schema_extractor/extractors/xml_extractor.py:221-288 | The node list is pre-order. It starts with the element's own node. Every later node comes after its parent, one level below it. |
| XmlExtractor.XmlNodesCount | schema_extractor/extractors/xml_extractor.py:221-288 | One node per element, per attribute and per non-blank text, with repeated child tags not deduplicated. |
| XmlExtractor.XmlNodesDepth | schema_extractor/extractors/xml_extractor.py:168-176 | The computed depth counts element nesting only. Some node lies exactly that deep, and none lies more than one level deeper. |
| XmlExtractor.ExtractXml | schema_extractor/extractors/xml_extractor.py:29-71 | The schema has the stem as its name, type "xml" and the given time. Its root is the built element. Its nodes form a pre-order tree rooted at the root's tag, and `total_data_nodes` counts them. `max_depth` is reached by a node and exceeded by at most one level. The element and attribute totals count the distinct names the builder visits. |
| XmlExtractor.ExtractXmlString | schema_extractor/extractors/xml_extractor.py:187-219 | The same schema as a file extraction named "xml_schema" with no time, except that no data nodes are produced. |
| JsonSchemaOut.ToJsonSchema | schema_extractor/models/schema.py:87-92 | Gives an empty mapping exactly when there is no root. Otherwise gives the root's JSON schema. |
| JsonSchemaOut.TypeName | schema_extractor/models/schema.py:97-111 | Every tag maps to a JSON Schema type name. FLOAT maps to "number" and nothing else does. DATE, DATETIME and UNKNOWN map to "string". Every other tag keeps its own name. |
| JsonSchemaOut.TypeNameRoundTrip | schema_extractor/models/schema.py:97-111 | Reading the type name back gives the tag, except that DATE, DATETIME and UNKNOWN come back as STRING. |
| JsonSchemaOut.ElementSchema | schema_extractor/models/schema.py:110-113 | Every element schema starts with `type` and `description`, and the description is null when absent. |
| JsonSchemaOut.SchemaKeys | schema_extractor/models/schema.py:110-144 | The document starts with `type` and then `description`, and neither appears again. Among the remaining keys, each keyword is an if-and-only-if. `properties` needs a non-empty OBJECT. `required` needs an OBJECT with a required property. `items` needs an ARRAY with an item schema. `minimum`, `maximum`, `minLength` and `maxLength` need STRING, INTEGER or FLOAT and a set value. `pattern` additionally needs a non-empty pattern. No key appears twice. |
| JsonSchemaOut.ObjectKeys | schema_extractor/models/schema.py:115-126 | An OBJECT emits only `properties` (when it has some) and `required` (when some property is required). Attributes are never emitted. |
| JsonSchemaOut.RequiredNamesMembers | schema_extractor/models/schema.py:121-124 | A name is listed exactly when some property under that key is required. |
| JsonSchemaOut.RequiredNamesOrder | schema_extractor/models/schema.py:121-124 | The list follows property order. The list of a concatenation is the concatenation of the two lists. A single property contributes its name exactly when it is required. |
| JsonSchemaOut.RequiredNamesDistinct | schema_extractor/models/schema.py:121-124 | With distinct property keys, no name is listed twice. |
| JsonSchemaOut.RequiredEntry | schema_extractor/models/schema.py:115-126 | For an OBJECT with properties, `required` holds exactly that list, and it is absent when the list is empty. |
| JsonSchemaOut.PropertySchemas | schema_extractor/models/schema.py:117-120 | The `properties` keys are the element's property keys, in order. |
| JsonSchemaOut.PropertyLookup | schema_extractor/models/schema.py:117-120 | Each key maps to the JSON schema of its property. |
| JsonSchemaOut.BoundsKeys | schema_extractor/models/schema.py:133-142 | Each bound appears exactly when it is set, and `pattern` exactly when it is non-empty. |
| JsonSchemaOut.InferredUnconstrained | schema_extractor/models/schema.py:132-142 | An element built by either extractor never emits `minimum`, `maximum`, `minLength`, `maxLength` or `pattern`, because neither extractor sets those fields. |
| JsonSchemaOut.SchemaWellFormed | schema_extractor/models/schema.py:94-144 | The output has no duplicate keys at any level, provided the element's own dicts have none. |
| Xsd.ToXsd | schema_extractor/models/schema.py:146-155 | Gives "" exactly when there is no root. Otherwise gives the XML declaration and `xs:schema` open tag, the root at indent 2, and the closing tag. |
| Xsd.ScalarReadBack | schema_extractor/models/schema.py:192-196 | Reading a scalar's line back gives its name and its type `xs:<tag>`. `minOccurs="0"` is present exactly when the element is not required. |
| Xsd.ItemReadBack | schema_extractor/models/schema.py:187 | The array's single line reads back as an unbounded "item" typed by the item schema's tag, or "string" without one. |
| Xsd.AttributeReadBack | schema_extractor/models/schema.py:172-178 | An attribute line reads back its key and type. `use="optional"` is present exactly when the attribute is not required, and the default exactly when it is non-empty. |
| Xsd.XsdIndented | schema_extractor/models/schema.py:157-198 | An element's declaration is a run of complete, newline-terminated lines, each starting with at least `indent` spaces. |
| Xsd.ObjectIndented | schema_extractor/models/schema.py:161-181 | Every line of an OBJECT's declaration starts with at least `indent` spaces. |
| Xsd.ObjectLayout | schema_extractor/models/schema.py:161-181 | An OBJECT's text is, in order: the opening tag at `indent`, `<xs:complexType>` at indent + 2, and the `<xs:sequence>` block at indent + 4. The sequence block appears only when there are properties, and its declarations start at indent + 6 or deeper. Then come the attribute lines at indent + 4, each beginning `<xs:attribute `, and the closing tags at indent + 2 and `indent`. |
| Xsd.AttributeLayout | schema_extractor/models/schema.py:172-178 | One attribute's declaration is a single line: indent + 4 spaces followed by `<xs:attribute `. |
| Xsd.ArrayIndented | schema_extractor/models/schema.py:183-190 | An ARRAY's seven lines stay at or beyond its indent. |
| Helpers.SplitExt | schema_extractor/utils/helpers.py:28 | Root and extension concatenate back to the path. The extension is empty or is one dot followed by text with no dot or '/'. |
| Helpers.SplitExtNonEmpty | schema_extractor/utils/helpers.py:28 | A path has an extension exactly when its base name holds a dot after some character that is not a dot. |
| Helpers.SplitExtOf | schema_extractor/utils/helpers.py:28 | Splitting `stem.ext`, with a dot-free `ext` and a stem whose base name is not all dots, gives back `stem` and `.ext`. |
| Helpers.RFind | schema_extractor/utils/helpers.py:28 | Gives the index of the last occurrence, or -1. Nothing equal follows it. |
| Helpers.DetectFileType | schema_extractor/utils/helpers.py:14-47 | A missing path fails with FileNotFoundError, and only a missing path fails. Otherwise the answer is one of "xml", "json" and "unknown". |
| Helpers.DetectFileTypeRule | schema_extractor/utils/helpers.py:28-47 | `.xml`, `.xhtml` and `.svg` give "xml", and `.json` and `.js` give "json", in any case and before any sniffing. Otherwise a first visible '<' among the first 1024 characters gives "xml", and '{' or '[' gives "json". |
| Helpers.SniffRule | schema_extractor/utils/helpers.py:35-47 | Sniffing says "xml" exactly when the first non-whitespace character among the first 1024 is '<'. It says "json" exactly when that character is '{' or '['. |
| Helpers.ExtensionDecides | schema_extractor/utils/helpers.py:28-33 | With a recognised extension, neither the path's case nor the content changes the answer. |
| Helpers.FormatSchemaOutput | schema_extractor/utils/helpers.py:165-186 | Accepts exactly "json", "xsd" and "pretty", case-sensitively. Any other name fails with an unsupported-format error naming it. |
| Helpers.SaveSchema | schema_extractor/utils/helpers.py:116-143 | Accepts a format exactly when its lower-case form is "json", "xsd" or "dict". Any other format fails with an unsupported-format error. |
| Helpers.SaveCaseInsensitive | schema_extractor/utils/helpers.py:130-143 | An accepted spelling writes what its lower-case spelling writes. |
| Helpers.SaveJsonIsDict | schema_extractor/utils/helpers.py:130-141 | "json" and "dict", in any case, write the same dump. |
| Helpers.FormatAgainstSave | schema_extractor/utils/helpers.py:130-186 | For "json" and "xsd", display and saving produce the same content. A spelling that saving accepts but display does not list, such as "XSD", is rejected by display. |
| Pretty.SectionHeaders | schema_extractor/utils/helpers.py:227-240 | The Attributes, Properties and Array Type headers appear exactly when the element has attributes, has properties and has an item schema. |
| Pretty.ElementIndented | schema_extractor/utils/helpers.py:212-242 | Every line of an element's block starts with `indent` spaces. |
| Pretty.PropertyLinesIndented | schema_extractor/utils/helpers.py:232-235 | Property headers and their blocks sit at least two columns deeper than the element. |
| Pretty.PropertyBlockAt | schema_extractor/utils/helpers.py:232-235 | Each property contributes its `name:` header at indent + 2, followed immediately by its own block at indent + 4. |
| Pretty.ArrayBlockLast | schema_extractor/utils/helpers.py:237-240 | The block ends with the `Array Type:` header and the item schema's block at indent + 2. |
| Pretty.AttributeLinesIndented | schema_extractor/utils/helpers.py:227-230 | Attribute lines sit two columns deeper than the element. |
| Pretty.RootBlock | schema_extractor/utils/helpers.py:189-209 | With a root, the text ends with "Root Element:" and the root's block at indent 2. Without one, no such line appears. |
| Pretty.SplitJoin | schema_extractor/utils/helpers.py:209 | Joining lines that hold no newline with "\n" and splitting again gives the lines back. |
| Text.StripEmptyIffBlank | schema_extractor/extractors/xml_extractor.py:146 | A stripped text is empty exactly when every character is whitespace. |
| Text.NatToStringRoundTrip | schema_extractor/utils/helpers.py:193-199 | Printed counts read back as the same number. |

## Left out

- File and parse I/O is a parameter or absent. `open`, `os.path.exists`, `json.load`, lxml parsing and `_get_creation_time` are not modelled: existence, content and the creation time are parameters, and the document arrives parsed.
- The CLI in `schema_extractor.py` is not part of this model. `test_schema_extractor.py` and the package `__init__` wrappers are not part of it either.
- `to_dict` and `load_schema` are pydantic dumps and loads. A "json"/"dict" result is the marker `DictJson`, not rendered JSON text.
- `validate_schema` and its helpers delegate to `jsonschema` and `xml.etree`, and are not modelled.
- `save_schema` creates the output directory and writes the file. The model returns what would be written, and the directory is not created for a rejected format.
- Comments, processing instructions and `tail` text in XML are outside the element tree model.
- Patterns.ClassifyTextExact: `\d` is read as an ASCII digit only. Python also accepts other Unicode decimal digits.
- Patterns.InferStringTypeExact: the same ASCII-only reading of `\d` applies to the date and datetime patterns.
- JsonExtractor.ClassifyJson: its DATE and DATETIME cases inherit the ASCII-only reading of `\d`.
- Helpers.Extension: lower-casing is ASCII-only. Python's `str.lower` also lower-cases other letters, but no such letter becomes one of the recognised extensions' characters.
- Helpers.SplitExt models `posixpath.splitext`. The Windows variant with `\` separators and drive letters is not modelled.
- JsonMerge.MergeElements requires a non-empty list. The source raises on an empty list, but that list is built from at least two roots, or from a collision pair, so it is never empty.
- JsonMerge.MergedLookup: `model_copy` is shallow and an existing attribute is changed in place, so the source also alters its inputs. The model computes the same merged result and makes no claim about the inputs.
- The counters `property_counts`, `element_counts` and `attribute_counts` are reduced to sets of distinct names, since only their sizes are used.
- `DataNode`, `data_nodes` and `total_data_nodes` are not declared in `models/schema.py`. They are modelled from the constructor calls in both extractors.
- XmlExtractor.XmlNodesDepth: `max_depth` counts element nesting only, so attribute and text nodes may lie one level deeper. No equality with the deepest node is claimed.
- XML data-node paths are not unique (repeated tags share `path.tag`), and JSON paths collide for a top-level key "root" and for keys holding `.` or `[`. No uniqueness is claimed.
- Xsd.ScalarReadBack and Xsd.AttributeReadBack assume names and default values without double quotes. Xsd.XsdIndented assumes they hold no line break, because the source does not escape them.
- Xsd.ObjectIndented and Xsd.XsdIndented state a lower bound on every line's indentation. The exact columns of one OBJECT level are stated by Xsd.ObjectLayout. The columns inside nested declarations follow by applying it again, and are not stated as one lemma.
- Pretty.Repr: example values are printed with an approximation of Python's `repr`. ASCII control characters are escaped, and other non-printable characters are kept as they are. A float prints as its source text, such as "1.50" or "1e2", whereas Python prints `repr(float)`, such as "1.5" or "100.0".
- Floating-point numbers are kept as their source text. No float arithmetic takes place anywhere.
