# pydanticxml, modelled in Dafny

pydanticxml turns pydantic models into XML elements and back again. It has two engines.

- **`pydantic_xmlmodel/serde.py`** is the pydantic v2 engine: `model_dump_xml` and `model_validate_xml`. It inspects each field's annotation with `_analyze_annotation` and `_find_basemodel_types`, then works field by field:
  - a sequence of records becomes child elements;
  - a record becomes one child element;
  - a scalar field named `xml_content` becomes the element's text;
  - every other scalar becomes an attribute.

  The element name comes from `__xml_name__`, then from the model config's `xml_name`, then from the class name.
- **`pydantic_xmlmodel/xmlmodel.py`** is the pydantic v1 engine: the `XMLModel` base class, its `xml_name` class keyword, `to_xml` and `from_xml`. The element name comes from `__xml_name__`, then from the class attribute `__xml_name_function__` applied to the class name (by default it lower-cases it), and from the class name itself when that attribute is None. Fields work as follows:
  - a nested model becomes a child element;
  - a list of models becomes repeated children;
  - the inherited `xml_content` field becomes the element's text, or a list of child elements;
  - every other field becomes an attribute.

The model is organised in these modules:

| module | holds |
|---|---|
| `Wrappers` | `Option` and `Result` |
| `Dict` | a Python dict: an insertion-ordered sequence of key/value pairs, with `get` and item assignment |
| `Xml` | the ElementTree element, `find`/`findall` on plain tags, and `ElementBuilder`, the element a `SubElement`/`set`/`.text` encoder fills in place |
| `Py` | annotations as type descriptors, field values, and the raw bag a decoder hands to validation |
| `Serde`, `SerdeProps` | the v2 engine and what is proved about it |
| `XmlModel`, `XmlModelProps` | the v1 engine and what is proved about it |
| `XmlModelTree` | the v1 round trip for nested and list fields |

Each recursive Python function that fills an element or a dict has two forms:

- a Dafny `method` that works the way the code does, on an `ElementBuilder` or with a loop;
- a specification function that builds the same result as a value.

The method's postcondition ties it to the function. The lemmas then state what the result means:

- which attributes and children appear, in which order;
- which keys the decoded bag holds and what is stored under them;
- which declarations always raise;
- that decoding a flat model's tree gives back its fields, in both engines (`SerdeProps.FlatRoundTrip` for v2, `XmlModelProps.FlatRoundTrip` for v1);
- in the v1 engine, that decoding the tree of an XMLModel built of attributes, nested XMLModels and lists of XMLModels gives back every field: attributes and text as their strings, nested records and list items as the decoding of their own trees (module `XmlModelTree`);
- the concrete documents of the repository's tests.

Python iterates the candidate set of a record field in some order. The decoder takes that order as a parameter, `order`. The lemmas about record and list fields assume `Enumerates(order)`: `order(s)` lists every member of `s` exactly once and nothing else, as iterating a Python set does.

## Model

| member | source | states |
|---|---|---|
| Serde.BasemodelName | pydantic_xmlmodel/serde.py:34-42 | The tag is `__xml_name__` when that is set, else the model config's `xml_name` when it is a string, else the class name. |
| Serde.SelectName | pydantic_xmlmodel/serde.py:129-132 | The alias is used exactly when dumping `by_alias` and the field has one; otherwise the field name. |
| Serde.SelectSubmodelName | pydantic_xmlmodel/serde.py:134-137 | The same rule, under `submodel_by_alias`, for the tag of a nested record. |
| Serde.AnalyzeSequence | pydantic_xmlmodel/serde.py:45-59 | It returns true exactly for a sequence whose arguments are all records, and false exactly for a non-sequence. A bare sequence and a sequence over non-records raise their own errors. |
| Serde.AllRecordArgs | pydantic_xmlmodel/serde.py:53-58 | It returns true iff every argument from i on is a record; otherwise "list of non-record" is raised. |
| Serde.AnalyzeAnnotation | pydantic_xmlmodel/serde.py:62-83 | The classifier, with its loop over the arms of a union, returns exactly `KindOf` (the is-list and is-record flags, or the error raised). |
| SerdeProps.KindOfCases | pydantic_xmlmodel/serde.py:62-83 | `str`, scalars and None classify as (false, false) and a record as (false, true). A record list classifies as (true, true); any other sequence gives the sequence error. A union succeeds iff every arm is accepted, and ORs the arms' flags. |
| SerdeProps.KindErrors | pydantic_xmlmodel/serde.py:45-83 | The only errors classification raises are "list without type arguments" and "list of non-record". |
| SerdeProps.UnionKindOk | pydantic_xmlmodel/serde.py:67-73 | A union classifies without error iff every remaining arm is a scalar, None, a record or a record list. |
| SerdeProps.UnionKindFlags | pydantic_xmlmodel/serde.py:67-73 | A successful union is list-like iff some arm is a sequence. It is record-like iff some arm is a record or a sequence. |
| SerdeProps.UnionKindError | pydantic_xmlmodel/serde.py:67-73 | A failing union fails at its first rejected arm, with that arm's error. |
| Serde.ModelArgs | pydantic_xmlmodel/serde.py:100-103 | An id is collected iff the argument list contains that record type. |
| Serde.FindBasemodelTypes | pydantic_xmlmodel/serde.py:86-107 | With the code's union search, the method with its loops returns `BasemodelTypesAsWritten`: a union contributes only its record arms. With the corrected search it returns `BasemodelTypes`, which also takes the records inside a union's sequence arms (see Findings). |
| SerdeProps.UnionModelsHasSeqArms | pydantic_xmlmodel/serde.py:90-103 | The corrected union branch includes the records inside every sequence arm. |
| SerdeProps.CandidatesExist | pydantic_xmlmodel/serde.py:244-259 | Every annotation that classifies as record-like has a non-empty candidate set. So with the corrected set, the "has no basemodel type" error at lines 257-259 cannot be raised. |
| SerdeProps.OptionalListAsWritten | pydantic_xmlmodel/serde.py:90-94 | For `Optional[List[A]]` the code as written finds no candidates, where the corrected set is {A}. |
| Serde.ConvertToXml | pydantic_xmlmodel/serde.py:139-186 | Filling an element in place leaves it equal to `EncodeInto` of its old state, or returns `EncodeInto`'s error. |
| Serde.ModelDumpXml | pydantic_xmlmodel/serde.py:110-194 | The method returns `DumpXml`: the rendered root, with the XML declaration prepended when asked, or the encoding error. |
| SerdeProps.EncodeItemsFrame | pydantic_xmlmodel/serde.py:160-170 | Encoding a record list only appends children: tag, attributes and text are unchanged and the old children form a prefix. |
| SerdeProps.EncodeFieldFrame | pydantic_xmlmodel/serde.py:157-186 | One field keeps the tag and appends children. It sets one attribute (under the chosen name, to the value's string) iff it is an attribute field. It sets the text iff it is the text field. A None value changes nothing. |
| SerdeProps.EncodeFieldsFrame | pydantic_xmlmodel/serde.py:142-186 | All fields together add exactly the attribute names of the attribute fields, keep the tag and only append children. |
| SerdeProps.EncodeFieldsText | pydantic_xmlmodel/serde.py:179-182 | The text is unchanged when no text field follows. Otherwise it is the string of the last text field. |
| SerdeProps.EncodeKeepsTag | pydantic_xmlmodel/serde.py:139-186 | The encoder never changes the tag of the element it fills. |
| SerdeProps.EncodeItemsTags | pydantic_xmlmodel/serde.py:163-170 | The children a record list appends carry, in order, the tags of its record items. |
| SerdeProps.EncodeFieldTags | pydantic_xmlmodel/serde.py:160-177 | One field appends the tags `FieldTags` lists: one per record item for a list, one for a record, none otherwise. |
| SerdeProps.EncodeFieldsTags | pydantic_xmlmodel/serde.py:142-177 | The children of the filled element carry the fields' tags in declaration order. |
| SerdeProps.DumpTreeRoot | pydantic_xmlmodel/serde.py:127-189 | The dumped root has the model's tag. Its children's tags are the tags of the fields in order, and its attribute names are exactly those of the attribute fields. |
| Serde.DecodeKey | pydantic_xmlmodel/serde.py:238-242 | Decoding by alias with a non-string validation alias raises. Otherwise the key is the string alias when decoding by alias (an empty one is ignored), else the field name. |
| Serde.ConvertFromXml | pydantic_xmlmodel/serde.py:210-279 | The method returns exactly `DecodeElement`. |
| Serde.ConvertField | pydantic_xmlmodel/serde.py:222-276 | One pass of the field loop returns exactly `DecodeField`. |
| Serde.ConvertSingular | pydantic_xmlmodel/serde.py:244-254 | The loop over the candidate records returns `SingularFrom` from the first candidate. |
| Serde.ConvertCandidate | pydantic_xmlmodel/serde.py:249-254 | One candidate step either continues `SingularFrom` with the updated dict or yields its error. |
| Serde.ConvertList | pydantic_xmlmodel/serde.py:255-267 | The loop over the candidates of a record list returns `ListFrom`. |
| Serde.ModelValidateXml | pydantic_xmlmodel/serde.py:197-283 | The method returns the raw bag `convert_from_xml` builds for the parsed root, before validation. It is exactly `DecodeElement` under the code's union search. |
| Serde.ModelValidateXmlCorrected | pydantic_xmlmodel/serde.py:197-283 | The same under the corrected union search. |
| SerdeProps.SingularFromOk | pydantic_xmlmodel/serde.py:249-254 | Looking up a singular record never fails by itself: every candidate that is found decodes into the bag or is overwritten. |
| SerdeProps.OverwriteOk | pydantic_xmlmodel/serde.py:249-254 | A fold that overwrites one key fails iff the decoding of some found candidate fails. |
| SerdeProps.SingularFromValue | pydantic_xmlmodel/serde.py:249-254 | The key ends up holding the decoding of the LAST candidate whose tag is present, or stays unchanged when none is. |
| SerdeProps.DecodeEachOk | pydantic_xmlmodel/serde.py:263-267 | Decoding the `findall` children of a candidate succeeds iff every one of them decodes. |
| SerdeProps.DecodeEachValue | pydantic_xmlmodel/serde.py:263-267 | The decodings are appended to the accumulator one per child, in document order. |
| SerdeProps.ListFromOk | pydantic_xmlmodel/serde.py:255-267 | A record list decodes iff every (child, candidate) pair of `Work` decodes. `Work` lists candidate by candidate, children in document order. |
| SerdeProps.ListFromValue | pydantic_xmlmodel/serde.py:255-267 | The resulting list has one item per pair of `Work`, each the decoding of that pair. |
| SerdeProps.DecodeFieldKeys | pydantic_xmlmodel/serde.py:222-276 | One field adds its key exactly when it is present in the element and leaves every other key as it was. |
| SerdeProps.DecodeScalarValue | pydantic_xmlmodel/serde.py:268-276 | A present scalar field stores the raw string of its attribute, or of the element text for `xml_content`. |
| SerdeProps.DecodeRecordValue | pydantic_xmlmodel/serde.py:244-254 | A present record field stores the decoding of the child of the last candidate found. |
| SerdeProps.DecodeListValue | pydantic_xmlmodel/serde.py:255-267 | A record-list field stores a list with one decoding per element of `Work`. For each class, `Work` visits exactly its `findall` children when it is a candidate, and nothing when it is not. |
| SerdeProps.WorkFor | pydantic_xmlmodel/serde.py:255-267 | Over distinct candidates, the children `Work` visits for class c are exactly c's `findall` children, in document order, when c is a candidate, and none otherwise. |
| SerdeProps.WorkOccurs | pydantic_xmlmodel/serde.py:255-267 | The induction behind `WorkFor`: from candidate k on, with no candidate repeated later, the children `Work` visits for c are c's `findall` children if c occurs from k on, and none otherwise. |
| SerdeProps.NoCandidatesFails | pydantic_xmlmodel/serde.py:257-259 | A record-like field whose search finds no candidate makes the field loop fail from every earlier position, whatever the element. |
| SerdeProps.OptionalListRejected | pydantic_xmlmodel/serde.py:244-259 | As written, `model_validate_xml` of a class with an `Optional[List[A]]` field raises for every document. Once the loop reaches that field, the error is "has no basemodel type". |
| SerdeProps.SingleCandidateOk | pydantic_xmlmodel/serde.py:255-267 | A record list with the single candidate A decodes iff every `findall` child of A decodes. |
| SerdeProps.SingleCandidateValue | pydantic_xmlmodel/serde.py:255-267 | It then holds one decoding per such child, in document order. |
| SerdeProps.OptionalListDecodes | pydantic_xmlmodel/serde.py:244-267 | With the corrected search, an `Optional[List[A]]` field decodes iff every `<A>` child decodes, and then stores their decodings in document order. |
| SerdeProps.DecodeFieldsKeys | pydantic_xmlmodel/serde.py:222-276 | The field loop adds exactly the keys of the present fields. |
| SerdeProps.DecodeElementKeys | pydantic_xmlmodel/serde.py:210-279 | `convert_from_xml` returns a bag keyed by exactly the present fields. Absent attributes and children become missing keys. |
| SerdeProps.DecodeScalarField | pydantic_xmlmodel/serde.py:268-276 | One scalar field: its attribute (for `xml_content`, the text) is stored as raw text under its key when it is there, and the bag is unchanged otherwise. |
| SerdeProps.DecodeScalarsGet | pydantic_xmlmodel/serde.py:268-276 | Over a class whose fields are all scalars with distinct names and keys, the field loop succeeds on any element. Each field's key holds its attribute (for `xml_content`, the text) when that is there, and keeps its earlier value otherwise. |
| SerdeProps.DecodeScalarsKeys | pydantic_xmlmodel/serde.py:268-276 | Over such a class, the field loop adds exactly the present fields' keys. |
| SerdeProps.PresentKeysFromHas | pydantic_xmlmodel/serde.py:268-276 | A key among the present fields' keys is the key of one present field. |
| SerdeProps.EncodeScalarsAttrib | pydantic_xmlmodel/serde.py:178-186 | Over a model of scalar values, the field loop succeeds and keeps the tag and the children. Each set attribute field's printed value is written under its name, and the other names keep their values. |
| SerdeProps.EncodeScalarsText | pydantic_xmlmodel/serde.py:178-182 | Over a model of scalar values, the text is the printed content when the content field is set, and is unchanged when it is None or absent. |
| SerdeProps.EncodeScalarField | pydantic_xmlmodel/serde.py:178-186 | One scalar field: None is skipped, `xml_content` sets the text, any other value sets its attribute under its name. |
| SerdeProps.DumpedScalars | pydantic_xmlmodel/serde.py:178-186 | Every field of a flat model reads back from the dumped root its printed value, or nothing for None. |
| SerdeProps.ScalarBagKeys | pydantic_xmlmodel/serde.py:268-276 | Every key of a bag read over a scalar class is the key of a field that reads something. |
| SerdeProps.KeysAgreeByName | pydantic_xmlmodel/serde.py:238-242 | With `by_alias` off for both dumping and validating, every attribute is read back under the name it is written under. |
| SerdeProps.KeysAgreeByAlias | pydantic_xmlmodel/serde.py:238-242 | With `by_alias` on for both, a field whose validation alias equals its non-empty serialization alias is read back under the name it is written under. |
| SerdeProps.FlatRoundTrip | pydantic_xmlmodel/serde.py:127-281 | `model_validate_xml` reading back the root `model_dump_xml` builds, for a model of scalar fields (one may be `xml_content`) with distinct names and keys, each attribute written under the key it is read from. Decoding succeeds. A set field's key holds its printed value, a None field's key is missing, and the bag has no other key. |
| Xml.FirstTagged | pydantic_xmlmodel/serde.py:250 | The index found carries the tag and no earlier child does. None means that no child carries it. |
| Xml.Find | pydantic_xmlmodel/xmlmodel.py:322 | `find` returns a direct child with the tag, and returns nothing iff no direct child carries it. |
| Xml.Tagged | pydantic_xmlmodel/xmlmodel.py:313 | Selecting by tag keeps exactly the children that carry the tag. |
| Xml.FindAll | pydantic_xmlmodel/serde.py:263 | `findall` returns exactly the direct children with the tag: only those, and every one of them. |
| Xml.TaggedAppend | pydantic_xmlmodel/xmlmodel.py:313 | Selection distributes over concatenation, so document order is kept. |
| Xml.FindIsFirstOfFindAll | pydantic_xmlmodel/xmlmodel.py:313-322 | `find` succeeds iff `findall` is non-empty, and then returns its first element. |
| Xml.TagsOfAppend | pydantic_xmlmodel/serde.py:166-169 | The tags of concatenated children are the concatenated tags. |
| Xml.ElementBuilder.constructor | pydantic_xmlmodel/serde.py:127 | `Element(tag)` has no attributes, no children and no text. |
| Xml.ElementBuilder.Set | pydantic_xmlmodel/serde.py:184-186 | `set` writes one attribute and changes nothing else. |
| Xml.ElementBuilder.Append | pydantic_xmlmodel/serde.py:166-169 | `SubElement` appends one child at the end and changes nothing else. |
| Xml.ElementBuilder.SetText | pydantic_xmlmodel/serde.py:181-182 | Assigning `text` sets the text and changes nothing else. |
| Xml.WithDeclaration | pydantic_xmlmodel/serde.py:191-192 | With the flag, the document is the XML declaration followed by exactly the rendered root; without it, just the rendered root. |
| Dict.Get | pydantic_xmlmodel/serde.py:273 | `get` finds a value iff the key is present, and the value is stored under it. |
| Dict.Put | pydantic_xmlmodel/serde.py:254 | Item assignment stores the value under the key and leaves other keys alone. A new key is appended at the end; an existing key keeps its place. |
| Dict.PutPut | pydantic_xmlmodel/serde.py:249-254 | Assigning the same key twice keeps only the second value, as the candidate loop relies on. |
| Dict.PutDistinct | pydantic_xmlmodel/serde.py:254 | Assignment never introduces a duplicate key. |
| XmlModel.Lower | pydantic_xmlmodel/xmlmodel.py:64 | The lower-cased name has the same length, no upper-case letter, and every other character unchanged. |
| XmlModelProps.LowerIdempotent | pydantic_xmlmodel/xmlmodel.py:64 | Lower-casing twice is lower-casing once. |
| XmlModel.XmlName | pydantic_xmlmodel/xmlmodel.py:97-104 | The tag is `__xml_name__` when set, else the name function applied to the class name, else the class name. |
| XmlModelProps.DefaultTagIsLowerCase | pydantic_xmlmodel/xmlmodel.py:64 | With the default configuration the tag is the lower-cased class name and contains no upper-case letter. |
| XmlModelProps.KeywordNamesRoot | pydantic_xmlmodel/xmlmodel.py:32-41 | The `xml_name` class keyword wins over a body `__xml_name__` and becomes the root tag. |
| XmlModel.ContentIndex | pydantic_xmlmodel/xmlmodel.py:196-197 | It finds the `xml_content` field when there is one, and otherwise reports that no field has that name. |
| XmlModel.FieldXmlName | pydantic_xmlmodel/xmlmodel.py:299-303 | Without a `__xml_name__` in the field's extra, a field is read under its alias. |
| XmlModel.ToXmlInner | pydantic_xmlmodel/xmlmodel.py:142-216 | Filling an element in place leaves it equal to `EncodeInto` of its old state, or returns `EncodeInto`'s error. |
| XmlModel.AppendItems | pydantic_xmlmodel/xmlmodel.py:175-183 | The loop appending one child per list item agrees with `EncodeIterated`. |
| XmlModel.ModelToXml | pydantic_xmlmodel/xmlmodel.py:106-238 | `to_xml` returns `ToXml`: the rendered root, with the declaration when `include_xml_version` is set. |
| XmlModelProps.EncodeItemsFrame | pydantic_xmlmodel/xmlmodel.py:175-183 | Encoding list items only appends children. |
| XmlModelProps.EncodeIteratedFrame | pydantic_xmlmodel/xmlmodel.py:166-183 | Encoding a list field only appends children. |
| XmlModelProps.EncodeFieldFrame | pydantic_xmlmodel/xmlmodel.py:145-194 | One field keeps tag and text and only appends children. It sets the attribute under its alias to the value's string iff it is an attribute field; None is skipped under `exclude_none`. |
| XmlModelProps.EncodeFieldsFrame | pydantic_xmlmodel/xmlmodel.py:145-194 | The field loop adds exactly the attribute names of the attribute fields. |
| XmlModelProps.EncodeContentFrame | pydantic_xmlmodel/xmlmodel.py:196-216 | The content step keeps tag and attributes, only appends children, and sets the text iff the content is a set scalar. |
| XmlModelProps.EncodeIntoFrame | pydantic_xmlmodel/xmlmodel.py:142-216 | A whole `to_xml_innner` call keeps the tag, only appends children, adds exactly the attribute fields' names, and sets the text from the content. |
| XmlModelProps.EncodeItemsTags | pydantic_xmlmodel/xmlmodel.py:175-183 | The appended children carry, in order, one tag per record item: the item's own class tag (`_get_xml_name()` for an XMLModel, the class name otherwise), or the fixed tag when one is given. Only the content list gives one. |
| XmlModelProps.EncodeFieldTags | pydantic_xmlmodel/xmlmodel.py:152-183 | One field appends exactly the tags `FieldTags` lists. |
| XmlModelProps.EncodeFieldsTags | pydantic_xmlmodel/xmlmodel.py:145-183 | The field loop appends the fields' tags in declaration order. |
| XmlModelProps.EncodeContentTags | pydantic_xmlmodel/xmlmodel.py:206-213 | A content list appends one child per record item, all with the declared element type's tag (`_get_xml_name()` for an XMLModel, the class name otherwise), whatever the item's own class. |
| XmlModelProps.EncodeKeepsTag | pydantic_xmlmodel/xmlmodel.py:142-216 | The encoder never changes the tag of the element it fills. |
| XmlModelProps.EncodeIntoTags | pydantic_xmlmodel/xmlmodel.py:142-216 | Children come in field order, as the tests expect, with the content's children last. |
| XmlModelProps.ToTreeFrame | pydantic_xmlmodel/xmlmodel.py:219-221 | The root carries the model's tag and exactly the attribute fields' names, and its text is the content. |
| XmlModelProps.ToTreeChildren | pydantic_xmlmodel/xmlmodel.py:219-221 | The root's children are the field children followed by the content children. |
| XmlModelProps.EncodeRejectsListOfNonRecord | pydantic_xmlmodel/xmlmodel.py:166-173 | A field that is a list over non-records makes the field loop fail, whatever its value. |
| XmlModelProps.ToXmlRejectsListOfNonRecord | pydantic_xmlmodel/xmlmodel.py:166-173 | `to_xml` raises for every instance of a class with such a field. |
| XmlModelProps.EncodeContentListOfNonRecord | pydantic_xmlmodel/xmlmodel.py:196-204 | A content list over non-records raises exactly when the content is set, with that error. |
| XmlModel.FromElement | pydantic_xmlmodel/xmlmodel.py:270-357 | The method returns exactly `DecodeElement`. |
| XmlModel.ReadValue | pydantic_xmlmodel/xmlmodel.py:305-325 | Reading one field's value returns exactly `DecodeValue`. |
| XmlModel.ReadAll | pydantic_xmlmodel/xmlmodel.py:311-314 | The `findall` comprehension returns `DecodeAllFrom` from the first child. |
| XmlModel.ReadTagged | pydantic_xmlmodel/xmlmodel.py:344-349 | The loop over all children, filtered by tag, returns `DecodeTaggedFrom`. |
| XmlModel.FromXml | pydantic_xmlmodel/xmlmodel.py:241-360 | `from_xml` returns the raw bag `from_element` builds for the parsed root, before validation. |
| XmlModelProps.FromXmlRejectsListOfNonRecord | pydantic_xmlmodel/xmlmodel.py:282-289 | `from_xml` raises for every element when a field is a list over non-records. |
| XmlModelProps.FromXmlRejectsContentListOfNonRecord | pydantic_xmlmodel/xmlmodel.py:329-338 | `from_xml` raises for every element when the content is a list over non-records. |
| XmlModelProps.StaleName | pydantic_xmlmodel/xmlmodel.py:290-296 | A list of plain BaseModels is looked up under whatever name the previous field left behind. |
| XmlModelProps.StaleNameFirst | pydantic_xmlmodel/xmlmodel.py:290-296 | As the first field of its class, such a list leaves no name to reuse, and `from_xml` raises. |
| XmlModelProps.DecodeEachOk | pydantic_xmlmodel/xmlmodel.py:313-314 | A comprehension of decodings succeeds iff every element decodes. |
| XmlModelProps.DecodeEachValue | pydantic_xmlmodel/xmlmodel.py:313-314 | The comprehension appends one decoding per element, in order. |
| XmlModelProps.DecodeAllIsEach | pydantic_xmlmodel/xmlmodel.py:313-314 | The decoder's list step is that comprehension over `findall(name)`. |
| XmlModelProps.DecodeAllOk | pydantic_xmlmodel/xmlmodel.py:311-314 | A list field decodes iff every `findall` child decodes. |
| XmlModelProps.DecodeAllValue | pydantic_xmlmodel/xmlmodel.py:311-314 | The list holds one decoding per `findall` child, in document order. |
| XmlModelProps.TaggedIsFindAllFrom | pydantic_xmlmodel/xmlmodel.py:344-349 | Walking all children with a tag filter at child k equals the `findall` comprehension at the matching position. |
| XmlModelProps.ContentIsFindAll | pydantic_xmlmodel/xmlmodel.py:344-349 | The content loop decodes exactly what `findall` of the item tag would. |
| XmlModelProps.DecodeContentKey | pydantic_xmlmodel/xmlmodel.py:329-352 | The content key holds the element text, or "" when there is none. For a content list it holds one decoding per child with the item class's tag. |
| XmlModelProps.DecodeScalarField | pydantic_xmlmodel/xmlmodel.py:299-309 | A scalar field stores its attribute's string under its XML name when the attribute is present, and otherwise leaves the dict alone. That name becomes the name handed on. |
| XmlModelProps.DecodeNestedField | pydantic_xmlmodel/xmlmodel.py:297-325 | A nested record is read from the first child with its tag, unless the tag names an `xmlns:` prefix. It fails iff that child fails, and an absent child leaves the dict alone. |
| XmlModelProps.DecodeListField | pydantic_xmlmodel/xmlmodel.py:282-314 | A record list is read from every `findall` child. XMLModel items use their class tag; plain items use the stale name. It fails iff some child fails; otherwise it stores one decoding per child and touches no other key. |
| XmlModelProps.EncodeFlatOk | pydantic_xmlmodel/xmlmodel.py:145-194 | A model with only scalar fields encodes without error. |
| XmlModelProps.EncodeFlatGet | pydantic_xmlmodel/xmlmodel.py:185-194 | Each scalar field's attribute holds the string of its value, unless it is skipped. |
| XmlModelProps.DecodeFlatOk | pydantic_xmlmodel/xmlmodel.py:299-309 | Such a model decodes without error. |
| XmlModelProps.DecodeFlatGet | pydantic_xmlmodel/xmlmodel.py:299-309 | Each scalar field's key holds its attribute's string when the attribute is present. |
| XmlModelProps.FlatTree | pydantic_xmlmodel/xmlmodel.py:185-216 | The root of a flat model carries one attribute per field that is set, and the content as its text. |
| XmlModelProps.FlatRoundTrip | pydantic_xmlmodel/xmlmodel.py:185-216 | Decoding the tree of a flat model gives back every field's string under its alias; a None skipped by `exclude_none` gives a missing key. The content comes back as its string, or "" when it was None. |
| XmlModelProps.ExampleModelToXml | tests/test_main.py:252-261 | `ExampleModel(name="test", value=123)` becomes `<example name="test" value="123"/>`. |
| XmlModelProps.ExampleModelFromXml | tests/test_main.py:264-274 | `<example name="test" value="123"/>` reads back as name "test", value "123" and empty content. |
| XmlModelProps.HolderToXml | pydantic_xmlmodel/xmlmodel.py:175-183 | A list of plain BaseModels is written as one `<Plain/>` child per item. |
| XmlModelProps.HolderFromXmlLosesPlainList | pydantic_xmlmodel/xmlmodel.py:290-296 | Reading that element back looks under the stale name "a", so the list comes back empty. |
| XmlModelProps.SameNameToXml | tests/test_main.py:58-64 | An attribute `test` and a nested model tagged `test` give `<test2 test="test str"><test/></test2>`. |
| XmlModelProps.SameNameFromXml | tests/test_main.py:528-538 | That document reads back with the attribute under `test` and the nested model under `test_model`. |
| XmlModelTree.TreesValue | pydantic_xmlmodel/xmlmodel.py:174-183 | The trees of a list of records succeed iff every record's tree does, and then come one per record, in order. |
| XmlModelTree.EncodeItemsTrees | pydantic_xmlmodel/xmlmodel.py:175-183 | The item loop from item j appends the items' trees in order, or fails with the first failing tree, whenever a fixed tag is every item's own class tag. |
| XmlModelTree.EncodeFieldBlock | pydantic_xmlmodel/xmlmodel.py:150-194 | One field of a tree model either sets its attribute and appends its block of children (its nested record's tree, or its items' trees), or fails exactly when that block fails. |
| XmlModelTree.EncodeFieldsBlocks | pydantic_xmlmodel/xmlmodel.py:145-194 | When the fields' blocks encode, the field loop succeeds, keeps tag and text, and appends the blocks in field order. |
| XmlModelTree.EncodeContentBlock | pydantic_xmlmodel/xmlmodel.py:196-216 | The content step appends the content's block, and sets the text only for a text content that is set. |
| XmlModelTree.EncodeAttrGet | pydantic_xmlmodel/xmlmodel.py:185-194 | When attribute fields have distinct aliases, after the field loop a field's alias holds its printed value if the field writes an attribute, and what it held before otherwise. |
| XmlModelTree.EncodeIntoBlocks | pydantic_xmlmodel/xmlmodel.py:142-216 | `to_xml_innner` on a tree value appends the field blocks, then the content's block, and sets the text of a set text content. |
| XmlModelTree.TreeBlocks | pydantic_xmlmodel/xmlmodel.py:142-216 | When the sub-records read back, the tree of a tree value exists: its children are the field blocks followed by the content's block. |
| XmlModelTree.FieldBlockTagged | pydantic_xmlmodel/xmlmodel.py:152-183 | All children of a field's block carry that field's child tag, so selecting the tag finds the whole block and any other tag finds nothing there. |
| XmlModelTree.TaggedJoined | pydantic_xmlmodel/xmlmodel.py:313 | When only block i holds children with a tag, selecting that tag in the joined blocks finds exactly block i. |
| XmlModelTree.TreeFieldChildren | pydantic_xmlmodel/xmlmodel.py:145-183 | In the tree of a tree value, `findall` of a nested or list field's child tag returns exactly that field's block, because child tags are distinct. |
| XmlModelTree.TreeContentChildren | pydantic_xmlmodel/xmlmodel.py:206-213 | In that tree, the content's element tag selects exactly the content's block. |
| XmlModelTree.TreeAttrib | pydantic_xmlmodel/xmlmodel.py:185-194 | The root's attribute under an attribute field's alias is that field's printed value, unless `exclude_none` dropped a None. |
| XmlModelTree.DecodeTreeField | pydantic_xmlmodel/xmlmodel.py:272-325 | One pass of the decoder's field loop over a tree model succeeds, sets the field's key as `ReadField` says, and touches no other key. |
| XmlModelTree.DecodeTreeOk | pydantic_xmlmodel/xmlmodel.py:272-325 | The decoder's field loop over a tree model succeeds when every field's children decode. |
| XmlModelTree.DecodeTreeKeeps | pydantic_xmlmodel/xmlmodel.py:272-325 | The loop leaves alone a key that no field reads into. |
| XmlModelTree.DecodeTreeGet | pydantic_xmlmodel/xmlmodel.py:272-325 | After the loop, a field's key holds what that field's own pass read. |
| XmlModelTree.DecodeTreesBack | pydantic_xmlmodel/xmlmodel.py:311-314 | Children that are the trees of records of one class decode, one by one and in order, as those records read back. |
| XmlModelTree.ReadNestedBack | pydantic_xmlmodel/xmlmodel.py:297-325 | A nested field reads back from the value's tree as the decoding of the nested record's own tree, and as nothing when it is None. |
| XmlModelTree.ReadListBack | pydantic_xmlmodel/xmlmodel.py:282-314 | A list field reads back as one decoding per item, each the item's own round trip. |
| XmlModelTree.ReadAttrBack | pydantic_xmlmodel/xmlmodel.py:299-309 | An attribute field reads back as its printed value, unless `exclude_none` dropped a None. |
| XmlModelTree.ReadFieldBack | pydantic_xmlmodel/xmlmodel.py:297-325 | Every non-content field of a tree value reads back as `FieldBack` says. |
| XmlModelTree.ContentBack | pydantic_xmlmodel/xmlmodel.py:327-352 | The content reads back as its printed value ("" for None), or as one decoding per item for a content list (an empty list for None). |
| XmlModelTree.BackOfTree | pydantic_xmlmodel/xmlmodel.py:270-352 | When its sub-records read back, a tree value reads back as a keyed bag in which every field's key holds what `FieldBack` says. |
| XmlModelTree.TreeRoundTrip | pydantic_xmlmodel/xmlmodel.py:142-352 | `from_element` on the tree `to_xml_innner` builds for a tree value succeeds. Attributes come back as their printed values, the text content as its text, and every nested record and list item as the decoding of its own tree, each under its own key. |
| XmlModelTree.ToTreeIsTree | pydantic_xmlmodel/xmlmodel.py:219-221 | For an XMLModel, the root `to_xml` builds is the tree under the class tag. |
| XmlModelTree.SameNameIsTree | tests/test_main.py:62-64 | The repository's same-name instance is a tree value, so the round trip covers it. |
| XmlModelTree.EmptyModelIsTree | tests/test_main.py:58-59 | `ExampleModelEmpty()` is a tree value. |

## Left out

- `ElementTree.tostring`, `fromstring`, `minidom` and indentation: rendering and parsing are the `render` function parameter and the already-parsed root element. The model works on the element tree.
- `str()` of a field value: the `show` function parameter. The docstring's note at xmlmodel.py:138 about booleans is not modelled.
- pydantic validation (`model_validate`, `model(**data)`) and field coercion: both decoders stop at the raw bag they hand to validation. The round trip is stated on that bag: for flat models in both engines (`SerdeProps.FlatRoundTrip`, `XmlModelProps.FlatRoundTrip`), for tree models (attributes, nested XMLModels, lists of XMLModels) in the v1 engine only (`XmlModelTree.TreeRoundTrip`), and for the repository's same-name and example documents. That the validated instance re-encodes to the same tree needs validation and is not stated.
- PEP 604 unions (`A | None`, of type `types.UnionType` before Python 3.14): the `Union` descriptor stands for `typing.Union` and `Optional` only. serde.py compares `get_origin` with `typing.Union` (serde.py:67, serde.py:90), so it treats such an annotation as a scalar; the model has no descriptor for it.
- `Dict`, `Set` and `FrozenSet` annotations. In the v2 engine they are neither sequences nor records, so serde.py:62-83 classifies them as scalars: the `Scalar` descriptor covers them, and the value is written as its `str()`. In the v1 engine pydantic gives such a field `sub_fields`, and the model has no descriptor for that: `Dict[str, int]`, `Set[int]` and `FrozenSet[int]` make `to_xml` and `from_xml` raise the list-of-non-record error (xmlmodel.py:166-173, xmlmodel.py:282-289), and `Dict[str, Model]` iterates the dict's keys as if they were items (xmlmodel.py:175-183). There, `Scalar` stands only for annotations without `sub_fields`.
- Python typing reflection (`get_origin`, `get_args`, `model_fields`, `__fields__`, `outer_type_`, `sub_fields`): replaced by `Type` descriptors and per-class field tables. `Tuple`, `List` and `Sequence` are one `Seq` constructor; `Any` and the other non-`str` scalars are `Scalar`.
- The metaclass `XMLModelMeta.__new__` is modelled only through its effect, `DeclaredXmlName`: the keyword wins over the body attribute. Class creation itself is not modelled.
- XML namespaces: tags are opaque strings; `find`/`findall` take plain tags only, without paths or `{uri}` prefixes.
- Logging calls: they have no effect on results.
- `str.lower` is ASCII lower-casing: there is no Unicode case mapping.
- Python set iteration order in `_find_basemodel_types`: the `order` parameter of the decoder, a function from the candidate set to a sequence. Which order Python picks is not modelled; the lemmas assume only `Enumerates(order)`, that every member is listed once.
- Aliasing between a `SubElement` child and its parent while the child is filled: the child is encoded into its own element first and then appended. The result is the same, because nothing else writes the child in between.
- `pydantic_xmlmodel/__init__.py`: its imports only re-export the two engines.
- Serde.ModelValidateXml: returns the raw bag and not the validated instance, because validation is not modelled.
- XmlModel.FromXml: returns the raw bag and not `cls(**data)`, for the same reason.
- XmlModelTree.TreeRoundTrip: covers only XMLModels whose nested and list fields are XMLModels, with pairwise distinct field names, read-back keys and child tags, no "xmlns:" in a nested element name, and no `__xml_name__` extra on an attribute field. The source itself does not read the other shapes back: a nested plain BaseModel is written under its class name (xmlmodel.py:159) but looked up under the field's alias (xmlmodel.py:300-303), and a list of plain BaseModels is looked up under a stale name (`XmlModelProps.StaleName`).
- SerdeProps.FlatRoundTrip: covers only scalar fields. A v2 round trip for models with nested records or lists is not stated. It is stated on the element tree: an `xml_content` printed as "" would be parsed back as no text by `fromstring`, which the model does not capture, since parsing is left out.
- XmlModelProps.FlatRoundTrip: the special case of attribute-only models; nested records and lists are covered by `XmlModelTree.TreeRoundTrip`.

## Findings

| source | as written | input that shows it | evidently intended | confidence | as-written member | corrected member |
|---|---|---|---|---|---|---|
| pydantic_xmlmodel/serde.py:90-94 | The `Union` branch of `_find_basemodel_types` adds only the arms that are records. It does not look inside sequence arms, although `_analyze_annotation` classifies such a union as a record list. | A field `children: Optional[List[A]]`. The candidate set is empty, so `model_validate_xml` raises "has no basemodel type" (serde.py:257-259) for every document. | The candidates of a union include the records inside its sequence arms, here {A}. | not executed | SerdeProps.OptionalListRejected (`Serde.BasemodelTypesAsWritten`, `Serde.ModelValidateXml`) | SerdeProps.OptionalListDecodes (`Serde.BasemodelTypes`, `Serde.ModelValidateXmlCorrected`) |
