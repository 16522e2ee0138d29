/**
 * The pydantic v1 engine (`XMLModel.to_xml` / `XMLModel.from_xml`): the
 * element name of a class, pydantic v1's reading of a field annotation
 * (`type_`, `sub_fields`, `allow_none`), the recursive encoder
 * `to_xml_innner` and the recursive decoder `from_element`.
 *
 * As in the v2 engine, each operation is a specification function (a suffix
 * fold over the source's loop) and a method with the source's loops, proved
 * equal to it.
 */
module XmlModel {
  import opened Wrappers
  import Dict
  import opened Xml
  import opened Py

  // ---------------------------------------------------------------- names

  /** `str.lower()` on one character (ASCII letters only). */
  function LowerChar(c: char): char
  {
    if 'A' <= c <= 'Z' then (c as int + 32) as char else c
  }

  /** `str.lower()` (ASCII letters only). */
  function Lower(s: string): (r: string)
    ensures |r| == |s|
    ensures forall i :: 0 <= i < |r| ==> !('A' <= r[i] <= 'Z')
    ensures forall i :: 0 <= i < |s| && !('A' <= s[i] <= 'Z') ==> r[i] == s[i]
  {
    seq(|s|, i requires 0 <= i < |s| => LowerChar(s[i]))
  }

  /** The default `__xml_name_function__`, `lambda x: x.lower()`. */
  const DefaultNameFunction: Option<string -> string> := Some(Lower)

  /** A field as pydantic v1 describes it: name, alias (the name unless set), annotation, and `field_info.extra["__xml_name__"]`. */
  datatype FieldDef = FieldDef(name: string, alias: string, outerType: Type, extraXmlName: Option<string>)

  /**
   * What the engine reads of a class: its `__name__`, whether it is an
   * XMLModel or a plain BaseModel, the `__xml_name__` and
   * `__xml_name_function__` in effect for it, and its fields in pydantic
   * v1's order (inherited fields, such as `xml_content`, first).
   */
  datatype ModelDef = ModelDef(
    className: string,
    isXmlModel: bool,
    xmlNameAttr: Option<string>,
    nameFunction: Option<string -> string>,
    fields: seq<FieldDef>)

  /** Every record class the program declares, by identity. */
  type Schema = ModelId -> ModelDef

  /** The number of fields of each class. */
  function Arity(schema: Schema): ModelId -> nat
  {
    m => |schema(m).fields|
  }

  /** An instance has one value per declared field of its class, all the way down. */
  predicate Conforms(schema: Schema, v: Value)
  {
    Shaped(Arity(schema), v)
  }

  /**
   * `XMLModelMeta.__new__`: the `xml_name` class keyword, when given, is
   * written into the class body as `__xml_name__`; otherwise the class keeps
   * the `__xml_name__` its body or its bases give it.
   */
  function DeclaredXmlName(keyword: Option<string>, fromBody: Option<string>): Option<string>
  {
    if keyword.Some? then keyword else fromBody
  }

  /** `XMLModel._get_xml_name`. */
  function XmlName(d: ModelDef): (r: string)
    ensures d.xmlNameAttr.Some? ==> r == d.xmlNameAttr.value
    ensures d.xmlNameAttr.None? && d.nameFunction.Some? ==> r == d.nameFunction.value(d.className)
    ensures d.xmlNameAttr.None? && d.nameFunction.None? ==> r == d.className
  {
    match d.xmlNameAttr
    case Some(n) => n
    case None =>
      match d.nameFunction
      case Some(fn) => fn(d.className)
      case None => d.className
  }

  /** The tag of an element for a class: `_get_xml_name()` for an XMLModel, `__name__` for a plain BaseModel. */
  function ClassTag(d: ModelDef): string
  {
    if d.isXmlModel then XmlName(d) else d.className
  }

  /** The field that holds the element's content. */
  const ContentField: string := "xml_content"

  /** `__fields__["xml_content"]`: the index of the content field, if the class has one. */
  function ContentIndex(fields: seq<FieldDef>): (r: Option<nat>)
    ensures r.Some? ==> r.value < |fields| && fields[r.value].name == ContentField
    ensures r.None? ==> forall i :: 0 <= i < |fields| ==> fields[i].name != ContentField
  {
    if fields == [] then None
    else if fields[0].name == ContentField then Some(0)
    else
      match ContentIndex(fields[1..])
      case None => None
      case Some(i) => Some(i + 1)
  }

  /** `p in s` for strings: p occurs in s at some position. */
  predicate Contains(s: string, p: string)
    decreases |s|
  {
    p <= s || (s != [] && Contains(s[1..], p))
  }

  // ------------------------------------------------------ field analysis

  /** What pydantic v1 derives from an annotation: `type_`, `sub_fields` and `allow_none`. */
  datatype FieldShape = FieldShape(type_: Type, subFields: Option<seq<Type>>, allowNone: bool)

  /** The arms of a union other than `None`, in order. */
  function NonNoneArms(arms: seq<Type>): (r: seq<Type>)
    ensures forall x :: x in r ==> x in arms && x != NoneType
    ensures forall x :: x in arms && x != NoneType ==> x in r
  {
    if arms == [] then []
    else (if arms[0] == NoneType then [] else [arms[0]]) + NonNoneArms(arms[1..])
  }

  /**
   * `ModelField._type_analysis` for the annotations modelled: `Optional[X]`
   * is X allowing None; a union of several types keeps them as sub-fields;
   * `List[X]` has `type_` X and one sub-field X; a bare `List` is
   * `List[Any]`; a sequence of several arguments (a tuple) keeps them as
   * sub-fields; anything else has no sub-fields.
   */
  function Analyze(t: Type): (r: FieldShape)
    ensures r.subFields.Some? ==> r.subFields.value != []
    decreases t
  {
    match t
    case Union(arms) =>
      var rest := NonNoneArms(arms);
      var optional := NoneType in arms;
      if |rest| == 1 then
        assert rest[0] in arms;
        var inner := Analyze(rest[0]);
        inner.(allowNone := inner.allowNone || optional)
      else if rest == [] then FieldShape(NoneType, None, true) // Union[None] is NoneType
      else FieldShape(t, Some(rest), optional)
    case Seq(args) =>
      if args == [] then FieldShape(Scalar, Some([Scalar]), false)
      else if |args| == 1 then FieldShape(args[0], Some(args), false)
      else FieldShape(t, Some(args), false)
    case NoneType => FieldShape(NoneType, None, true)
    case _ => FieldShape(t, None, false)
  }

  /** `sub_fields[0].type_`: the element type of a list-like field. */
  function ElementType(s: FieldShape): Type
    requires s.subFields.Some? && s.subFields.value != []
  {
    Analyze(s.subFields.value[0]).type_
  }

  /** A field the encoder treats as one nested record: a record `type_` and no sub-fields. */
  predicate IsNested(s: FieldShape)
  {
    s.type_.Model? && s.subFields.None?
  }

  /** The exceptions the engine raises. */
  datatype Error =
    | ListOfNonRecord(field: string)      // "Field ... is a list-like field but not a list of BaseModel"
    | ContentNotRecordList(model: string) // "xml_content field of ... must be a List[BaseModel]"
    | NotAModel                           // AttributeError: a record operation on a value that is not a record
    | NotIterable                         // TypeError: iterating a value that is not iterable
    | NoContentField                      // KeyError / AttributeError: a plain BaseModel has no `xml_content`
    | UnboundName                         // UnboundLocalError: `xml_name` read before any field assigned it

  // -------------------------------------------------------------- encoder

  /** The option of `to_xml` that shapes the tree. */
  datatype ToXmlOptions = ToXmlOptions(excludeNone: bool)

  /** `to_xml_innner(e, obj)`: the fields of obj other than the content, in order, then the content. */
  function EncodeInto(schema: Schema, o: ToXmlOptions, show: Value -> string, el: Element, obj: Value): Result<Element, Error>
    requires obj.Record? && Conforms(schema, obj)
    decreases obj, 4
  {
    var el' :- EncodeFieldsFrom(schema, o, show, el, obj, 0);
    EncodeContent(schema, o, show, el', obj)
  }

  /** The field loop of `to_xml_innner` from field i on. */
  function EncodeFieldsFrom(schema: Schema, o: ToXmlOptions, show: Value -> string, el: Element, obj: Value, i: nat): Result<Element, Error>
    requires obj.Record? && Conforms(schema, obj) && i <= |obj.fields|
    decreases obj, 3, |obj.fields| - i
  {
    if i == |obj.fields| then Ok(el)
    else
      var el' :- EncodeField(schema, o, show, el, obj, i);
      EncodeFieldsFrom(schema, o, show, el', obj, i + 1)
  }

  /** One pass of the field loop: field i of obj applied to el. */
  function EncodeField(schema: Schema, o: ToXmlOptions, show: Value -> string, el: Element, obj: Value, i: nat): Result<Element, Error>
    requires obj.Record? && Conforms(schema, obj) && i < |obj.fields|
    decreases obj, 2
  {
    var f := schema(obj.model).fields[i];
    var value := obj.fields[i];
    var shape := Analyze(f.outerType);
    if f.name == ContentField then Ok(el)
    else if IsNested(shape) then
      if shape.allowNone && value.PyNone? then Ok(el)
      else if !value.Record? then Err(NotAModel)
      else
        var sub :- EncodeInto(schema, o, show, Empty(ClassTag(schema(value.model))), value);
        Ok(el.(children := el.children + [sub]))
    else if shape.subFields.Some? then
      if !ElementType(shape).Model? then Err(ListOfNonRecord(f.name))
      else EncodeIterated(schema, o, show, el, obj, i, None)
    else if o.excludeNone && value.PyNone? then Ok(el)
    else Ok(el.(attrib := Dict.Put(el.attrib, f.alias, show(value))))
  }

  /**
   * `for item in value: SubElement(e, name); to_xml_innner(sub, item)` over
   * field i of obj. Iterating a string yields strings and iterating a record
   * yields (name, value) pairs, neither of which is a record, so only an
   * empty one gets through.
   */
  function EncodeIterated(schema: Schema, o: ToXmlOptions, show: Value -> string, el: Element, obj: Value, i: nat, tag: Option<string>): Result<Element, Error>
    requires obj.Record? && Conforms(schema, obj) && i < |obj.fields|
    decreases obj, 1
  {
    match obj.fields[i]
    case Items(_) => EncodeItemsFrom(schema, o, show, el, obj, i, tag, 0)
    case PyStr(s) => if s == [] then Ok(el) else Err(NotAModel)
    case Record(_, fs) => if fs == [] then Ok(el) else Err(NotAModel)
    case _ => Err(NotIterable)
  }

  /**
   * The item loop from item j on: each item becomes a child, tagged with
   * `tag` when one is given (the content list) and by the item's own class
   * otherwise (an ordinary list field).
   */
  function EncodeItemsFrom(schema: Schema, o: ToXmlOptions, show: Value -> string, el: Element, obj: Value, i: nat, tag: Option<string>, j: nat): Result<Element, Error>
    requires obj.Record? && Conforms(schema, obj) && i < |obj.fields|
    requires obj.fields[i].Items? && j <= |obj.fields[i].items|
    decreases obj, 0, |obj.fields[i].items| - j
  {
    var xs := obj.fields[i].items;
    assert Conforms(schema, obj.fields[i]);
    if j == |xs| then Ok(el)
    else if !xs[j].Record? then Err(NotAModel)
    else
      var t := if tag.Some? then tag.value else ClassTag(schema(xs[j].model));
      var sub :- EncodeInto(schema, o, show, Empty(t), xs[j]);
      EncodeItemsFrom(schema, o, show, el.(children := el.children + [sub]), obj, i, tag, j + 1)
  }

  /** The content step of `to_xml_innner`: for an XMLModel with content, its children or its text. */
  function EncodeContent(schema: Schema, o: ToXmlOptions, show: Value -> string, el: Element, obj: Value): Result<Element, Error>
    requires obj.Record? && Conforms(schema, obj)
    decreases obj, 2
  {
    var d := schema(obj.model);
    if !d.isXmlModel then Ok(el)
    else
      match ContentIndex(d.fields)
      case None => Err(NoContentField)
      case Some(c) =>
        var content := obj.fields[c];
        var shape := Analyze(d.fields[c].outerType);
        if content.PyNone? then Ok(el)
        else if shape.subFields.Some? then
          var elem := ElementType(shape);
          if !elem.Model? then Err(ContentNotRecordList(d.className))
          else EncodeIterated(schema, o, show, el, obj, c, Some(ClassTag(schema(elem.id))))
        else Ok(el.(text := Some(show(content))))
  }

  /** The tree `to_xml` renders: the root tagged `_get_xml_name()`, filled by the encoder. */
  function ToTree(schema: Schema, o: ToXmlOptions, show: Value -> string, model: Value): Result<Element, Error>
    requires model.Record? && Conforms(schema, model)
  {
    EncodeInto(schema, o, show, Empty(XmlName(schema(model.model))), model)
  }

  /** `to_xml(indent=None, ...)`: the element's XML, with the XML declaration in front when asked. */
  function ToXml(schema: Schema, includeXmlVersion: bool, o: ToXmlOptions, show: Value -> string, render: Element -> string, model: Value): Result<string, Error>
    requires model.Record? && Conforms(schema, model)
  {
    var tree :- ToTree(schema, o, show, model);
    Ok(WithDeclaration(render(tree), includeXmlVersion))
  }

  /** `to_xml_innner(e, obj)` on a mutable element. */
  method ToXmlInner(schema: Schema, o: ToXmlOptions, show: Value -> string, e: ElementBuilder, obj: Value) returns (r: Result<(), Error>)
    requires obj.Record? && Conforms(schema, obj)
    modifies e
    decreases obj, 1
    ensures EncodeInto(schema, o, show, old(e.Snapshot()), obj).Ok? ==>
      r.Ok? && e.Snapshot() == EncodeInto(schema, o, show, old(e.Snapshot()), obj).value
    ensures EncodeInto(schema, o, show, old(e.Snapshot()), obj).Err? ==>
      r == Err(EncodeInto(schema, o, show, old(e.Snapshot()), obj).error)
  {
    var d := schema(obj.model);
    var i := 0;
    while i < |obj.fields|
      invariant 0 <= i <= |obj.fields|
      invariant EncodeFieldsFrom(schema, o, show, old(e.Snapshot()), obj, 0) == EncodeFieldsFrom(schema, o, show, e.Snapshot(), obj, i)
    {
      var f := d.fields[i];
      var value := obj.fields[i];
      assert Conforms(schema, value);
      var shape := Analyze(f.outerType);
      if f.name == ContentField {
      } else if IsNested(shape) {
        if !(shape.allowNone && value.PyNone?) {
          if !value.Record? {
            return Err(NotAModel);
          }
          var sub := new ElementBuilder(ClassTag(schema(value.model)));
          var _ :- ToXmlInner(schema, o, show, sub, value);
          e.Append(sub.Snapshot());
        }
      } else if shape.subFields.Some? {
        if !ElementType(shape).Model? {
          return Err(ListOfNonRecord(f.name));
        }
        var _ :- AppendItems(schema, o, show, e, obj, i, None);
      } else {
        if !(o.excludeNone && value.PyNone?) {
          e.Set(f.alias, show(value));
        }
      }
      i := i + 1;
    }
    assert EncodeInto(schema, o, show, old(e.Snapshot()), obj) == EncodeContent(schema, o, show, e.Snapshot(), obj);
    if d.isXmlModel {
      var c := ContentIndex(d.fields);
      if c.None? {
        return Err(NoContentField);
      }
      var content := obj.fields[c.value];
      if !content.PyNone? {
        var shape := Analyze(d.fields[c.value].outerType);
        if shape.subFields.Some? && !ElementType(shape).Model? {
          return Err(ContentNotRecordList(d.className));
        }
        if shape.subFields.Some? {
          var name := ClassTag(schema(ElementType(shape).id));
          var _ :- AppendItems(schema, o, show, e, obj, c.value, Some(name));
        } else {
          e.SetText(show(content));
        }
      }
    }
    return Ok(());
  }

  /** `for item in value: sub = SubElement(e, name); to_xml_innner(sub, item)` over field i of obj. */
  method AppendItems(schema: Schema, o: ToXmlOptions, show: Value -> string, e: ElementBuilder, obj: Value, i: nat, tag: Option<string>)
    returns (r: Result<(), Error>)
    requires obj.Record? && Conforms(schema, obj) && i < |obj.fields|
    modifies e
    decreases obj, 0
    ensures EncodeIterated(schema, o, show, old(e.Snapshot()), obj, i, tag).Ok? ==>
      r.Ok? && e.Snapshot() == EncodeIterated(schema, o, show, old(e.Snapshot()), obj, i, tag).value
    ensures EncodeIterated(schema, o, show, old(e.Snapshot()), obj, i, tag).Err? ==>
      r == Err(EncodeIterated(schema, o, show, old(e.Snapshot()), obj, i, tag).error)
  {
    var value := obj.fields[i];
    assert Conforms(schema, value);
    match value
    case Items(xs) =>
      var j := 0;
      while j < |xs|
        invariant 0 <= j <= |xs|
        invariant EncodeItemsFrom(schema, o, show, old(e.Snapshot()), obj, i, tag, 0) == EncodeItemsFrom(schema, o, show, e.Snapshot(), obj, i, tag, j)
      {
        var item := xs[j];
        if !item.Record? {
          return Err(NotAModel);
        }
        var name := if tag.Some? then tag.value else ClassTag(schema(item.model));
        var sub := new ElementBuilder(name);
        var _ :- ToXmlInner(schema, o, show, sub, item);
        e.Append(sub.Snapshot());
        j := j + 1;
      }
      return Ok(());
    case PyStr(s) =>
      return if s == [] then Ok(()) else Err(NotAModel);
    case Record(_, fs) =>
      return if fs == [] then Ok(()) else Err(NotAModel);
    case _ =>
      return Err(NotIterable);
  }

  /** `XMLModel.to_xml(indent=None, include_xml_version, exclude_none)`, given how a value prints and how an element renders. */
  method ModelToXml(schema: Schema, includeXmlVersion: bool, o: ToXmlOptions, show: Value -> string, render: Element -> string, model: Value) returns (r: Result<string, Error>)
    requires model.Record? && Conforms(schema, model)
    ensures r == ToXml(schema, includeXmlVersion, o, show, render, model)
  {
    var root := new ElementBuilder(XmlName(schema(model.model)));
    var _ :- ToXmlInner(schema, o, show, root, model);
    var xml := render(root.Snapshot());
    if includeXmlVersion {
      xml := XmlDeclaration + xml;
    }
    return Ok(xml);
  }

  // -------------------------------------------------------------- decoder

  /** `from_element(element, model)`: the keyed bag of class m read from e, as handed to `model(**data)`. */
  function DecodeElement(schema: Schema, e: Element, m: ModelId): Result<Raw, Error>
    decreases e, 5
  {
    var data :- DecodeFieldsFrom(schema, e, m, 0, [], None);
    var data' :- DecodeContent(schema, e, m, data);
    Ok(RawBag(data'))
  }

  /**
   * The field loop of `from_element` from field i on, with the bag so far
   * and the `xml_name` the loop variable holds (None before any field
   * assigned it).
   */
  function DecodeFieldsFrom(schema: Schema, e: Element, m: ModelId, i: nat, data: Dict.Dict<Raw>, xmlName: Option<string>): Result<Dict.Dict<Raw>, Error>
    requires i <= |schema(m).fields|
    decreases e, 4, |schema(m).fields| - i
  {
    if i == |schema(m).fields| then Ok(data)
    else
      var step :- DecodeField(schema, e, m, i, data, xmlName);
      DecodeFieldsFrom(schema, e, m, i + 1, step.0, step.1)
  }

  /** The name a field that is neither list-like nor an XMLModel is read under: its `__xml_name__` extra when that is a non-empty string, else its alias. */
  function FieldXmlName(f: FieldDef): (r: string)
    ensures f.extraXmlName.None? ==> r == f.alias
  {
    if f.extraXmlName.Some? && f.extraXmlName.value != "" then f.extraXmlName.value else f.alias
  }

  /** The name field f is looked up by, given the name the previous fields left behind; a list of plain BaseModels keeps that stale name. */
  function LookupName(schema: Schema, f: FieldDef, xmlName: Option<string>): Result<Option<string>, Error>
  {
    var shape := Analyze(f.outerType);
    if shape.subFields.Some? then
      var elem := ElementType(shape);
      if !elem.Model? then Err(ListOfNonRecord(f.name))
      else if schema(elem.id).isXmlModel then Ok(Some(XmlName(schema(elem.id))))
      else Ok(xmlName)
    else if shape.type_.Model? && schema(shape.type_.id).isXmlModel then Ok(Some(XmlName(schema(shape.type_.id))))
    else Ok(Some(FieldXmlName(f)))
  }

  /** One pass of the field loop: the new bag and the new `xml_name`. */
  function DecodeField(schema: Schema, e: Element, m: ModelId, i: nat, data: Dict.Dict<Raw>, xmlName: Option<string>): Result<(Dict.Dict<Raw>, Option<string>), Error>
    requires i < |schema(m).fields|
    decreases e, 3
  {
    var f := schema(m).fields[i];
    if f.name == ContentField then Ok((data, xmlName))
    else
      var name :- LookupName(schema, f, xmlName);
      if name.None? then Err(UnboundName)
      else
        var data' :- DecodeValue(schema, e, f, name.value, data);
        Ok((data', name))
  }

  /** Reads field f from e under the name `name`: an attribute, a list of children, or one child. */
  function DecodeValue(schema: Schema, e: Element, f: FieldDef, name: string, data: Dict.Dict<Raw>): Result<Dict.Dict<Raw>, Error>
    decreases e, 2
  {
    var shape := Analyze(f.outerType);
    var fieldType := shape.type_;
    if name in Dict.Keys(e.attrib) && !fieldType.Model? then
      Ok(Dict.Put(data, name, RawText(Dict.Get(e.attrib, name).value)))
    else if shape.subFields.Some? then
      var elem := ElementType(shape);
      if !elem.Model? then Err(ListOfNonRecord(f.name))
      else
        var items :- DecodeAllFrom(schema, e, name, elem.id, 0, []);
        Ok(Dict.Put(data, f.name, RawList(items)))
    else if Contains(name, "xmlns:") then Ok(data)
    else
      match Find(e, name)
      case None => Ok(data)
      case Some(child) =>
        if !fieldType.Model? then Ok(data)
        else
          var raw :- DecodeElement(schema, child, fieldType.id);
          Ok(Dict.Put(data, f.name, raw))
  }

  /** `[from_element(child, c) for child in element.findall(name)]` from match j on, appended to acc. */
  function DecodeAllFrom(schema: Schema, e: Element, name: string, c: ModelId, j: nat, acc: seq<Raw>): Result<seq<Raw>, Error>
    requires j <= |FindAll(e, name)|
    decreases e, 0, |FindAll(e, name)| - j
  {
    var subs := FindAll(e, name);
    if j == |subs| then Ok(acc)
    else
      assert subs[j] in subs;
      var raw :- DecodeElement(schema, subs[j], c);
      DecodeAllFrom(schema, e, name, c, j + 1, acc + [raw])
  }

  /** The content step of `from_element`: the content key is always set, to the matching children or to the text. */
  function DecodeContent(schema: Schema, e: Element, m: ModelId, data: Dict.Dict<Raw>): Result<Dict.Dict<Raw>, Error>
    decreases e, 4
  {
    var d := schema(m);
    match ContentIndex(d.fields)
    case None => Err(NoContentField)
    case Some(c) =>
      var cf := d.fields[c];
      var shape := Analyze(cf.outerType);
      if shape.subFields.Some? then
        var elem := ElementType(shape);
        if !elem.Model? then Err(ContentNotRecordList(d.className))
        else
          var items :- DecodeTaggedFrom(schema, e, ClassTag(schema(elem.id)), elem.id, 0, []);
          Ok(Dict.Put(data, cf.alias, RawList(items)))
      else Ok(Dict.Put(data, cf.alias, RawText(if e.text.Some? then e.text.value else "")))
  }

  /** `for child in element: if child.tag == name: append(from_element(child, c))` from child k on. */
  function DecodeTaggedFrom(schema: Schema, e: Element, name: string, c: ModelId, k: nat, acc: seq<Raw>): Result<seq<Raw>, Error>
    requires k <= |e.children|
    decreases e, 1, |e.children| - k
  {
    if k == |e.children| then Ok(acc)
    else if e.children[k].tag != name then DecodeTaggedFrom(schema, e, name, c, k + 1, acc)
    else
      var raw :- DecodeElement(schema, e.children[k], c);
      DecodeTaggedFrom(schema, e, name, c, k + 1, acc + [raw])
  }

  /** `from_element(element, model)`. */
  method FromElement(schema: Schema, e: Element, m: ModelId) returns (r: Result<Raw, Error>)
    ensures r == DecodeElement(schema, e, m)
    decreases e, 2
  {
    var fields := schema(m).fields;
    var data: Dict.Dict<Raw> := [];
    var xmlName: Option<string> := None;
    var i := 0;
    while i < |fields|
      invariant 0 <= i <= |fields|
      invariant DecodeFieldsFrom(schema, e, m, 0, [], None) == DecodeFieldsFrom(schema, e, m, i, data, xmlName)
    {
      var f := fields[i];
      if f.name != ContentField {
        xmlName :- LookupName(schema, f, xmlName);
        if xmlName.None? {
          return Err(UnboundName);
        }
        data :- ReadValue(schema, e, f, xmlName.value, data);
      }
      i := i + 1;
    }
    var c := ContentIndex(fields);
    if c.None? {
      return Err(NoContentField);
    }
    var cf := fields[c.value];
    var shape := Analyze(cf.outerType);
    if shape.subFields.Some? {
      var elem := ElementType(shape);
      if !elem.Model? {
        return Err(ContentNotRecordList(schema(m).className));
      }
      var name := ClassTag(schema(elem.id));
      var content :- ReadTagged(schema, e, name, elem.id);
      data := Dict.Put(data, cf.alias, RawList(content));
    } else {
      data := Dict.Put(data, cf.alias, RawText(if e.text.Some? then e.text.value else ""));
    }
    return Ok(RawBag(data));
  }

  /** The body of the field loop of `from_element` once `xml_name` is known. */
  method ReadValue(schema: Schema, e: Element, f: FieldDef, name: string, data: Dict.Dict<Raw>) returns (r: Result<Dict.Dict<Raw>, Error>)
    ensures r == DecodeValue(schema, e, f, name, data)
    decreases e, 1
  {
    var shape := Analyze(f.outerType);
    var fieldType := shape.type_;
    if name in Dict.Keys(e.attrib) && !fieldType.Model? {
      return Ok(Dict.Put(data, name, RawText(Dict.Get(e.attrib, name).value)));
    } else if shape.subFields.Some? {
      var elem := ElementType(shape);
      if !elem.Model? {
        return Err(ListOfNonRecord(f.name));
      }
      var items :- ReadAll(schema, e, name, elem.id);
      return Ok(Dict.Put(data, f.name, RawList(items)));
    } else if Contains(name, "xmlns:") {
      return Ok(data);
    }
    var child := Find(e, name);
    if child.Some? && fieldType.Model? {
      var raw :- FromElement(schema, child.value, fieldType.id);
      return Ok(Dict.Put(data, f.name, raw));
    }
    return Ok(data);
  }

  /** `[from_element(child, c) for child in element.findall(name)]`. */
  method ReadAll(schema: Schema, e: Element, name: string, c: ModelId) returns (r: Result<seq<Raw>, Error>)
    ensures r == DecodeAllFrom(schema, e, name, c, 0, [])
    decreases e, 0
  {
    var subs := FindAll(e, name);
    var items: seq<Raw> := [];
    var j := 0;
    while j < |subs|
      invariant 0 <= j <= |subs|
      invariant DecodeAllFrom(schema, e, name, c, 0, []) == DecodeAllFrom(schema, e, name, c, j, items)
    {
      assert subs[j] in subs;
      var raw :- FromElement(schema, subs[j], c);
      items := items + [raw];
      j := j + 1;
    }
    return Ok(items);
  }

  /** The content loop of `from_element`: every child tagged `name`, decoded as class c, in document order. */
  method ReadTagged(schema: Schema, e: Element, name: string, c: ModelId) returns (r: Result<seq<Raw>, Error>)
    ensures r == DecodeTaggedFrom(schema, e, name, c, 0, [])
    decreases e, 0
  {
    var content: seq<Raw> := [];
    var k := 0;
    while k < |e.children|
      invariant 0 <= k <= |e.children|
      invariant DecodeTaggedFrom(schema, e, name, c, 0, []) == DecodeTaggedFrom(schema, e, name, c, k, content)
    {
      var child := e.children[k];
      if child.tag == name {
        var raw :- FromElement(schema, child, c);
        content := content + [raw];
      }
      k := k + 1;
    }
    return Ok(content);
  }

  /** `XMLModel.from_xml` up to the bag handed to `cls(**data)`: parsing is given as the root element. */
  method FromXml(schema: Schema, root: Element, m: ModelId) returns (r: Result<Raw, Error>)
    ensures r == DecodeElement(schema, root, m)
  {
    r := FromElement(schema, root, m);
  }
}
