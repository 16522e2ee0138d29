/**
 * Properties of the v1 engine: how a class is named, which children,
 * attributes and text `to_xml` produces and in which order, which
 * annotations make both directions raise, and what `from_xml` reads back.
 */
module XmlModelProps {
  import opened Wrappers
  import Dict
  import opened Xml
  import opened Py
  import opened XmlModel

  // ---------------------------------------------------------------- names

  /** Lower-casing is idempotent. */
  lemma LowerIdempotent(s: string)
    ensures Lower(Lower(s)) == Lower(s)
  {
    var l := Lower(s);
    assert forall i :: 0 <= i < |l| ==> Lower(l)[i] == l[i];
  }

  /** An XMLModel with neither `__xml_name__` nor its own name function is tagged with its class name lower-cased. */
  lemma DefaultTagIsLowerCase(d: ModelDef)
    requires d.isXmlModel && d.xmlNameAttr.None? && d.nameFunction == DefaultNameFunction
    ensures ClassTag(d) == Lower(d.className)
    ensures forall i :: 0 <= i < |ClassTag(d)| ==> !('A' <= ClassTag(d)[i] <= 'Z')
  {
  }

  // ------------------------------------------------------- encoder frame

  /** The item loop appends children and touches nothing else. */
  lemma {:induction false} EncodeItemsFrame(schema: Schema, o: ToXmlOptions, show: Value -> string, el: Element, obj: Value, i: nat, tag: Option<string>, j: nat)
    requires obj.Record? && Conforms(schema, obj) && i < |obj.fields|
    requires obj.fields[i].Items? && j <= |obj.fields[i].items|
    requires EncodeItemsFrom(schema, o, show, el, obj, i, tag, j).Ok?
    ensures var r := EncodeItemsFrom(schema, o, show, el, obj, i, tag, j).value;
      r == el.(children := r.children) && |el.children| <= |r.children| && r.children[..|el.children|] == el.children
    decreases |obj.fields[i].items| - j
  {
    var xs := obj.fields[i].items;
    assert Conforms(schema, obj.fields[i]);
    if j < |xs| {
      var t := if tag.Some? then tag.value else ClassTag(schema(xs[j].model));
      var sub := EncodeInto(schema, o, show, Empty(t), xs[j]).value;
      var el' := el.(children := el.children + [sub]);
      EncodeItemsFrame(schema, o, show, el', obj, i, tag, j + 1);
      var r := EncodeItemsFrom(schema, o, show, el', obj, i, tag, j + 1).value;
      assert r.children[..|el.children|] == r.children[..|el'.children|][..|el.children|];
    }
  }

  /** Iterating a field's value appends children and touches nothing else. */
  lemma EncodeIteratedFrame(schema: Schema, o: ToXmlOptions, show: Value -> string, el: Element, obj: Value, i: nat, tag: Option<string>)
    requires obj.Record? && Conforms(schema, obj) && i < |obj.fields|
    requires EncodeIterated(schema, o, show, el, obj, i, tag).Ok?
    ensures var r := EncodeIterated(schema, o, show, el, obj, i, tag).value;
      r == el.(children := r.children) && |el.children| <= |r.children| && r.children[..|el.children|] == el.children
  {
    if obj.fields[i].Items? {
      EncodeItemsFrame(schema, o, show, el, obj, i, tag, 0);
    }
  }

  /** Field i becomes an attribute: not the content, not one record, not list-like, and not a None that is excluded. */
  predicate IsAttrField(schema: Schema, o: ToXmlOptions, obj: Value, i: nat)
    requires obj.Record? && Conforms(schema, obj) && i < |obj.fields|
  {
    var f := schema(obj.model).fields[i];
    var shape := Analyze(f.outerType);
    f.name != ContentField && !IsNested(shape) && shape.subFields.None?
    && !(o.excludeNone && obj.fields[i].PyNone?)
  }

  /**
   * One field keeps the tag, the text and the children already there, and
   * sets an attribute under its alias exactly when it is an attribute field.
   */
  lemma EncodeFieldFrame(schema: Schema, o: ToXmlOptions, show: Value -> string, el: Element, obj: Value, i: nat)
    requires obj.Record? && Conforms(schema, obj) && i < |obj.fields|
    requires EncodeField(schema, o, show, el, obj, i).Ok?
    ensures var r := EncodeField(schema, o, show, el, obj, i).value;
      r.tag == el.tag && r.text == el.text
      && |el.children| <= |r.children| && r.children[..|el.children|] == el.children
      && r.attrib == (if IsAttrField(schema, o, obj, i) then Dict.Put(el.attrib, schema(obj.model).fields[i].alias, show(obj.fields[i])) else el.attrib)
  {
    var f := schema(obj.model).fields[i];
    var shape := Analyze(f.outerType);
    if f.name != ContentField && !IsNested(shape) && shape.subFields.Some? {
      EncodeIteratedFrame(schema, o, show, el, obj, i, None);
    }
  }

  /** The attribute names the fields from i on contribute. */
  function AttrNamesFrom(schema: Schema, o: ToXmlOptions, obj: Value, i: nat): set<string>
    requires obj.Record? && Conforms(schema, obj) && i <= |obj.fields|
    decreases |obj.fields| - i
  {
    if i == |obj.fields| then {}
    else (if IsAttrField(schema, o, obj, i) then {schema(obj.model).fields[i].alias} else {}) + AttrNamesFrom(schema, o, obj, i + 1)
  }

  /** One unfolding of the encoder's field loop. */
  lemma EncodeFieldsFrom1(schema: Schema, o: ToXmlOptions, show: Value -> string, el: Element, obj: Value, i: nat)
    requires obj.Record? && Conforms(schema, obj) && i < |obj.fields|
    requires EncodeFieldsFrom(schema, o, show, el, obj, i).Ok?
    ensures EncodeField(schema, o, show, el, obj, i).Ok?
    ensures EncodeFieldsFrom(schema, o, show, el, obj, i) == EncodeFieldsFrom(schema, o, show, EncodeField(schema, o, show, el, obj, i).value, obj, i + 1)
  {
  }

  /**
   * The field loop from field i on keeps the tag, the text and the children
   * already there, and adds exactly the attribute names of the attribute
   * fields: the content never becomes an attribute.
   */
  lemma {:induction false} EncodeFieldsFrame(schema: Schema, o: ToXmlOptions, show: Value -> string, el: Element, obj: Value, i: nat)
    requires obj.Record? && Conforms(schema, obj) && i <= |obj.fields|
    requires EncodeFieldsFrom(schema, o, show, el, obj, i).Ok?
    ensures var r := EncodeFieldsFrom(schema, o, show, el, obj, i).value;
      r.tag == el.tag && r.text == el.text
      && |el.children| <= |r.children| && r.children[..|el.children|] == el.children
      && Dict.Keys(r.attrib) == Dict.Keys(el.attrib) + AttrNamesFrom(schema, o, obj, i)
    decreases |obj.fields| - i
  {
    if i < |obj.fields| {
      EncodeFieldFrame(schema, o, show, el, obj, i);
      var el' := EncodeField(schema, o, show, el, obj, i).value;
      EncodeFieldsFrom1(schema, o, show, el, obj, i);
      EncodeFieldsFrame(schema, o, show, el', obj, i + 1);
      var r := EncodeFieldsFrom(schema, o, show, el', obj, i + 1).value;
      assert r.children[..|el.children|] == r.children[..|el'.children|][..|el.children|];
    }
  }

  /** The element gets text: an XMLModel whose content is set and is not list-like. */
  predicate HasText(schema: Schema, obj: Value)
    requires obj.Record? && Conforms(schema, obj)
  {
    var d := schema(obj.model);
    d.isXmlModel && ContentIndex(d.fields).Some?
    && !obj.fields[ContentIndex(d.fields).value].PyNone?
    && Analyze(d.fields[ContentIndex(d.fields).value].outerType).subFields.None?
  }

  /** The content step keeps the tag, the attributes and the children already there, and sets the text exactly when HasText holds. */
  lemma EncodeContentFrame(schema: Schema, o: ToXmlOptions, show: Value -> string, el: Element, obj: Value)
    requires obj.Record? && Conforms(schema, obj)
    requires EncodeContent(schema, o, show, el, obj).Ok?
    ensures var r := EncodeContent(schema, o, show, el, obj).value;
      r.tag == el.tag && r.attrib == el.attrib
      && |el.children| <= |r.children| && r.children[..|el.children|] == el.children
      && r.text == (if HasText(schema, obj) then Some(show(obj.fields[ContentIndex(schema(obj.model).fields).value])) else el.text)
  {
    var d := schema(obj.model);
    if d.isXmlModel {
      var c := ContentIndex(d.fields).value;
      if !obj.fields[c].PyNone? && Analyze(d.fields[c].outerType).subFields.Some? {
        EncodeIteratedFrame(schema, o, show, el, obj, c, Some(ClassTag(schema(ElementType(Analyze(d.fields[c].outerType)).id))));
      }
    }
  }

  /**
   * `to_xml_innner` keeps the element's tag and earlier children, adds
   * exactly the attribute fields' aliases as attributes, and sets the text
   * only from the content.
   */
  lemma EncodeIntoFrame(schema: Schema, o: ToXmlOptions, show: Value -> string, el: Element, obj: Value)
    requires obj.Record? && Conforms(schema, obj)
    requires EncodeInto(schema, o, show, el, obj).Ok?
    ensures var r := EncodeInto(schema, o, show, el, obj).value;
      r.tag == el.tag
      && |el.children| <= |r.children| && r.children[..|el.children|] == el.children
      && Dict.Keys(r.attrib) == Dict.Keys(el.attrib) + AttrNamesFrom(schema, o, obj, 0)
      && r.text == (if HasText(schema, obj) then Some(show(obj.fields[ContentIndex(schema(obj.model).fields).value])) else el.text)
  {
    EncodeFieldsFrame(schema, o, show, el, obj, 0);
    var mid := EncodeFieldsFrom(schema, o, show, el, obj, 0).value;
    EncodeContentFrame(schema, o, show, mid, obj);
    var r := EncodeInto(schema, o, show, el, obj).value;
    assert r.children[..|el.children|] == r.children[..|mid.children|][..|el.children|];
  }

  // -------------------------------------------------------- encoder tags

  /** The tags the records among xs[j..] get: the fixed tag when given, else each one's own class tag. */
  function ItemTagsFrom(schema: Schema, xs: seq<Value>, tag: Option<string>, j: nat): seq<string>
    requires j <= |xs|
    decreases |xs| - j
  {
    if j == |xs| then []
    else
      (if xs[j].Record? then [if tag.Some? then tag.value else ClassTag(schema(xs[j].model))] else [])
      + ItemTagsFrom(schema, xs, tag, j + 1)
  }

  /** A sequence-algebra helper, not a model of the source: concatenation is associative. */
  lemma AppendAssoc<T>(a: seq<T>, b: seq<T>, c: seq<T>)
    ensures (a + b) + c == a + (b + c)
  {
  }

  /** The item loop appends one child per item, in list order, tagged as ItemTagsFrom says. */
  lemma {:induction false} EncodeItemsTags(schema: Schema, o: ToXmlOptions, show: Value -> string, el: Element, obj: Value, i: nat, tag: Option<string>, j: nat)
    requires obj.Record? && Conforms(schema, obj) && i < |obj.fields|
    requires obj.fields[i].Items? && j <= |obj.fields[i].items|
    requires EncodeItemsFrom(schema, o, show, el, obj, i, tag, j).Ok?
    ensures TagsOf(EncodeItemsFrom(schema, o, show, el, obj, i, tag, j).value.children)
      == TagsOf(el.children) + ItemTagsFrom(schema, obj.fields[i].items, tag, j)
    decreases |obj.fields[i].items| - j
  {
    var xs := obj.fields[i].items;
    assert Conforms(schema, obj.fields[i]);
    if j < |xs| {
      assert Conforms(schema, xs[j]);
      var t := if tag.Some? then tag.value else ClassTag(schema(xs[j].model));
      EncodeKeepsTag(schema, o, show, Empty(t), xs[j]);
      var sub := EncodeInto(schema, o, show, Empty(t), xs[j]).value;
      var el' := el.(children := el.children + [sub]);
      assert EncodeItemsFrom(schema, o, show, el, obj, i, tag, j) == EncodeItemsFrom(schema, o, show, el', obj, i, tag, j + 1);
      EncodeItemsTags(schema, o, show, el', obj, i, tag, j + 1);
      TagsOfAppend(el.children, [sub]);
      assert TagsOf([sub]) == [t];
      assert TagsOf(el'.children) == TagsOf(el.children) + [t];
      assert ItemTagsFrom(schema, xs, tag, j) == [t] + ItemTagsFrom(schema, xs, tag, j + 1);
      AppendAssoc(TagsOf(el.children), [t], ItemTagsFrom(schema, xs, tag, j + 1));
    } else {
      assert TagsOf(el.children) + [] == TagsOf(el.children);
    }
  }

  /** The tags iterating a value appends: those of its items when it is a list, none otherwise. */
  function IteratedTags(schema: Schema, v: Value, tag: Option<string>): seq<string>
  {
    if v.Items? then ItemTagsFrom(schema, v.items, tag, 0) else []
  }

  /** The tags the children of field i get: its record's class tag, or its items' tags. */
  function FieldTags(schema: Schema, obj: Value, i: nat): seq<string>
    requires obj.Record? && Conforms(schema, obj) && i < |obj.fields|
  {
    var f := schema(obj.model).fields[i];
    var v := obj.fields[i];
    var shape := Analyze(f.outerType);
    if f.name == ContentField then []
    else if IsNested(shape) then (if v.Record? then [ClassTag(schema(v.model))] else [])
    else if shape.subFields.Some? then IteratedTags(schema, v, None)
    else []
  }

  /** The children field i appends are the ones FieldTags names. */
  lemma EncodeFieldTags(schema: Schema, o: ToXmlOptions, show: Value -> string, el: Element, obj: Value, i: nat)
    requires obj.Record? && Conforms(schema, obj) && i < |obj.fields|
    requires EncodeField(schema, o, show, el, obj, i).Ok?
    ensures TagsOf(EncodeField(schema, o, show, el, obj, i).value.children) == TagsOf(el.children) + FieldTags(schema, obj, i)
  {
    var f := schema(obj.model).fields[i];
    var v := obj.fields[i];
    assert Conforms(schema, v);
    var shape := Analyze(f.outerType);
    if f.name == ContentField {
    } else if IsNested(shape) {
      if v.Record? {
        EncodeKeepsTag(schema, o, show, Empty(ClassTag(schema(v.model))), v);
        TagsOfAppend(el.children, [EncodeInto(schema, o, show, Empty(ClassTag(schema(v.model))), v).value]);
      }
    } else if shape.subFields.Some? && v.Items? {
      EncodeItemsTags(schema, o, show, el, obj, i, None, 0);
    }
  }

  /** The tags the fields from i on give their children, in field order. */
  function ChildTagsFrom(schema: Schema, obj: Value, i: nat): seq<string>
    requires obj.Record? && Conforms(schema, obj) && i <= |obj.fields|
    decreases |obj.fields| - i
  {
    if i == |obj.fields| then [] else FieldTags(schema, obj, i) + ChildTagsFrom(schema, obj, i + 1)
  }

  /** The field loop from field i on appends each field's children in field order. */
  lemma {:induction false} EncodeFieldsTags(schema: Schema, o: ToXmlOptions, show: Value -> string, el: Element, obj: Value, i: nat)
    requires obj.Record? && Conforms(schema, obj) && i <= |obj.fields|
    requires EncodeFieldsFrom(schema, o, show, el, obj, i).Ok?
    ensures TagsOf(EncodeFieldsFrom(schema, o, show, el, obj, i).value.children) == TagsOf(el.children) + ChildTagsFrom(schema, obj, i)
    decreases |obj.fields| - i
  {
    if i < |obj.fields| {
      EncodeFieldTags(schema, o, show, el, obj, i);
      EncodeFieldsFrom1(schema, o, show, el, obj, i);
      EncodeFieldsTags(schema, o, show, EncodeField(schema, o, show, el, obj, i).value, obj, i + 1);
    }
  }

  /** The tags of the content's children: each item is tagged by the content's declared element class. */
  function ContentTags(schema: Schema, obj: Value): seq<string>
    requires obj.Record? && Conforms(schema, obj)
  {
    var d := schema(obj.model);
    if !d.isXmlModel || ContentIndex(d.fields).None? then []
    else
      var c := ContentIndex(d.fields).value;
      var shape := Analyze(d.fields[c].outerType);
      if shape.subFields.Some? && ElementType(shape).Model? then
        IteratedTags(schema, obj.fields[c], Some(ClassTag(schema(ElementType(shape).id))))
      else []
  }

  /** The content step appends the children ContentTags names. */
  lemma EncodeContentTags(schema: Schema, o: ToXmlOptions, show: Value -> string, el: Element, obj: Value)
    requires obj.Record? && Conforms(schema, obj)
    requires EncodeContent(schema, o, show, el, obj).Ok?
    ensures TagsOf(EncodeContent(schema, o, show, el, obj).value.children) == TagsOf(el.children) + ContentTags(schema, obj)
  {
    var d := schema(obj.model);
    if d.isXmlModel {
      var c := ContentIndex(d.fields).value;
      var shape := Analyze(d.fields[c].outerType);
      if shape.subFields.Some? && obj.fields[c].Items? {
        EncodeItemsTags(schema, o, show, el, obj, c, Some(ClassTag(schema(ElementType(shape).id))), 0);
      }
    }
  }

  /** The encoder never changes the tag of the element it fills. */
  lemma EncodeKeepsTag(schema: Schema, o: ToXmlOptions, show: Value -> string, el: Element, obj: Value)
    requires obj.Record? && Conforms(schema, obj)
    requires EncodeInto(schema, o, show, el, obj).Ok?
    ensures EncodeInto(schema, o, show, el, obj).value.tag == el.tag
  {
    EncodeIntoFrame(schema, o, show, el, obj);
  }

  /** `to_xml_innner` appends every field's children in field order and the content's children after all of them. */
  lemma EncodeIntoTags(schema: Schema, o: ToXmlOptions, show: Value -> string, el: Element, obj: Value)
    requires obj.Record? && Conforms(schema, obj)
    requires EncodeInto(schema, o, show, el, obj).Ok?
    ensures TagsOf(EncodeInto(schema, o, show, el, obj).value.children)
      == TagsOf(el.children) + ChildTagsFrom(schema, obj, 0) + ContentTags(schema, obj)
  {
    EncodeFieldsTags(schema, o, show, el, obj, 0);
    EncodeContentTags(schema, o, show, EncodeFieldsFrom(schema, o, show, el, obj, 0).value, obj);
  }

  /**
   * The tree `to_xml` renders: the root is tagged `_get_xml_name()`, its
   * attributes are the attribute fields' aliases, and its text is the
   * content's...
   */
  lemma ToTreeFrame(schema: Schema, o: ToXmlOptions, show: Value -> string, model: Value)
    requires model.Record? && Conforms(schema, model)
    requires ToTree(schema, o, show, model).Ok?
    ensures var r := ToTree(schema, o, show, model).value;
      r.tag == XmlName(schema(model.model))
      && Dict.Keys(r.attrib) == AttrNamesFrom(schema, o, model, 0)
      && r.text == (if HasText(schema, model) then Some(show(model.fields[ContentIndex(schema(model.model).fields).value])) else None)
  {
    EncodeIntoFrame(schema, o, show, Empty(XmlName(schema(model.model))), model);
  }

  /** ...and its children are every field's, in field order, then the content's. */
  lemma ToTreeChildren(schema: Schema, o: ToXmlOptions, show: Value -> string, model: Value)
    requires model.Record? && Conforms(schema, model)
    requires ToTree(schema, o, show, model).Ok?
    ensures TagsOf(ToTree(schema, o, show, model).value.children) == ChildTagsFrom(schema, model, 0) + ContentTags(schema, model)
  {
    var root := Empty(XmlName(schema(model.model)));
    EncodeIntoTags(schema, o, show, root, model);
    var fieldTags := ChildTagsFrom(schema, model, 0);
    assert TagsOf(root.children) == [];
    assert [] + fieldTags == fieldTags;
  }


  /** A class declared with the `xml_name` keyword is rendered under that name, whatever its body and name function say. */
  lemma KeywordNamesRoot(schema: Schema, o: ToXmlOptions, show: Value -> string, model: Value, keyword: string, fromBody: Option<string>)
    requires model.Record? && Conforms(schema, model)
    requires schema(model.model).xmlNameAttr == DeclaredXmlName(Some(keyword), fromBody)
    requires ToTree(schema, o, show, model).Ok?
    ensures ToTree(schema, o, show, model).value.tag == keyword
  {
    EncodeKeepsTag(schema, o, show, Empty(XmlName(schema(model.model))), model);
  }

  // -------------------------------------------------------------- errors

  /** Field i of class m is list-like over something that is not a record (and is not the content). */
  predicate ListOfNonRecordField(schema: Schema, m: ModelId, i: nat)
    requires i < |schema(m).fields|
  {
    var f := schema(m).fields[i];
    var shape := Analyze(f.outerType);
    f.name != ContentField && shape.subFields.Some? && !ElementType(shape).Model?
  }

  /** The field loop fails when a field from i on is list-like over non-records, whatever its value. */
  lemma {:induction false} EncodeRejectsListOfNonRecord(schema: Schema, o: ToXmlOptions, show: Value -> string, el: Element, obj: Value, i: nat, j: nat)
    requires obj.Record? && Conforms(schema, obj)
    requires i <= j < |obj.fields| && ListOfNonRecordField(schema, obj.model, j)
    ensures EncodeFieldsFrom(schema, o, show, el, obj, i).Err?
    decreases j - i
  {
    if i < j && EncodeField(schema, o, show, el, obj, i).Ok? {
      EncodeRejectsListOfNonRecord(schema, o, show, EncodeField(schema, o, show, el, obj, i).value, obj, i + 1, j);
    }
  }

  /** `to_xml` raises for any instance of a class with a field that is list-like over non-records. */
  lemma ToXmlRejectsListOfNonRecord(schema: Schema, o: ToXmlOptions, show: Value -> string, model: Value, j: nat)
    requires model.Record? && Conforms(schema, model)
    requires j < |model.fields| && ListOfNonRecordField(schema, model.model, j)
    ensures ToTree(schema, o, show, model).Err?
  {
    EncodeRejectsListOfNonRecord(schema, o, show, Empty(XmlName(schema(model.model))), model, 0, j);
  }

  /** One unfolding of the decoder's field loop. */
  lemma DecodeFieldsFrom1(schema: Schema, e: Element, m: ModelId, i: nat, data: Dict.Dict<Raw>, xmlName: Option<string>)
    requires i < |schema(m).fields|
    requires DecodeField(schema, e, m, i, data, xmlName).Ok?
    ensures var step := DecodeField(schema, e, m, i, data, xmlName).value;
      DecodeFieldsFrom(schema, e, m, i, data, xmlName) == DecodeFieldsFrom(schema, e, m, i + 1, step.0, step.1)
  {
  }

  /** The decoder's field loop fails likewise, whatever the element holds. */
  lemma {:induction false} DecodeRejectsListOfNonRecord(schema: Schema, e: Element, m: ModelId, i: nat, data: Dict.Dict<Raw>, xmlName: Option<string>, j: nat)
    requires i <= j < |schema(m).fields| && ListOfNonRecordField(schema, m, j)
    ensures DecodeFieldsFrom(schema, e, m, i, data, xmlName).Err?
    decreases j - i
  {
    if i < j && DecodeField(schema, e, m, i, data, xmlName).Ok? {
      var step := DecodeField(schema, e, m, i, data, xmlName).value;
      DecodeFieldsFrom1(schema, e, m, i, data, xmlName);
      DecodeRejectsListOfNonRecord(schema, e, m, i + 1, step.0, step.1, j);
    }
  }

  /** `from_xml` raises for every element when a field of the class is list-like over non-records. */
  lemma FromXmlRejectsListOfNonRecord(schema: Schema, e: Element, m: ModelId, j: nat)
    requires j < |schema(m).fields| && ListOfNonRecordField(schema, m, j)
    ensures DecodeElement(schema, e, m).Err?
  {
    DecodeRejectsListOfNonRecord(schema, e, m, 0, [], None, j);
  }

  /** The content field of class m is list-like over something that is not a record. */
  predicate ContentListOfNonRecord(schema: Schema, m: ModelId)
  {
    var fs := schema(m).fields;
    ContentIndex(fs).Some?
    && var shape := Analyze(fs[ContentIndex(fs).value].outerType);
       shape.subFields.Some? && !ElementType(shape).Model?
  }

  /**
   * Such a content field makes `to_xml` raise exactly when the content is
   * set (the encoder looks at the annotation only for a value that is not
   * None)...
   */
  lemma EncodeContentListOfNonRecord(schema: Schema, o: ToXmlOptions, show: Value -> string, el: Element, obj: Value)
    requires obj.Record? && Conforms(schema, obj)
    requires schema(obj.model).isXmlModel && ContentListOfNonRecord(schema, obj.model)
    ensures EncodeContent(schema, o, show, el, obj).Err?
      <==> !obj.fields[ContentIndex(schema(obj.model).fields).value].PyNone?
    ensures EncodeContent(schema, o, show, el, obj).Err? ==>
      EncodeContent(schema, o, show, el, obj).error == ContentNotRecordList(schema(obj.model).className)
  {
  }

  /** ...while `from_xml` raises for every element. */
  lemma FromXmlRejectsContentListOfNonRecord(schema: Schema, e: Element, m: ModelId)
    requires ContentListOfNonRecord(schema, m)
    ensures DecodeElement(schema, e, m).Err?
  {
    var data := DecodeFieldsFrom(schema, e, m, 0, [], None);
    if data.Ok? {
      assert DecodeContent(schema, e, m, data.value).Err?;
    }
  }

  // ------------------------------------------------------------- decoder

  /** A list field of plain BaseModels is looked up under whatever name the previous field left behind. */
  lemma StaleName(schema: Schema, f: FieldDef, xmlName: Option<string>)
    requires Analyze(f.outerType).subFields.Some?
    requires ElementType(Analyze(f.outerType)).Model? && !schema(ElementType(Analyze(f.outerType)).id).isXmlModel
    ensures LookupName(schema, f, xmlName) == Ok(xmlName)
  {
  }

  /** So as the first field of its class (after the content), such a list makes `from_xml` raise. */
  lemma StaleNameFirst(schema: Schema, e: Element, m: ModelId, i: nat)
    requires i < |schema(m).fields|
    requires forall j :: 0 <= j < i ==> schema(m).fields[j].name == ContentField
    requires schema(m).fields[i].name != ContentField
    requires Analyze(schema(m).fields[i].outerType).subFields.Some?
    requires ElementType(Analyze(schema(m).fields[i].outerType)).Model?
    requires !schema(ElementType(Analyze(schema(m).fields[i].outerType)).id).isXmlModel
    ensures DecodeElement(schema, e, m).Err?
  {
    StaleNameFirstFrom(schema, e, m, 0, i);
  }

  lemma {:induction false} StaleNameFirstFrom(schema: Schema, e: Element, m: ModelId, k: nat, i: nat)
    requires k <= i < |schema(m).fields|
    requires forall j :: 0 <= j < i ==> schema(m).fields[j].name == ContentField
    requires schema(m).fields[i].name != ContentField
    requires Analyze(schema(m).fields[i].outerType).subFields.Some?
    requires ElementType(Analyze(schema(m).fields[i].outerType)).Model?
    requires !schema(ElementType(Analyze(schema(m).fields[i].outerType)).id).isXmlModel
    ensures DecodeFieldsFrom(schema, e, m, k, [], None).Err?
    decreases i - k
  {
    if k < i {
      DecodeFieldsFrom1(schema, e, m, k, [], None);
      StaleNameFirstFrom(schema, e, m, k + 1, i);
    } else {
      StaleName(schema, schema(m).fields[i], None);
    }
  }

  /** One unfolding of the comprehension over `findall(name)`. */
  lemma DecodeAllStep(schema: Schema, e: Element, name: string, c: ModelId, j: nat, acc: seq<Raw>)
    requires j < |FindAll(e, name)|
    ensures var raw := DecodeElement(schema, FindAll(e, name)[j], c);
      DecodeAllFrom(schema, e, name, c, j, acc)
        == if raw.Err? then Err(raw.error) else DecodeAllFrom(schema, e, name, c, j + 1, acc + [raw.value])
  {
  }

  /** One unfolding of the content loop. */
  lemma DecodeTaggedStep(schema: Schema, e: Element, name: string, c: ModelId, k: nat, acc: seq<Raw>)
    requires k < |e.children|
    ensures var raw := DecodeElement(schema, e.children[k], c);
      DecodeTaggedFrom(schema, e, name, c, k, acc)
        == if e.children[k].tag != name then DecodeTaggedFrom(schema, e, name, c, k + 1, acc)
           else if raw.Err? then Err(raw.error) else DecodeTaggedFrom(schema, e, name, c, k + 1, acc + [raw.value])
  {
  }

  /** A list comprehension `[dec(x) for x in xs[j:]]` appended to acc, stopping at the first exception. */
  function DecodeEach(dec: Element -> Result<Raw, Error>, xs: seq<Element>, j: nat, acc: seq<Raw>): Result<seq<Raw>, Error>
    requires j <= |xs|
    decreases |xs| - j
  {
    if j == |xs| then Ok(acc)
    else
      var raw :- dec(xs[j]);
      DecodeEach(dec, xs, j + 1, acc + [raw])
  }

  /** One unfolding of the comprehension. */
  lemma DecodeEachStep(dec: Element -> Result<Raw, Error>, xs: seq<Element>, j: nat, acc: seq<Raw>)
    requires j < |xs|
    ensures DecodeEach(dec, xs, j, acc) == if dec(xs[j]).Err? then Err(dec(xs[j]).error) else DecodeEach(dec, xs, j + 1, acc + [dec(xs[j]).value])
  {
  }

  /** The comprehension succeeds exactly when every element decodes... */
  lemma {:induction false} DecodeEachOk(dec: Element -> Result<Raw, Error>, xs: seq<Element>, j: nat, acc: seq<Raw>)
    requires j <= |xs|
    ensures DecodeEach(dec, xs, j, acc).Ok? <==> forall n :: j <= n < |xs| ==> dec(xs[n]).Ok?
    decreases |xs| - j
  {
    if j < |xs| && dec(xs[j]).Ok? {
      DecodeEachOk(dec, xs, j + 1, acc + [dec(xs[j]).value]);
    }
  }

  /** ...and then appends the decodings to acc, in order. */
  lemma {:induction false} DecodeEachValue(dec: Element -> Result<Raw, Error>, xs: seq<Element>, j: nat, acc: seq<Raw>, r: seq<Raw>)
    requires j <= |xs|
    requires DecodeEach(dec, xs, j, acc) == Ok(r)
    ensures |r| == |acc| + |xs| - j && r[..|acc|] == acc
    ensures forall n :: j <= n < |xs| ==> dec(xs[n]) == Ok(r[|acc| + n - j])
    decreases |xs| - j
  {
    if j < |xs| {
      var raw := dec(xs[j]).value;
      DecodeEachValue(dec, xs, j + 1, acc + [raw], r);
      assert r[..|acc|] == r[..|acc| + 1][..|acc|];
    }
  }

  /** The comprehension over `findall(name)` is DecodeEach with `from_element(_, c)` over the matches. */
  lemma {:induction false} DecodeAllIsEach(schema: Schema, e: Element, name: string, c: ModelId, j: nat, acc: seq<Raw>)
    requires j <= |FindAll(e, name)|
    ensures DecodeAllFrom(schema, e, name, c, j, acc) == DecodeEach(x => DecodeElement(schema, x, c), FindAll(e, name), j, acc)
    decreases |FindAll(e, name)| - j
  {
    if j < |FindAll(e, name)| {
      var d := DecodeElement(schema, FindAll(e, name)[j], c);
      DecodeAllEachStep(schema, e, name, c, j, acc);
      if d.Ok? {
        DecodeAllIsEach(schema, e, name, c, j + 1, acc + [d.value]);
      }
    }
  }

  /** Both comprehensions take the same step at match j. */
  lemma DecodeAllEachStep(schema: Schema, e: Element, name: string, c: ModelId, j: nat, acc: seq<Raw>)
    requires j < |FindAll(e, name)|
    ensures var d := DecodeElement(schema, FindAll(e, name)[j], c);
      d.Ok? ==>
        DecodeAllFrom(schema, e, name, c, j, acc) == DecodeAllFrom(schema, e, name, c, j + 1, acc + [d.value])
        && DecodeEach(x => DecodeElement(schema, x, c), FindAll(e, name), j, acc)
           == DecodeEach(x => DecodeElement(schema, x, c), FindAll(e, name), j + 1, acc + [d.value])
    ensures var d := DecodeElement(schema, FindAll(e, name)[j], c);
      d.Err? ==>
        DecodeAllFrom(schema, e, name, c, j, acc) == Err(d.error)
        && DecodeEach(x => DecodeElement(schema, x, c), FindAll(e, name), j, acc) == Err(d.error)
  {
    var subs := FindAll(e, name);
    var dec := x => DecodeElement(schema, x, c);
    DecodeAllStep(schema, e, name, c, j, acc);
    DecodeEachStep(dec, subs, j, acc);
    assert dec(subs[j]) == DecodeElement(schema, subs[j], c);
  }

  /** The comprehension over `findall(name)` from match j on succeeds exactly when each match decodes... */
  lemma DecodeAllOk(schema: Schema, e: Element, name: string, c: ModelId, j: nat, acc: seq<Raw>)
    requires j <= |FindAll(e, name)|
    ensures DecodeAllFrom(schema, e, name, c, j, acc).Ok?
      <==> forall n :: j <= n < |FindAll(e, name)| ==> DecodeElement(schema, FindAll(e, name)[n], c).Ok?
  {
    DecodeAllIsEach(schema, e, name, c, j, acc);
    DecodeEachOk(x => DecodeElement(schema, x, c), FindAll(e, name), j, acc);
  }

  /** ...and then keeps acc in front and appends their decodings after it, in document order. */
  lemma DecodeAllValue(schema: Schema, e: Element, name: string, c: ModelId, j: nat, acc: seq<Raw>, r: seq<Raw>)
    requires j <= |FindAll(e, name)|
    requires DecodeAllFrom(schema, e, name, c, j, acc) == Ok(r)
    ensures |r| == |acc| + |FindAll(e, name)| - j && r[..|acc|] == acc
    ensures forall n :: j <= n < |FindAll(e, name)| ==> DecodeElement(schema, FindAll(e, name)[n], c) == Ok(r[|acc| + n - j])
  {
    DecodeAllIsEach(schema, e, name, c, j, acc);
    DecodeEachValue(x => DecodeElement(schema, x, c), FindAll(e, name), j, acc, r);
  }

  /** Splitting the children at k splits their matches at the number of matches before k. */
  lemma TaggedSplit(cs: seq<Element>, name: string, k: nat)
    requires k < |cs|
    ensures Tagged(cs, name) == Tagged(cs[..k], name) + Tagged(cs[k..], name)
    ensures Tagged(cs[..k + 1], name) == Tagged(cs[..k], name) + (if cs[k].tag == name then [cs[k]] else [])
  {
    TaggedCut(cs, name, k);
    TaggedSnoc(cs, name, k);
  }

  /** Selecting by tag commutes with cutting the children at k. */
  lemma TaggedCut(cs: seq<Element>, name: string, k: nat)
    requires k <= |cs|
    ensures Tagged(cs, name) == Tagged(cs[..k], name) + Tagged(cs[k..], name)
  {
    assert cs == cs[..k] + cs[k..];
    TaggedAppend(cs[..k], cs[k..], name);
  }

  /** Extending the prefix by child k adds that child exactly when it carries the tag. */
  lemma TaggedSnoc(cs: seq<Element>, name: string, k: nat)
    requires k < |cs|
    ensures Tagged(cs[..k + 1], name) == Tagged(cs[..k], name) + (if cs[k].tag == name then [cs[k]] else [])
  {
    assert cs[..k + 1] == cs[..k] + [cs[k]];
    TaggedAppend(cs[..k], [cs[k]], name);
  }

  /**
   * The content loop, which walks every child and keeps those tagged
   * `name`, from child k on, does what the comprehension over
   * `findall(name)` does from the matches after the first k children.
   */
  lemma {:induction false} TaggedIsFindAllFrom(schema: Schema, e: Element, name: string, c: ModelId, k: nat, acc: seq<Raw>)
    requires k <= |e.children|
    ensures |Tagged(e.children[..k], name)| <= |FindAll(e, name)|
    ensures DecodeTaggedFrom(schema, e, name, c, k, acc) == DecodeAllFrom(schema, e, name, c, |Tagged(e.children[..k], name)|, acc)
    decreases |e.children| - k
  {
    var cs := e.children;
    if k == |cs| {
      assert cs[..k] == cs;
    } else {
      TaggedSplit(cs, name, k);
      var j := |Tagged(cs[..k], name)|;
      DecodeTaggedStep(schema, e, name, c, k, acc);
      if cs[k].tag == name {
        assert Tagged(cs[k..], name)[0] == cs[k];
        assert FindAll(e, name)[j] == cs[k];
        DecodeAllStep(schema, e, name, c, j, acc);
        var raw := DecodeElement(schema, cs[k], c);
        if raw.Ok? {
          TaggedIsFindAllFrom(schema, e, name, c, k + 1, acc + [raw.value]);
          assert |Tagged(cs[..k + 1], name)| == j + 1;
          assert DecodeTaggedFrom(schema, e, name, c, k, acc) == DecodeTaggedFrom(schema, e, name, c, k + 1, acc + [raw.value]);
          assert DecodeAllFrom(schema, e, name, c, j, acc) == DecodeAllFrom(schema, e, name, c, j + 1, acc + [raw.value]);
        } else {
          assert DecodeTaggedFrom(schema, e, name, c, k, acc) == Err(raw.error);
          assert DecodeAllFrom(schema, e, name, c, j, acc) == Err(raw.error);
        }
      } else {
        TaggedIsFindAllFrom(schema, e, name, c, k + 1, acc);
        assert |Tagged(cs[..k + 1], name)| == j;
      }
    }
  }

  /** The content list holds exactly what `findall` of the declared element tag would give, in document order. */
  lemma ContentIsFindAll(schema: Schema, e: Element, name: string, c: ModelId)
    ensures DecodeTaggedFrom(schema, e, name, c, 0, []) == DecodeAllFrom(schema, e, name, c, 0, [])
  {
    TaggedIsFindAllFrom(schema, e, name, c, 0, []);
    assert e.children[..0] == [];
  }

  /**
   * The content key is always set: to the decodings of the children tagged
   * like the declared element class, in document order, or to the text, an
   * absent text reading as "".
   */
  lemma DecodeContentKey(schema: Schema, e: Element, m: ModelId, data: Dict.Dict<Raw>)
    requires DecodeContent(schema, e, m, data).Ok?
    ensures ContentIndex(schema(m).fields).Some?
    ensures var cf := schema(m).fields[ContentIndex(schema(m).fields).value];
      var shape := Analyze(cf.outerType);
      var got := Dict.Get(DecodeContent(schema, e, m, data).value, cf.alias);
      (shape.subFields.None? ==> got == Some(RawText(if e.text.Some? then e.text.value else "")))
      && (shape.subFields.Some? ==>
            var name := ClassTag(schema(ElementType(shape).id));
            var subs := FindAll(e, name);
            got.Some? && got.value.RawList? && |got.value.items| == |subs|
            && forall n :: 0 <= n < |subs| ==> DecodeElement(schema, subs[n], ElementType(shape).id) == Ok(got.value.items[n]))
  {
    var cf := schema(m).fields[ContentIndex(schema(m).fields).value];
    var shape := Analyze(cf.outerType);
    if shape.subFields.Some? {
      var elem := ElementType(shape);
      var name := ClassTag(schema(elem.id));
      ContentIsFindAll(schema, e, name, elem.id);
      DecodeAllValue(schema, e, name, elem.id, 0, [], DecodeAllFrom(schema, e, name, elem.id, 0, []).value);
    }
  }

  // --------------------------------------------------- decoder, per field

  /**
   * A field that is neither list-like nor a record is read from the
   * attribute named by its `__xml_name__` extra, or else by its alias, and
   * stored under that name; a missing attribute leaves the bag as it was,
   * whatever children the element has.
   */
  lemma DecodeScalarField(schema: Schema, e: Element, m: ModelId, i: nat, data: Dict.Dict<Raw>, xmlName: Option<string>)
    requires i < |schema(m).fields| && schema(m).fields[i].name != ContentField
    requires Analyze(schema(m).fields[i].outerType).subFields.None? && !Analyze(schema(m).fields[i].outerType).type_.Model?
    ensures var name := FieldXmlName(schema(m).fields[i]);
      DecodeField(schema, e, m, i, data, xmlName)
        == Ok((if name in Dict.Keys(e.attrib) then Dict.Put(data, name, RawText(Dict.Get(e.attrib, name).value)) else data, Some(name)))
  {
  }

  /**
   * A record field is looked up by the XMLModel's element name, or else by
   * its own name; unless that name holds "xmlns:", the first child carrying
   * it is decoded into the field's key, and with no such child the bag is
   * left as it was.
   */
  lemma DecodeNestedField(schema: Schema, e: Element, m: ModelId, i: nat, data: Dict.Dict<Raw>, xmlName: Option<string>)
    requires i < |schema(m).fields| && schema(m).fields[i].name != ContentField
    requires Analyze(schema(m).fields[i].outerType).subFields.None? && Analyze(schema(m).fields[i].outerType).type_.Model?
    ensures var f := schema(m).fields[i];
      var c := Analyze(f.outerType).type_.id;
      var name := if schema(c).isXmlModel then XmlName(schema(c)) else FieldXmlName(f);
      var subs := FindAll(e, name);
      var r := DecodeField(schema, e, m, i, data, xmlName);
      (r.Err? <==> !Contains(name, "xmlns:") && subs != [] && DecodeElement(schema, subs[0], c).Err?)
      && (r.Ok? ==> r.value == (if Contains(name, "xmlns:") || subs == [] then data else Dict.Put(data, f.name, DecodeElement(schema, subs[0], c).value), Some(name)))
  {
    var f := schema(m).fields[i];
    var c := Analyze(f.outerType).type_.id;
    var name := if schema(c).isXmlModel then XmlName(schema(c)) else FieldXmlName(f);
    FindIsFirstOfFindAll(e, name);
  }

  /**
   * A list field `List[X]` of records, looked up under `name`, always sets
   * its key: to the decodings of every child tagged `name`, in document
   * order. The name is X's element name when X is an XMLModel, and the
   * stale one otherwise.
   */
  lemma DecodeListField(schema: Schema, e: Element, m: ModelId, i: nat, data: Dict.Dict<Raw>, xmlName: Option<string>, name: string)
    requires i < |schema(m).fields| && schema(m).fields[i].name != ContentField
    requires Analyze(schema(m).fields[i].outerType).subFields.Some? && Analyze(schema(m).fields[i].outerType).type_.Model?
    requires ElementType(Analyze(schema(m).fields[i].outerType)).Model?
    requires LookupName(schema, schema(m).fields[i], xmlName) == Ok(Some(name))
    ensures var c := ElementType(Analyze(schema(m).fields[i].outerType)).id;
      name == if schema(c).isXmlModel then XmlName(schema(c)) else xmlName.value
    ensures var f := schema(m).fields[i];
      var c := ElementType(Analyze(f.outerType)).id;
      var subs := FindAll(e, name);
      var r := DecodeField(schema, e, m, i, data, xmlName);
      (r.Ok? <==> forall n :: 0 <= n < |subs| ==> DecodeElement(schema, subs[n], c).Ok?)
      && (r.Ok? ==>
            var got := Dict.Get(r.value.0, f.name);
            r.value.1 == Some(name) && got.Some? && got.value.RawList? && |got.value.items| == |subs|
            && (forall n :: 0 <= n < |subs| ==> DecodeElement(schema, subs[n], c) == Ok(got.value.items[n]))
            && forall k' :: k' != f.name ==> Dict.Get(r.value.0, k') == Dict.Get(data, k'))
  {
    ListFieldStep(schema, e, m, i, data, xmlName, name);
    ListFieldOk(schema, e, m, i, data, xmlName, name);
    if DecodeField(schema, e, m, i, data, xmlName).Ok? {
      ListFieldValue(schema, e, m, i, data, xmlName, name);
    }
  }

  /** The list field's pass succeeds exactly when every match decodes... */
  lemma ListFieldOk(schema: Schema, e: Element, m: ModelId, i: nat, data: Dict.Dict<Raw>, xmlName: Option<string>, name: string)
    requires i < |schema(m).fields| && schema(m).fields[i].name != ContentField
    requires Analyze(schema(m).fields[i].outerType).subFields.Some? && Analyze(schema(m).fields[i].outerType).type_.Model?
    requires ElementType(Analyze(schema(m).fields[i].outerType)).Model?
    requires LookupName(schema, schema(m).fields[i], xmlName) == Ok(Some(name))
    ensures var c := ElementType(Analyze(schema(m).fields[i].outerType)).id;
      var subs := FindAll(e, name);
      DecodeField(schema, e, m, i, data, xmlName).Ok? <==> forall n :: 0 <= n < |subs| ==> DecodeElement(schema, subs[n], c).Ok?
  {
    var c := ElementType(Analyze(schema(m).fields[i].outerType)).id;
    ListFieldStep(schema, e, m, i, data, xmlName, name);
    DecodeAllOk(schema, e, name, c, 0, []);
  }

  /** ...and then stores one decoding per match under the field's key, touching no other key. */
  lemma ListFieldValue(schema: Schema, e: Element, m: ModelId, i: nat, data: Dict.Dict<Raw>, xmlName: Option<string>, name: string)
    requires i < |schema(m).fields| && schema(m).fields[i].name != ContentField
    requires Analyze(schema(m).fields[i].outerType).subFields.Some? && Analyze(schema(m).fields[i].outerType).type_.Model?
    requires ElementType(Analyze(schema(m).fields[i].outerType)).Model?
    requires LookupName(schema, schema(m).fields[i], xmlName) == Ok(Some(name))
    requires DecodeField(schema, e, m, i, data, xmlName).Ok?
    ensures var f := schema(m).fields[i];
      var c := ElementType(Analyze(f.outerType)).id;
      var subs := FindAll(e, name);
      var r := DecodeField(schema, e, m, i, data, xmlName).value;
      var got := Dict.Get(r.0, f.name);
      r.1 == Some(name) && got.Some? && got.value.RawList? && |got.value.items| == |subs|
      && (forall n :: 0 <= n < |subs| ==> DecodeElement(schema, subs[n], c) == Ok(got.value.items[n]))
      && forall k' :: k' != f.name ==> Dict.Get(r.0, k') == Dict.Get(data, k')
  {
    var f := schema(m).fields[i];
    var c := ElementType(Analyze(f.outerType)).id;
    ListFieldStep(schema, e, m, i, data, xmlName, name);
    var d := DecodeAllFrom(schema, e, name, c, 0, []);
    assert d.Ok?;
    DecodeAllValue(schema, e, name, c, 0, [], d.value);
    var bag := Dict.Put(data, f.name, RawList(d.value));
    assert DecodeField(schema, e, m, i, data, xmlName).value == (bag, Some(name));
    assert Dict.Get(bag, f.name) == Some(RawList(d.value));
  }

  /** A list field's pass of the loop is the list of its matches' decodings, put under the field's key. */
  lemma ListFieldStep(schema: Schema, e: Element, m: ModelId, i: nat, data: Dict.Dict<Raw>, xmlName: Option<string>, name: string)
    requires i < |schema(m).fields| && schema(m).fields[i].name != ContentField
    requires Analyze(schema(m).fields[i].outerType).subFields.Some? && Analyze(schema(m).fields[i].outerType).type_.Model?
    requires ElementType(Analyze(schema(m).fields[i].outerType)).Model?
    requires LookupName(schema, schema(m).fields[i], xmlName) == Ok(Some(name))
    ensures var c := ElementType(Analyze(schema(m).fields[i].outerType)).id;
      name == if schema(c).isXmlModel then XmlName(schema(c)) else xmlName.value
    ensures var f := schema(m).fields[i];
      var d := DecodeAllFrom(schema, e, name, ElementType(Analyze(f.outerType)).id, 0, []);
      DecodeField(schema, e, m, i, data, xmlName)
        == if d.Err? then Err(d.error) else Ok((Dict.Put(data, f.name, RawList(d.value)), Some(name)))
  {
  }

  // ---------------------------------------------------------- round trip

  /** A field written as an attribute and read back from one: neither list-like nor a record, with no `__xml_name__` extra. */
  predicate FlatField(f: FieldDef)
  {
    var shape := Analyze(f.outerType);
    shape.subFields.None? && !shape.type_.Model? && f.extraXmlName.None?
  }

  /** An XMLModel whose content is text and whose other fields are all flat, their aliases pairwise distinct. */
  predicate FlatModel(d: ModelDef)
  {
    d.isXmlModel && ContentIndex(d.fields).Some?
    && Analyze(d.fields[ContentIndex(d.fields).value].outerType).subFields.None?
    && (forall i :: 0 <= i < |d.fields| && d.fields[i].name != ContentField ==> FlatField(d.fields[i]))
    && (forall i, j :: 0 <= i < j < |d.fields| ==> d.fields[i].alias != d.fields[j].alias)
  }

  /** The field loop of a flat model never fails. */
  lemma {:induction false} EncodeFlatOk(schema: Schema, o: ToXmlOptions, show: Value -> string, el: Element, obj: Value, k: nat)
    requires obj.Record? && Conforms(schema, obj) && FlatModel(schema(obj.model)) && k <= |obj.fields|
    ensures EncodeFieldsFrom(schema, o, show, el, obj, k).Ok?
    decreases |obj.fields| - k
  {
    if k < |obj.fields| {
      var f := schema(obj.model).fields[k];
      assert f.name != ContentField ==> FlatField(f);
      var el' := EncodeField(schema, o, show, el, obj, k);
      assert el'.Ok?;
      EncodeFlatOk(schema, o, show, el'.value, obj, k + 1);
    }
  }

  /** A flat model's field loop from k on leaves alone an attribute that no field from k on is aliased to... */
  lemma {:induction false} EncodeFlatKeeps(schema: Schema, o: ToXmlOptions, show: Value -> string, el: Element, obj: Value, k: nat, key: string)
    requires obj.Record? && Conforms(schema, obj) && FlatModel(schema(obj.model)) && k <= |obj.fields|
    requires forall j :: k <= j < |obj.fields| ==> schema(obj.model).fields[j].alias != key
    ensures EncodeFieldsFrom(schema, o, show, el, obj, k).Ok?
    ensures Dict.Get(EncodeFieldsFrom(schema, o, show, el, obj, k).value.attrib, key) == Dict.Get(el.attrib, key)
    decreases |obj.fields| - k
  {
    EncodeFlatOk(schema, o, show, el, obj, k);
    if k < |obj.fields| {
      EncodeFieldFrame(schema, o, show, el, obj, k);
      EncodeFieldsFrom1(schema, o, show, el, obj, k);
      EncodeFlatKeeps(schema, o, show, EncodeField(schema, o, show, el, obj, k).value, obj, k + 1, key);
    }
  }

  /** ...and writes field i's printed value under its alias exactly when it is an attribute field. */
  lemma {:induction false} EncodeFlatGet(schema: Schema, o: ToXmlOptions, show: Value -> string, el: Element, obj: Value, k: nat, i: nat)
    requires obj.Record? && Conforms(schema, obj) && FlatModel(schema(obj.model))
    requires k <= i < |obj.fields|
    ensures EncodeFieldsFrom(schema, o, show, el, obj, k).Ok?
    ensures var a := schema(obj.model).fields[i].alias;
      Dict.Get(EncodeFieldsFrom(schema, o, show, el, obj, k).value.attrib, a)
        == if IsAttrField(schema, o, obj, i) then Some(show(obj.fields[i])) else Dict.Get(el.attrib, a)
    decreases i - k
  {
    EncodeFlatOk(schema, o, show, el, obj, k);
    EncodeFieldFrame(schema, o, show, el, obj, k);
    EncodeFieldsFrom1(schema, o, show, el, obj, k);
    var el' := EncodeField(schema, o, show, el, obj, k).value;
    var a := schema(obj.model).fields[i].alias;
    if k < i {
      assert schema(obj.model).fields[k].alias != a;
      EncodeFlatGet(schema, o, show, el', obj, k + 1, i);
    } else {
      EncodeFlatKeeps(schema, o, show, el', obj, k + 1, a);
    }
  }

  /** A flat model's decoding loop from k on never fails. */
  lemma {:induction false} DecodeFlatOk(schema: Schema, e: Element, m: ModelId, k: nat, data: Dict.Dict<Raw>, xmlName: Option<string>)
    requires FlatModel(schema(m)) && k <= |schema(m).fields|
    ensures DecodeFieldsFrom(schema, e, m, k, data, xmlName).Ok?
    decreases |schema(m).fields| - k
  {
    if k < |schema(m).fields| {
      var f := schema(m).fields[k];
      if f.name != ContentField {
        assert FlatField(f);
        DecodeScalarField(schema, e, m, k, data, xmlName);
      }
      var step := DecodeField(schema, e, m, k, data, xmlName).value;
      DecodeFieldsFrom1(schema, e, m, k, data, xmlName);
      DecodeFlatOk(schema, e, m, k + 1, step.0, step.1);
    }
  }

  /** A flat model's decoding loop from k on leaves alone a key that no field from k on is aliased to... */
  lemma {:induction false} DecodeFlatKeeps(schema: Schema, e: Element, m: ModelId, k: nat, data: Dict.Dict<Raw>, xmlName: Option<string>, key: string)
    requires FlatModel(schema(m)) && k <= |schema(m).fields|
    requires forall j :: k <= j < |schema(m).fields| ==> schema(m).fields[j].alias != key
    ensures DecodeFieldsFrom(schema, e, m, k, data, xmlName).Ok?
    ensures Dict.Get(DecodeFieldsFrom(schema, e, m, k, data, xmlName).value, key) == Dict.Get(data, key)
    decreases |schema(m).fields| - k
  {
    DecodeFlatOk(schema, e, m, k, data, xmlName);
    if k < |schema(m).fields| {
      var f := schema(m).fields[k];
      if f.name != ContentField {
        assert FlatField(f);
        DecodeScalarField(schema, e, m, k, data, xmlName);
      }
      var step := DecodeField(schema, e, m, k, data, xmlName).value;
      DecodeFieldsFrom1(schema, e, m, k, data, xmlName);
      DecodeFlatKeeps(schema, e, m, k + 1, step.0, step.1, key);
    }
  }

  /** ...and reads field i from the attribute under its alias. */
  lemma {:induction false} DecodeFlatGet(schema: Schema, e: Element, m: ModelId, k: nat, data: Dict.Dict<Raw>, xmlName: Option<string>, i: nat)
    requires FlatModel(schema(m)) && k <= i < |schema(m).fields| && schema(m).fields[i].name != ContentField
    ensures DecodeFieldsFrom(schema, e, m, k, data, xmlName).Ok?
    ensures var a := schema(m).fields[i].alias;
      Dict.Get(DecodeFieldsFrom(schema, e, m, k, data, xmlName).value, a)
        == if a in Dict.Keys(e.attrib) then Some(RawText(Dict.Get(e.attrib, a).value)) else Dict.Get(data, a)
    decreases i - k
  {
    DecodeFlatOk(schema, e, m, k, data, xmlName);
    var f := schema(m).fields[k];
    var a := schema(m).fields[i].alias;
    if f.name != ContentField {
      assert FlatField(f);
      DecodeScalarField(schema, e, m, k, data, xmlName);
    }
    var step := DecodeField(schema, e, m, k, data, xmlName).value;
    DecodeFieldsFrom1(schema, e, m, k, data, xmlName);
    if k < i {
      assert f.alias != a;
      DecodeFlatGet(schema, e, m, k + 1, step.0, step.1, i);
    } else {
      DecodeFlatKeeps(schema, e, m, k + 1, step.0, step.1, a);
    }
  }

  /** The tree `to_xml` builds for a flat model: the content's printed value as text, and each field's printed value under its alias exactly when it is an attribute field. */
  lemma FlatTree(schema: Schema, o: ToXmlOptions, show: Value -> string, model: Value)
    requires model.Record? && Conforms(schema, model) && FlatModel(schema(model.model))
    ensures ToTree(schema, o, show, model).Ok?
    ensures var c := ContentIndex(schema(model.model).fields).value;
      ToTree(schema, o, show, model).value.text == if model.fields[c].PyNone? then None else Some(show(model.fields[c]))
    ensures forall i :: 0 <= i < |model.fields| ==>
      Dict.Get(ToTree(schema, o, show, model).value.attrib, schema(model.model).fields[i].alias)
        == if IsAttrField(schema, o, model, i) then Some(show(model.fields[i])) else None
  {
    var root := Empty(XmlName(schema(model.model)));
    EncodeFlatOk(schema, o, show, root, model, 0);
    var mid := EncodeFieldsFrom(schema, o, show, root, model, 0).value;
    EncodeFieldsFrame(schema, o, show, root, model, 0);
    assert EncodeContent(schema, o, show, mid, model).Ok?;
    EncodeContentFrame(schema, o, show, mid, model);
    forall i | 0 <= i < |model.fields|
      ensures Dict.Get(mid.attrib, schema(model.model).fields[i].alias) == if IsAttrField(schema, o, model, i) then Some(show(model.fields[i])) else None
    {
      EncodeFlatGet(schema, o, show, root, model, 0, i);
    }
  }

  /**
   * Round trip for a flat XMLModel: reading back the tree `to_xml` builds
   * gives each field its printed value under its alias, except a None that
   * `exclude_none` dropped, which is missing; the content reads back as its
   * printed value, or "" when it is None.
   */
  lemma FlatRoundTrip(schema: Schema, o: ToXmlOptions, show: Value -> string, model: Value)
    requires model.Record? && Conforms(schema, model) && FlatModel(schema(model.model))
    ensures ToTree(schema, o, show, model).Ok?
    ensures DecodeElement(schema, ToTree(schema, o, show, model).value, model.model).Ok?
    ensures DecodeElement(schema, ToTree(schema, o, show, model).value, model.model).value.RawBag?
    ensures var bag := DecodeElement(schema, ToTree(schema, o, show, model).value, model.model).value.entries;
      forall i :: 0 <= i < |model.fields| && schema(model.model).fields[i].name != ContentField ==>
        Dict.Get(bag, schema(model.model).fields[i].alias)
          == if o.excludeNone && model.fields[i].PyNone? then None else Some(RawText(show(model.fields[i])))
    ensures var bag := DecodeElement(schema, ToTree(schema, o, show, model).value, model.model).value.entries;
      var c := ContentIndex(schema(model.model).fields).value;
      Dict.Get(bag, schema(model.model).fields[c].alias) == Some(RawText(if model.fields[c].PyNone? then "" else show(model.fields[c])))
  {
    var m := model.model;
    var fs := schema(m).fields;
    var c := ContentIndex(fs).value;
    FlatTree(schema, o, show, model);
    var tree := ToTree(schema, o, show, model).value;
    DecodeFlatOk(schema, tree, m, 0, [], None);
    var bag0 := DecodeFieldsFrom(schema, tree, m, 0, [], None).value;
    var text := RawText(if tree.text.Some? then tree.text.value else "");
    assert DecodeContent(schema, tree, m, bag0) == Ok(Dict.Put(bag0, fs[c].alias, text));
    forall i | 0 <= i < |model.fields| && fs[i].name != ContentField
      ensures Dict.Get(Dict.Put(bag0, fs[c].alias, text), fs[i].alias)
        == if o.excludeNone && model.fields[i].PyNone? then None else Some(RawText(show(model.fields[i])))
    {
      assert FlatField(fs[i]);
      DecodeFlatGet(schema, tree, m, 0, [], None, i);
      assert i != c;
      assert fs[i].alias != fs[c].alias;
    }
  }

  // ------------------------------------------------------------ examples

  /** The content field every XMLModel inherits: `xml_content: Optional[Any] = None`. */
  const InheritedContent: FieldDef := FieldDef(ContentField, ContentField, Union([Scalar, NoneType]), None)

  /** `class ExampleModel(XMLModel): __xml_name__ = "example"; name: str; value: int`. */
  const ExampleModelDef: ModelDef := ModelDef("ExampleModel", true, Some("example"), DefaultNameFunction,
    [InheritedContent, FieldDef("name", "name", Str, None), FieldDef("value", "value", Scalar, None)])

  /** `Optional[Any]` allows None and has no sub-fields: the content is text. */
  lemma ContentFieldShape()
    ensures Analyze(InheritedContent.outerType) == FieldShape(Scalar, None, true)
  {
    assert NonNoneArms([NoneType]) == [];
    assert NonNoneArms([Scalar, NoneType]) == [Scalar];
  }

  /** The classes of the example: ExampleModel is every class. */
  function ExampleSchema(): Schema {
    m => ExampleModelDef
  }




  /** `ExampleModel(name="test", value=123)`. */
  const ExampleInstance: Value := Record(0, [PyNone, PyStr("test"), PyInt(123)])

  /** `<example name="test" value="123"/>`. */
  const ExampleElement: Element := Element("example", [("name", "test"), ("value", "123")], [], None)

  lemma ExampleEncodeName(show: Value -> string)
    requires show(PyStr("test")) == "test"
    ensures Conforms(ExampleSchema(), ExampleInstance)
    ensures EncodeField(ExampleSchema(), ToXmlOptions(false), show, Empty("example"), ExampleInstance, 1)
      == Ok(Element("example", [("name", "test")], [], None))
  {
    assert Conforms(ExampleSchema(), ExampleInstance);
    assert Analyze(Str) == FieldShape(Str, None, false);
    assert Dict.Keys<string>([]) == {};
    assert Dict.Put([], "name", "test") == [("name", "test")];
  }

  lemma ExampleEncodeValue(show: Value -> string)
    requires show(PyInt(123)) == "123"
    ensures Conforms(ExampleSchema(), ExampleInstance)
    ensures EncodeField(ExampleSchema(), ToXmlOptions(false), show, Element("example", [("name", "test")], [], None), ExampleInstance, 2)
      == Ok(ExampleElement)
  {
    assert Conforms(ExampleSchema(), ExampleInstance);
    assert Analyze(Scalar) == FieldShape(Scalar, None, false);
    Dict.KeysCons(("name", "test"), []);
    assert [("name", "test")] + [] == [("name", "test")];
    assert "value"[0] != "name"[0];
    assert Dict.Put([("name", "test")], "value", "123") == ExampleElement.attrib;
  }

  /** `ExampleModel(name="test", value=123).to_xml()` renders `<example name="test" value="123"/>`. */
  lemma ExampleModelToXml(show: Value -> string)
    requires show(PyStr("test")) == "test" && show(PyInt(123)) == "123"
    ensures ToTree(ExampleSchema(), ToXmlOptions(false), show, ExampleInstance) == Ok(ExampleElement)
  {
    var schema := ExampleSchema();
    var v := ExampleInstance;
    var o := ToXmlOptions(false);
    var root := Empty("example");
    var el1 := Element("example", [("name", "test")], [], None);
    ExampleEncodeName(show);
    ExampleEncodeValue(show);
    assert EncodeField(schema, o, show, root, v, 0) == Ok(root);
    assert EncodeFieldsFrom(schema, o, show, root, v, 0) == EncodeFieldsFrom(schema, o, show, root, v, 1);
    assert EncodeFieldsFrom(schema, o, show, root, v, 1) == EncodeFieldsFrom(schema, o, show, el1, v, 2);
    assert EncodeFieldsFrom(schema, o, show, el1, v, 2) == EncodeFieldsFrom(schema, o, show, ExampleElement, v, 3);
    assert EncodeFieldsFrom(schema, o, show, root, v, 0) == Ok(ExampleElement);
    assert ContentIndex(ExampleModelDef.fields) == Some(0);
    assert EncodeContent(schema, o, show, ExampleElement, v) == Ok(ExampleElement);
    assert ToTree(schema, o, show, v) == EncodeInto(schema, o, show, root, v);
  }

  lemma ExampleDecodeName()
    ensures DecodeField(ExampleSchema(), ExampleElement, 0, 1, [], None) == Ok(([("name", RawText("test"))], Some("name")))
  {
    var e := ExampleElement;
    assert Analyze(Str) == FieldShape(Str, None, false);
    assert e.attrib[0].0 == "name";
    assert "name" in Dict.Keys(e.attrib);
    assert Dict.Get(e.attrib, "name") == Some("test");
    assert Dict.Keys<Raw>([]) == {};
    assert Dict.Put([], "name", RawText("test")) == [("name", RawText("test"))];
  }

  lemma ExampleDecodeValue()
    ensures DecodeField(ExampleSchema(), ExampleElement, 0, 2, [("name", RawText("test"))], Some("name"))
      == Ok(([("name", RawText("test")), ("value", RawText("123"))], Some("value")))
  {
    var e := ExampleElement;
    assert Analyze(Scalar) == FieldShape(Scalar, None, false);
    assert "value"[0] != "name"[0];
    assert e.attrib[1].0 == "value";
    assert "value" in Dict.Keys(e.attrib);
    assert Dict.Get(e.attrib[1..], "value") == Some("123");
    assert Dict.Get(e.attrib, "value") == Some("123");
    Dict.KeysCons(("name", RawText("test")), []);
    assert [("name", RawText("test"))] + [] == [("name", RawText("test"))];
    assert Dict.Put([("name", RawText("test"))], "value", RawText("123")) == [("name", RawText("test")), ("value", RawText("123"))];
  }

  lemma ExampleBagPut()
    ensures Dict.Put([("name", RawText("test")), ("value", RawText("123"))], ContentField, RawText("")) == [("name", RawText("test")), ("value", RawText("123")), (ContentField, RawText(""))]
  {
    var d2 := [("name", RawText("test")), ("value", RawText("123"))];
    assert ContentField[0] != "name"[0] && ContentField[0] != "value"[0];
    Dict.PutNew(d2, ContentField, RawText(""));
  }

  lemma ExampleDecodeContent()
    ensures DecodeContent(ExampleSchema(), ExampleElement, 0, [("name", RawText("test")), ("value", RawText("123"))])
      == Ok([("name", RawText("test")), ("value", RawText("123")), (ContentField, RawText(""))])
  {
    var d2 := [("name", RawText("test")), ("value", RawText("123"))];
    assert ContentIndex(ExampleModelDef.fields) == Some(0);
    ContentFieldShape();
    assert DecodeContent(ExampleSchema(), ExampleElement, 0, d2) == Ok(Dict.Put(d2, ContentField, RawText("")));
    ExampleBagPut();
  }

  /** `ExampleModel.from_xml('<example name="test" value="123"/>')` reads both attributes, and the absent text as "". */
  lemma ExampleModelFromXml()
    ensures DecodeElement(ExampleSchema(), ExampleElement, 0)
      == Ok(RawBag([("name", RawText("test")), ("value", RawText("123")), (ContentField, RawText(""))]))
  {
    var schema := ExampleSchema();
    var e := ExampleElement;
    var d1 := [("name", RawText("test"))];
    var d2 := [("name", RawText("test")), ("value", RawText("123"))];
    assert DecodeField(schema, e, 0, 0, [], None) == Ok(([], None));
    ExampleDecodeName();
    ExampleDecodeValue();
    assert DecodeFieldsFrom(schema, e, 0, 0, [], None) == DecodeFieldsFrom(schema, e, 0, 1, [], None);
    assert DecodeFieldsFrom(schema, e, 0, 1, [], None) == DecodeFieldsFrom(schema, e, 0, 2, d1, Some("name"));
    assert DecodeFieldsFrom(schema, e, 0, 2, d1, Some("name")) == DecodeFieldsFrom(schema, e, 0, 3, d2, Some("value"));
    assert DecodeFieldsFrom(schema, e, 0, 0, [], None) == Ok(d2);
    ExampleDecodeContent();
  }

  /** A plain BaseModel with no fields, `class Plain(BaseModel): pass`. */
  const PlainDef: ModelDef := ModelDef("Plain", false, None, DefaultNameFunction, [])

  /** `class Holder(XMLModel): a: str; items: List[Plain]`. */
  const HolderDef: ModelDef := ModelDef("Holder", true, None, DefaultNameFunction,
    [InheritedContent, FieldDef("a", "a", Str, None), FieldDef("items", "items", Seq([Model(1)]), None)])

  /** The classes of the example: Holder is class 0, Plain every other. */
  function HolderSchema(): Schema {
    m => if m == 0 then HolderDef else PlainDef
  }

  /** `Holder(a="x", items=[Plain()])`. */
  const HolderInstance: Value := Record(0, [PyNone, PyStr("x"), Items([Record(1, [])])])

  /** `<holder a="x"><Plain/></holder>`. */
  const HolderElement: Element := Element("holder", [("a", "x")], [Empty("Plain")], None)

  /** `List[Plain]` is a list field whose elements are the record class 1. */
  lemma PlainListShape()
    ensures Analyze(Seq([Model(1)])) == FieldShape(Model(1), Some([Model(1)]), false)
    ensures ElementType(Analyze(Seq([Model(1)]))) == Model(1)
  {
  }

  lemma HolderEncodeA(show: Value -> string)
    requires show(PyStr("x")) == "x"
    ensures Conforms(HolderSchema(), HolderInstance)
    ensures EncodeField(HolderSchema(), ToXmlOptions(false), show, Empty("holder"), HolderInstance, 1)
      == Ok(Element("holder", [("a", "x")], [], None))
  {
    assert Conforms(HolderSchema(), HolderInstance.fields[2].items[0]);
    assert Conforms(HolderSchema(), HolderInstance.fields[2]);
    assert Conforms(HolderSchema(), HolderInstance);
    assert Analyze(Str) == FieldShape(Str, None, false);
    assert Dict.Keys<string>([]) == {};
    assert Dict.Put([], "a", "x") == [("a", "x")];
  }

  lemma HolderEncodeItems(show: Value -> string)
    ensures Conforms(HolderSchema(), HolderInstance)
    ensures EncodeField(HolderSchema(), ToXmlOptions(false), show, Element("holder", [("a", "x")], [], None), HolderInstance, 2)
      == Ok(HolderElement)
  {
    var schema := HolderSchema();
    var o := ToXmlOptions(false);
    var v := HolderInstance;
    var plain := Record(1, []);
    assert Conforms(schema, v.fields[2].items[0]);
    assert Conforms(schema, v.fields[2]);
    assert Conforms(schema, v);
    PlainListShape();
    assert schema(1) == PlainDef && ClassTag(PlainDef) == "Plain";
    assert EncodeFieldsFrom(schema, o, show, Empty("Plain"), plain, 0) == Ok(Empty("Plain"));
    assert EncodeInto(schema, o, show, Empty("Plain"), plain) == Ok(Empty("Plain"));
    var el1 := Element("holder", [("a", "x")], [], None);
    assert EncodeItemsFrom(schema, o, show, HolderElement, v, 2, None, 1) == Ok(HolderElement);
    assert el1.(children := el1.children + [Empty("Plain")]) == HolderElement;
    assert EncodeItemsFrom(schema, o, show, el1, v, 2, None, 0) == Ok(HolderElement);
  }

  lemma HolderTag()
    ensures XmlName(HolderDef) == "holder"
  {
    assert Lower("Holder") == "holder";
  }

  /** `Holder(a="x", items=[Plain()]).to_xml()` renders `<holder a="x"><Plain/></holder>`... */
  lemma HolderToXml(show: Value -> string)
    requires show(PyStr("x")) == "x"
    ensures ToTree(HolderSchema(), ToXmlOptions(false), show, HolderInstance) == Ok(HolderElement)
  {
    var schema := HolderSchema();
    var v := HolderInstance;
    var o := ToXmlOptions(false);
    var root := Empty("holder");
    var el1 := Element("holder", [("a", "x")], [], None);
    HolderTag();
    HolderEncodeA(show);
    HolderEncodeItems(show);
    assert EncodeField(schema, o, show, root, v, 0) == Ok(root);
    assert EncodeFieldsFrom(schema, o, show, root, v, 0) == EncodeFieldsFrom(schema, o, show, root, v, 1);
    assert EncodeFieldsFrom(schema, o, show, root, v, 1) == EncodeFieldsFrom(schema, o, show, el1, v, 2);
    assert EncodeFieldsFrom(schema, o, show, el1, v, 2) == EncodeFieldsFrom(schema, o, show, HolderElement, v, 3);
    assert EncodeFieldsFrom(schema, o, show, root, v, 0) == Ok(HolderElement);
    assert ContentIndex(HolderDef.fields) == Some(0);
    assert EncodeContent(schema, o, show, HolderElement, v) == Ok(HolderElement);
    assert ToTree(schema, o, show, v) == EncodeInto(schema, o, show, root, v);
  }

  lemma HolderDecodeA()
    ensures DecodeField(HolderSchema(), HolderElement, 0, 1, [], None) == Ok(([("a", RawText("x"))], Some("a")))
  {
    var e := HolderElement;
    assert Analyze(Str) == FieldShape(Str, None, false);
    assert e.attrib[0].0 == "a";
    assert "a" in Dict.Keys(e.attrib);
    assert Dict.Get(e.attrib, "a") == Some("x");
    assert Dict.Keys<Raw>([]) == {};
    assert Dict.Put([], "a", RawText("x")) == [("a", RawText("x"))];
  }

  /** The list of plain BaseModels is looked up under the stale name "a", which no child carries. */
  lemma HolderDecodeItems()
    ensures DecodeField(HolderSchema(), HolderElement, 0, 2, [("a", RawText("x"))], Some("a"))
      == Ok(([("a", RawText("x")), ("items", RawList([]))], Some("a")))
  {
    var schema := HolderSchema();
    var e := HolderElement;
    var f := HolderDef.fields[2];
    PlainListShape();
    assert schema(1) == PlainDef;
    assert LookupName(schema, f, Some("a")) == Ok(Some("a"));
    assert "Plain"[0] != "a"[0];
    assert Tagged(e.children[1..], "a") == [];
    assert FindAll(e, "a") == [];
    assert DecodeAllFrom(schema, e, "a", 1, 0, []) == Ok([]);
    Dict.KeysCons(("a", RawText("x")), []);
    assert [("a", RawText("x"))] + [] == [("a", RawText("x"))];
    assert "items"[0] != "a"[0];
    assert Dict.Put([("a", RawText("x"))], "items", RawList([])) == [("a", RawText("x")), ("items", RawList([]))];
    assert DecodeValue(schema, e, f, "a", [("a", RawText("x"))]) == Ok([("a", RawText("x")), ("items", RawList([]))]);
  }

  lemma HolderBagPut()
    ensures Dict.Put([("a", RawText("x")), ("items", RawList([]))], ContentField, RawText("")) == [("a", RawText("x")), ("items", RawList([])), (ContentField, RawText(""))]
  {
    var d2 := [("a", RawText("x")), ("items", RawList([]))];
    assert ContentField[0] != "a"[0] && ContentField[0] != "items"[0];
    Dict.PutNew(d2, ContentField, RawText(""));
  }

  lemma HolderDecodeContent()
    ensures DecodeContent(HolderSchema(), HolderElement, 0, [("a", RawText("x")), ("items", RawList([]))])
      == Ok([("a", RawText("x")), ("items", RawList([])), (ContentField, RawText(""))])
  {
    var d2 := [("a", RawText("x")), ("items", RawList([]))];
    assert ContentIndex(HolderDef.fields) == Some(0);
    ContentFieldShape();
    assert DecodeContent(HolderSchema(), HolderElement, 0, d2) == Ok(Dict.Put(d2, ContentField, RawText("")));
    HolderBagPut();
  }

  /**
   * ...but reading that element back looks the list up under "a", the name
   * the previous field left behind, so the `<Plain/>` child is not read and
   * the list comes back empty.
   */
  lemma HolderFromXmlLosesPlainList()
    ensures DecodeElement(HolderSchema(), HolderElement, 0)
      == Ok(RawBag([("a", RawText("x")), ("items", RawList([])), (ContentField, RawText(""))]))
  {
    var schema := HolderSchema();
    var e := HolderElement;
    var d1 := [("a", RawText("x"))];
    var d2 := [("a", RawText("x")), ("items", RawList([]))];
    assert DecodeField(schema, e, 0, 0, [], None) == Ok(([], None));
    HolderDecodeA();
    HolderDecodeItems();
    assert DecodeFieldsFrom(schema, e, 0, 0, [], None) == DecodeFieldsFrom(schema, e, 0, 1, [], None);
    assert DecodeFieldsFrom(schema, e, 0, 1, [], None) == DecodeFieldsFrom(schema, e, 0, 2, d1, Some("a"));
    assert DecodeFieldsFrom(schema, e, 0, 2, d1, Some("a")) == DecodeFieldsFrom(schema, e, 0, 3, d2, Some("a"));
    assert DecodeFieldsFrom(schema, e, 0, 0, [], None) == Ok(d2);
    HolderDecodeContent();
  }

  /** `class ExampleModelEmpty(XMLModel, xml_name="test")`: nothing but the inherited content. */
  const EmptyModelDef: ModelDef := ModelDef("ExampleModelEmpty", true, Some("test"), DefaultNameFunction, [InheritedContent])

  /** `class ExampleModelWithSameNameInAttrAndChild(XMLModel, xml_name="test2"): test: str; test_model: ExampleModelEmpty`. */
  const SameNameDef: ModelDef := ModelDef("ExampleModelWithSameNameInAttrAndChild", true, Some("test2"), DefaultNameFunction,
    [InheritedContent, FieldDef("test", "test", Str, None), FieldDef("test_model", "test_model", Model(1), None)])

  /** The classes of the example: the outer model is class 0, ExampleModelEmpty every other. */
  function SameNameSchema(): Schema {
    m => if m == 0 then SameNameDef else EmptyModelDef
  }

  /** `ExampleModelWithSameNameInAttrAndChild(test="test str", test_model=ExampleModelEmpty())`. */
  const SameNameInstance: Value := Record(0, [PyNone, PyStr("test str"), Record(1, [PyNone])])

  /** `<test2 test="test str"><test/></test2>`: an attribute and a child both named "test". */
  const SameNameElement: Element := Element("test2", [("test", "test str")], [Empty("test")], None)

  /** A pattern longer than the string does not occur in it. */
  lemma {:induction false} ShortNotContains(s: string, p: string)
    requires |s| < |p|
    ensures !Contains(s, p)
    decreases |s|
  {
    if s != [] {
      ShortNotContains(s[1..], p);
    }
  }

  lemma SameNameConforms()
    ensures Conforms(SameNameSchema(), SameNameInstance)
  {
    assert Conforms(SameNameSchema(), SameNameInstance.fields[2]);
  }

  lemma EmptyModelEncode(show: Value -> string)
    ensures Conforms(SameNameSchema(), Record(1, [PyNone]))
    ensures EncodeInto(SameNameSchema(), ToXmlOptions(false), show, Empty("test"), Record(1, [PyNone])) == Ok(Empty("test"))
  {
    var schema := SameNameSchema();
    var o := ToXmlOptions(false);
    var v := Record(1, [PyNone]);
    assert Conforms(schema, v);
    assert EncodeField(schema, o, show, Empty("test"), v, 0) == Ok(Empty("test"));
    assert EncodeFieldsFrom(schema, o, show, Empty("test"), v, 0) == EncodeFieldsFrom(schema, o, show, Empty("test"), v, 1);
    assert ContentIndex(EmptyModelDef.fields) == Some(0);
    assert EncodeContent(schema, o, show, Empty("test"), v) == Ok(Empty("test"));
  }

  lemma SameNameEncodeTest(show: Value -> string)
    requires show(PyStr("test str")) == "test str"
    ensures Conforms(SameNameSchema(), SameNameInstance)
    ensures EncodeField(SameNameSchema(), ToXmlOptions(false), show, Empty("test2"), SameNameInstance, 1)
      == Ok(Element("test2", [("test", "test str")], [], None))
  {
    SameNameConforms();
    assert Analyze(Str) == FieldShape(Str, None, false);
    assert Dict.Keys<string>([]) == {};
    assert Dict.Put([], "test", "test str") == [("test", "test str")];
  }

  lemma SameNameEncodeChild(show: Value -> string)
    ensures Conforms(SameNameSchema(), SameNameInstance)
    ensures EncodeField(SameNameSchema(), ToXmlOptions(false), show, Element("test2", [("test", "test str")], [], None), SameNameInstance, 2)
      == Ok(SameNameElement)
  {
    SameNameConforms();
    EmptyModelEncode(show);
    assert Analyze(Model(1)) == FieldShape(Model(1), None, false);
    assert ClassTag(EmptyModelDef) == "test";
    var el1 := Element("test2", [("test", "test str")], [], None);
    assert el1.(children := el1.children + [Empty("test")]) == SameNameElement;
  }

  /** `to_xml()` writes the str field as the attribute `test` and the nested model as the child `<test/>`... */
  lemma SameNameToXml(show: Value -> string)
    requires show(PyStr("test str")) == "test str"
    ensures Conforms(SameNameSchema(), SameNameInstance)
    ensures ToTree(SameNameSchema(), ToXmlOptions(false), show, SameNameInstance) == Ok(SameNameElement)
  {
    var schema := SameNameSchema();
    var v := SameNameInstance;
    var o := ToXmlOptions(false);
    var root := Empty("test2");
    var el1 := Element("test2", [("test", "test str")], [], None);
    SameNameEncodeTest(show);
    SameNameEncodeChild(show);
    assert EncodeField(schema, o, show, root, v, 0) == Ok(root);
    assert EncodeFieldsFrom(schema, o, show, root, v, 0) == EncodeFieldsFrom(schema, o, show, root, v, 1);
    assert EncodeFieldsFrom(schema, o, show, root, v, 1) == EncodeFieldsFrom(schema, o, show, el1, v, 2);
    assert EncodeFieldsFrom(schema, o, show, el1, v, 2) == EncodeFieldsFrom(schema, o, show, SameNameElement, v, 3);
    assert EncodeFieldsFrom(schema, o, show, root, v, 0) == Ok(SameNameElement);
    assert ContentIndex(SameNameDef.fields) == Some(0);
    assert EncodeContent(schema, o, show, SameNameElement, v) == Ok(SameNameElement);
    assert ToTree(schema, o, show, v) == EncodeInto(schema, o, show, root, v);
  }

  lemma SameNameDecodeTest()
    ensures DecodeField(SameNameSchema(), SameNameElement, 0, 1, [], None) == Ok(([("test", RawText("test str"))], Some("test")))
  {
    var e := SameNameElement;
    assert Analyze(Str) == FieldShape(Str, None, false);
    assert e.attrib[0].0 == "test";
    assert "test" in Dict.Keys(e.attrib);
    assert Dict.Get(e.attrib, "test") == Some("test str");
    assert Dict.Keys<Raw>([]) == {};
    assert Dict.Put([], "test", RawText("test str")) == [("test", RawText("test str"))];
  }

  lemma EmptyModelDecode()
    ensures DecodeElement(SameNameSchema(), Empty("test"), 1) == Ok(RawBag([(ContentField, RawText(""))]))
  {
    var schema := SameNameSchema();
    assert DecodeField(schema, Empty("test"), 1, 0, [], None) == Ok(([], None));
    assert DecodeFieldsFrom(schema, Empty("test"), 1, 0, [], None) == DecodeFieldsFrom(schema, Empty("test"), 1, 1, [], None);
    assert DecodeFieldsFrom(schema, Empty("test"), 1, 0, [], None) == Ok([]);
    assert ContentIndex(EmptyModelDef.fields) == Some(0);
    ContentFieldShape();
    assert DecodeContent(schema, Empty("test"), 1, []) == Ok(Dict.Put([], ContentField, RawText("")));
    assert Dict.Keys<Raw>([]) == {};
    assert Dict.Put([], ContentField, RawText("")) == [(ContentField, RawText(""))];
  }

  /** The nested model is looked up by its element name "test": the attribute of that name is passed over and the child is read. */
  lemma SameNameDecodeChild()
    ensures DecodeField(SameNameSchema(), SameNameElement, 0, 2, [("test", RawText("test str"))], Some("test"))
      == Ok((Dict.Put([("test", RawText("test str"))], "test_model", RawBag([(ContentField, RawText(""))])), Some("test")))
  {
    var schema := SameNameSchema();
    var e := SameNameElement;
    assert Analyze(Model(1)) == FieldShape(Model(1), None, false);
    DecodeNestedField(schema, e, 0, 2, [("test", RawText("test str"))], Some("test"));
    ShortNotContains("test", "xmlns:");
    assert FindAll(e, "test") == [Empty("test")];
    EmptyModelDecode();
    assert schema(1) == EmptyModelDef && XmlName(EmptyModelDef) == "test";
  }

  lemma SameNameChildPut()
    ensures Dict.Put([("test", RawText("test str"))], "test_model", RawBag([(ContentField, RawText(""))]))
      == [("test", RawText("test str")), ("test_model", RawBag([(ContentField, RawText(""))]))]
  {
    var d1 := [("test", RawText("test str"))];
    Dict.KeysCons(("test", RawText("test str")), []);
    assert [("test", RawText("test str"))] + [] == d1;
    assert Dict.Keys<Raw>([]) == {};
    assert "test_model" != "test";
    Dict.PutNew(d1, "test_model", RawBag([(ContentField, RawText(""))]));
  }

  lemma SameNameBagPut()
    ensures Dict.Put([("test", RawText("test str")), ("test_model", RawBag([(ContentField, RawText(""))]))], ContentField, RawText(""))
      == [("test", RawText("test str")), ("test_model", RawBag([(ContentField, RawText(""))])), (ContentField, RawText(""))]
  {
    var d2 := [("test", RawText("test str")), ("test_model", RawBag([(ContentField, RawText(""))]))];
    assert ContentField[0] != "test"[0] && ContentField[0] != "test_model"[0];
    Dict.PutNew(d2, ContentField, RawText(""));
  }

  /**
   * ...and `from_xml` on that element reads the attribute into the key
   * "test" and the child into "test_model": the two do not collide.
   */
  lemma SameNameFromXml()
    ensures DecodeElement(SameNameSchema(), SameNameElement, 0)
      == Ok(RawBag([("test", RawText("test str")), ("test_model", RawBag([(ContentField, RawText(""))])), (ContentField, RawText(""))]))
  {
    var schema := SameNameSchema();
    var e := SameNameElement;
    var d1 := [("test", RawText("test str"))];
    var d2 := [("test", RawText("test str")), ("test_model", RawBag([(ContentField, RawText(""))]))];
    assert DecodeField(schema, e, 0, 0, [], None) == Ok(([], None));
    SameNameDecodeTest();
    SameNameDecodeChild();
    SameNameChildPut();
    assert DecodeFieldsFrom(schema, e, 0, 0, [], None) == DecodeFieldsFrom(schema, e, 0, 1, [], None);
    assert DecodeFieldsFrom(schema, e, 0, 1, [], None) == DecodeFieldsFrom(schema, e, 0, 2, d1, Some("test"));
    assert DecodeFieldsFrom(schema, e, 0, 2, d1, Some("test")) == DecodeFieldsFrom(schema, e, 0, 3, d2, Some("test"));
    assert DecodeFieldsFrom(schema, e, 0, 0, [], None) == Ok(d2);
    assert ContentIndex(SameNameDef.fields) == Some(0);
    ContentFieldShape();
    assert DecodeContent(schema, e, 0, d2) == Ok(Dict.Put(d2, ContentField, RawText("")));
    SameNameBagPut();
  }
}
