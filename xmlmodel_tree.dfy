/**
 * Round trip of the v1 engine for XMLModels built of attributes, nested
 * XMLModels and lists of XMLModels: reading back the tree `to_xml` builds
 * gives every attribute its printed value, the content its text or its
 * items, and every nested record and list item the decoding of that
 * record's own tree.
 */
module XmlModelTree {
  import opened Wrappers
  import Dict
  import opened Xml
  import opened Py
  import opened XmlModel
  import opened XmlModelProps

  // ---------------------------------------------------------------- shape

  /** Field f holds one record of an XMLModel class: its `type_` is that class and it has no sub-fields. */
  predicate NestedField(schema: Schema, f: FieldDef)
  {
    var s := Analyze(f.outerType);
    f.name != ContentField && IsNested(s) && schema(s.type_.id).isXmlModel
  }

  /** Field f is `List[X]` for an XMLModel class X. */
  predicate ListField(schema: Schema, f: FieldDef)
  {
    var s := Analyze(f.outerType);
    f.name != ContentField && s.subFields.Some? && s.type_.Model? && ElementType(s).Model?
    && schema(ElementType(s).id).isXmlModel
  }

  /** The class of a record-typed field. */
  function FieldClass(f: FieldDef): ModelId
    requires Analyze(f.outerType).type_.Model?
  {
    Analyze(f.outerType).type_.id
  }

  /** The class of the items of a list-like field of records. */
  function ItemClass(f: FieldDef): ModelId
    requires Analyze(f.outerType).subFields.Some? && ElementType(Analyze(f.outerType)).Model?
  {
    ElementType(Analyze(f.outerType)).id
  }

  /** The tag of the children field f of a class writes: the nested class's or the items' element name; none for other fields. */
  function ChildTag(schema: Schema, d: ModelDef, i: nat): Option<string>
    requires i < |d.fields|
  {
    var f := d.fields[i];
    var s := Analyze(f.outerType);
    if f.name == ContentField then
      if s.subFields.Some? && ElementType(s).Model? then Some(ClassTag(schema(ElementType(s).id))) else None
    else if NestedField(schema, f) then Some(XmlName(schema(FieldClass(f))))
    else if ListField(schema, f) then Some(XmlName(schema(ItemClass(f))))
    else None
  }

  /** The key field f is read back under: its name for a nested record or a list, its alias otherwise. */
  function BagKey(schema: Schema, f: FieldDef): string
  {
    if NestedField(schema, f) || ListField(schema, f) then f.name else f.alias
  }

  /** Field f is the content, an attribute, one nested XMLModel or a list of XMLModels. */
  predicate TreeKind(schema: Schema, f: FieldDef)
  {
    f.name == ContentField || FlatField(f) || NestedField(schema, f) || ListField(schema, f)
  }

  /** Field f, holding x, is of a kind the encoder writes as FieldBlock says: a list field holds a list. */
  predicate Writable(schema: Schema, f: FieldDef, x: Value)
  {
    TreeKind(schema, f) && (ListField(schema, f) ==> x.Items?)
  }

  /**
   * An XMLModel whose fields are attributes (FlatField), nested XMLModels or
   * lists of XMLModels, whose content is text or a list of XMLModels, whose
   * field names, read-back keys and child tags are pairwise distinct, and
   * whose nested element names hold no "xmlns:".
   */
  predicate TreeModel(schema: Schema, d: ModelDef)
  {
    d.isXmlModel && ContentIndex(d.fields).Some?
    && (var s := Analyze(d.fields[ContentIndex(d.fields).value].outerType);
        s.subFields.Some? ==> ElementType(s).Model? && schema(ElementType(s).id).isXmlModel)
    && (forall i :: 0 <= i < |d.fields| ==> TreeKind(schema, d.fields[i]))
    && (forall i, j :: 0 <= i < j < |d.fields| ==> d.fields[i].name != d.fields[j].name)
    && (forall i, j :: 0 <= i < j < |d.fields| ==> BagKey(schema, d.fields[i]) != BagKey(schema, d.fields[j]))
    && (forall i, j :: 0 <= i < j < |d.fields| && ChildTag(schema, d, i).Some? ==> ChildTag(schema, d, i) != ChildTag(schema, d, j))
    && (forall i :: 0 <= i < |d.fields| && NestedField(schema, d.fields[i]) ==> !Contains(XmlName(schema(FieldClass(d.fields[i]))), "xmlns:"))
  }

  /** An instance of a TreeModel whose nested records and list items are of the declared classes and are such instances themselves. */
  predicate TreeValue(schema: Schema, v: Value)
    decreases v, 0
  {
    v.Record? && Conforms(schema, v) && TreeModel(schema, schema(v.model))
    && forall i :: 0 <= i < |v.fields| ==> TreeField(schema, schema(v.model).fields[i], v.fields[i])
  }

  /** The value x of field f: None only where the field allows it, and records of the declared class otherwise. */
  predicate TreeField(schema: Schema, f: FieldDef, x: Value)
    decreases x, 1
  {
    var s := Analyze(f.outerType);
    (NestedField(schema, f) ==>
       (x.PyNone? && s.allowNone) || (x.Record? && s.type_ == Model(x.model) && TreeValue(schema, x)))
    && (ListField(schema, f) || (f.name == ContentField && s.subFields.Some?) ==>
          (f.name == ContentField && x.PyNone?)
          || (x.Items? && forall j :: 0 <= j < |x.items| ==>
                x.items[j].Record? && ElementType(s) == Model(x.items[j].model) && TreeValue(schema, x.items[j])))
  }

  /** Every field of a tree value is writable. */
  lemma TreeValueWritable(schema: Schema, v: Value)
    requires TreeValue(schema, v)
    ensures forall j :: 0 <= j < |v.fields| ==> Writable(schema, schema(v.model).fields[j], v.fields[j])
  {
    forall j | 0 <= j < |v.fields|
      ensures Writable(schema, schema(v.model).fields[j], v.fields[j])
    {
      assert TreeKind(schema, schema(v.model).fields[j]);
      assert TreeField(schema, schema(v.model).fields[j], v.fields[j]);
    }
  }

  // ------------------------------------------------------------ sub-trees

  /** The tree `to_xml_innner` builds for a record under its own class tag. */
  function Tree(schema: Schema, o: ToXmlOptions, show: Value -> string, x: Value): Result<Element, Error>
  {
    if x.Record? && Conforms(schema, x) then EncodeInto(schema, o, show, Empty(ClassTag(schema(x.model))), x)
    else Err(NotAModel)
  }

  /** What `from_element` reads back from the tree of record x, as x's class. */
  function Back(schema: Schema, o: ToXmlOptions, show: Value -> string, x: Value): Result<Raw, Error>
  {
    if x.Record? then
      var t :- Tree(schema, o, show, x);
      DecodeElement(schema, t, x.model)
    else Err(NotAModel)
  }

  /** The trees of the records xs, in order; the first failure otherwise. */
  function Trees(schema: Schema, o: ToXmlOptions, show: Value -> string, xs: seq<Value>): Result<seq<Element>, Error>
    decreases |xs|
  {
    if xs == [] then Ok([])
    else
      var t :- Tree(schema, o, show, xs[0]);
      var ts :- Trees(schema, o, show, xs[1..]);
      Ok([t] + ts)
  }

  /** Trees succeeds exactly when every tree does, and then lists them in order. */
  lemma {:induction false} TreesValue(schema: Schema, o: ToXmlOptions, show: Value -> string, xs: seq<Value>)
    ensures Trees(schema, o, show, xs).Ok? <==> forall n :: 0 <= n < |xs| ==> Tree(schema, o, show, xs[n]).Ok?
    ensures Trees(schema, o, show, xs).Ok? ==>
      |Trees(schema, o, show, xs).value| == |xs|
      && forall n :: 0 <= n < |xs| ==> Tree(schema, o, show, xs[n]) == Ok(Trees(schema, o, show, xs).value[n])
    decreases |xs|
  {
    if xs != [] {
      TreesValue(schema, o, show, xs[1..]);
      assert forall n :: 1 <= n < |xs| ==> xs[1..][n - 1] == xs[n];
    }
  }

  /**
   * The item loop from item j on appends the items' trees, in order, so long
   * as a fixed tag is the items' own class tag.
   */
  lemma {:induction false} EncodeItemsTrees(schema: Schema, o: ToXmlOptions, show: Value -> string, el: Element, obj: Value, i: nat, tag: Option<string>, j: nat)
    requires obj.Record? && Conforms(schema, obj) && i < |obj.fields|
    requires obj.fields[i].Items? && j <= |obj.fields[i].items|
    requires tag.Some? ==> forall n :: j <= n < |obj.fields[i].items| && obj.fields[i].items[n].Record? ==>
      ClassTag(schema(obj.fields[i].items[n].model)) == tag.value
    ensures var ts := Trees(schema, o, show, obj.fields[i].items[j..]);
      EncodeItemsFrom(schema, o, show, el, obj, i, tag, j)
        == if ts.Ok? then Ok(el.(children := el.children + ts.value)) else Err(ts.error)
    decreases |obj.fields[i].items| - j
  {
    var xs := obj.fields[i].items;
    assert Conforms(schema, obj.fields[i]);
    if j == |xs| {
      assert xs[j..] == [];
      assert el.(children := el.children + []) == el;
    } else {
      assert xs[j..][0] == xs[j] && xs[j..][1..] == xs[j + 1..];
      assert Conforms(schema, xs[j]);
      if xs[j].Record? {
        var t := if tag.Some? then tag.value else ClassTag(schema(xs[j].model));
        assert EncodeInto(schema, o, show, Empty(t), xs[j]) == Tree(schema, o, show, xs[j]);
        var sub := Tree(schema, o, show, xs[j]);
        if sub.Ok? {
          var el' := el.(children := el.children + [sub.value]);
          EncodeItemsTrees(schema, o, show, el', obj, i, tag, j + 1);
          var ts := Trees(schema, o, show, xs[j + 1..]);
          if ts.Ok? {
            AppendAssoc(el.children, [sub.value], ts.value);
          }
        }
      }
    }
  }

  // ------------------------------------------------------------- encoder

  /** The children field i of obj appends: its record's tree, its items' trees, or none. */
  function FieldBlock(schema: Schema, o: ToXmlOptions, show: Value -> string, obj: Value, i: nat): Result<seq<Element>, Error>
    requires obj.Record? && Conforms(schema, obj) && i < |obj.fields|
  {
    var f := schema(obj.model).fields[i];
    var x := obj.fields[i];
    if NestedField(schema, f) then
      if x.PyNone? && Analyze(f.outerType).allowNone then Ok([])
      else
        var t :- Tree(schema, o, show, x);
        Ok([t])
    else if ListField(schema, f) && x.Items? then Trees(schema, o, show, x.items)
    else Ok([])
  }

  /** The attributes after field i: its alias set to its printed value when it is an attribute field. */
  function FieldAttrib(schema: Schema, o: ToXmlOptions, show: Value -> string, attrib: Dict.Dict<string>, obj: Value, i: nat): Dict.Dict<string>
    requires obj.Record? && Conforms(schema, obj) && i < |obj.fields|
  {
    if IsAttrField(schema, o, obj, i) then Dict.Put(attrib, schema(obj.model).fields[i].alias, show(obj.fields[i])) else attrib
  }

  /** One field of a tree model sets its attribute or appends its block of children, and fails exactly when its block does. */
  lemma EncodeFieldBlock(schema: Schema, o: ToXmlOptions, show: Value -> string, el: Element, obj: Value, i: nat)
    requires obj.Record? && Conforms(schema, obj) && i < |obj.fields|
    requires Writable(schema, schema(obj.model).fields[i], obj.fields[i])
    ensures var b := FieldBlock(schema, o, show, obj, i);
      EncodeField(schema, o, show, el, obj, i)
        == if b.Ok? then Ok(el.(children := el.children + b.value, attrib := FieldAttrib(schema, o, show, el.attrib, obj, i))) else Err(b.error)
  {
    var f := schema(obj.model).fields[i];
    var x := obj.fields[i];
    assert Conforms(schema, x);
    if ListField(schema, f) {
      EncodeItemsTrees(schema, o, show, el, obj, i, None, 0);
      assert x.items[0..] == x.items;
    } else {
      assert el.(children := el.children + []) == el;
    }
  }

  /** The block of every field of obj, in field order. */
  function FieldBlocks(schema: Schema, o: ToXmlOptions, show: Value -> string, obj: Value): seq<Result<seq<Element>, Error>>
    requires obj.Record? && Conforms(schema, obj)
  {
    seq(|obj.fields|, j requires 0 <= j < |obj.fields| => FieldBlock(schema, o, show, obj, j))
  }

  /** The blocks rs laid end to end; the first failure otherwise. */
  function Joined(rs: seq<Result<seq<Element>, Error>>): Result<seq<Element>, Error>
  {
    if rs == [] then Ok([])
    else
      var b :- rs[0];
      var bs :- Joined(rs[1..]);
      Ok(b + bs)
  }

  /** The children the fields from k on append, in field order; the first failure otherwise. */
  function Blocks(schema: Schema, o: ToXmlOptions, show: Value -> string, obj: Value, k: nat): Result<seq<Element>, Error>
    requires obj.Record? && Conforms(schema, obj) && k <= |obj.fields|
  {
    Joined(FieldBlocks(schema, o, show, obj)[k..])
  }

  /** Joining from k on takes block k, then joins from k + 1 on. */
  lemma JoinedFrom(rs: seq<Result<seq<Element>, Error>>, k: nat)
    requires k < |rs|
    ensures Joined(rs[k..]) == (var b :- rs[k]; var bs :- Joined(rs[k + 1..]); Ok(b + bs))
  {
    assert rs[k..][0] == rs[k] && rs[k..][1..] == rs[k + 1..];
  }

  /** Blocks that all encode join. */
  lemma {:induction false} JoinedOk(rs: seq<Result<seq<Element>, Error>>)
    requires forall j :: 0 <= j < |rs| ==> rs[j].Ok?
    ensures Joined(rs).Ok?
  {
    if rs != [] {
      JoinedOk(rs[1..]);
    }
  }

  /** The field loop of a tree model from field k on, when the blocks encode, appends them behind the children already there. */
  lemma {:induction false} EncodeFieldsBlocks(schema: Schema, o: ToXmlOptions, show: Value -> string, el: Element, obj: Value, k: nat)
    requires obj.Record? && Conforms(schema, obj) && k <= |obj.fields|
    requires forall j :: k <= j < |obj.fields| ==> Writable(schema, schema(obj.model).fields[j], obj.fields[j])
    requires Blocks(schema, o, show, obj, k).Ok?
    ensures EncodeFieldsFrom(schema, o, show, el, obj, k).Ok?
    ensures var r := EncodeFieldsFrom(schema, o, show, el, obj, k).value;
      r.tag == el.tag && r.text == el.text && r.children == el.children + Blocks(schema, o, show, obj, k).value
    decreases |obj.fields| - k
  {
    if k < |obj.fields| {
      EncodeFieldBlock(schema, o, show, el, obj, k);
      var b := FieldBlock(schema, o, show, obj, k).value;
      var el' := el.(children := el.children + b, attrib := FieldAttrib(schema, o, show, el.attrib, obj, k));
      assert EncodeFieldsFrom(schema, o, show, el, obj, k) == EncodeFieldsFrom(schema, o, show, el', obj, k + 1);
      EncodeFieldsBlocks(schema, o, show, el', obj, k + 1);
      JoinedFrom(FieldBlocks(schema, o, show, obj), k);
      var bs := Blocks(schema, o, show, obj, k + 1).value;
      AppendAssoc(el.children, b, bs);
    } else {
      assert el.children + [] == el.children;
    }
  }

  /** The children the content appends: its items' trees for a list content that is set, none otherwise. */
  function ContentBlock(schema: Schema, o: ToXmlOptions, show: Value -> string, obj: Value): Result<seq<Element>, Error>
    requires obj.Record? && Conforms(schema, obj) && ContentIndex(schema(obj.model).fields).Some?
  {
    var c := ContentIndex(schema(obj.model).fields).value;
    var x := obj.fields[c];
    if Analyze(schema(obj.model).fields[c].outerType).subFields.Some? && x.Items? then Trees(schema, o, show, x.items)
    else Ok([])
  }

  /** The content step of a tree value appends the content's block, and sets the text only for a text content that is set. */
  lemma EncodeContentBlock(schema: Schema, o: ToXmlOptions, show: Value -> string, el: Element, obj: Value)
    requires TreeValue(schema, obj)
    ensures ContentIndex(schema(obj.model).fields).Some?
    ensures EncodeContent(schema, o, show, el, obj).Ok? <==> ContentBlock(schema, o, show, obj).Ok?
    ensures ContentBlock(schema, o, show, obj).Ok? ==>
      var r := EncodeContent(schema, o, show, el, obj).value;
      r.tag == el.tag && r.attrib == el.attrib
      && r.text == (if HasText(schema, obj) then Some(show(obj.fields[ContentIndex(schema(obj.model).fields).value])) else el.text)
      && r.children == el.children + ContentBlock(schema, o, show, obj).value
  {
    var d := schema(obj.model);
    var c := ContentIndex(d.fields).value;
    var x := obj.fields[c];
    var s := Analyze(d.fields[c].outerType);
    assert TreeField(schema, d.fields[c], x);
    if s.subFields.Some? && x.Items? {
      var tag := ClassTag(schema(ElementType(s).id));
      EncodeItemsTrees(schema, o, show, el, obj, c, Some(tag), 0);
      assert x.items[0..] == x.items;
    } else {
      assert el.children + [] == el.children;
    }
  }

  /** One field sets the attributes as FieldAttrib says. */
  lemma EncodeFieldAttrib(schema: Schema, o: ToXmlOptions, show: Value -> string, el: Element, obj: Value, k: nat)
    requires obj.Record? && Conforms(schema, obj) && k < |obj.fields|
    requires EncodeField(schema, o, show, el, obj, k).Ok?
    ensures EncodeField(schema, o, show, el, obj, k).value.attrib == FieldAttrib(schema, o, show, el.attrib, obj, k)
  {
    EncodeFieldFrame(schema, o, show, el, obj, k);
  }

  /** The field loop from k on leaves alone an attribute that no attribute field from k on is aliased to... */
  lemma {:induction false} EncodeAttrKeeps(schema: Schema, o: ToXmlOptions, show: Value -> string, el: Element, obj: Value, k: nat, key: string)
    requires obj.Record? && Conforms(schema, obj) && k <= |obj.fields|
    requires EncodeFieldsFrom(schema, o, show, el, obj, k).Ok?
    requires forall j :: k <= j < |obj.fields| && IsAttrField(schema, o, obj, j) ==> schema(obj.model).fields[j].alias != key
    ensures Dict.Get(EncodeFieldsFrom(schema, o, show, el, obj, k).value.attrib, key) == Dict.Get(el.attrib, key)
    decreases |obj.fields| - k
  {
    if k < |obj.fields| {
      EncodeFieldsFrom1(schema, o, show, el, obj, k);
      EncodeFieldAttrib(schema, o, show, el, obj, k);
      var el' := EncodeField(schema, o, show, el, obj, k).value;
      EncodeAttrKeeps(schema, o, show, el', obj, k + 1, key);
      assert Dict.Get(el'.attrib, key) == Dict.Get(el.attrib, key);
    }
  }

  /** ...and writes field i's printed value under its alias when it is an attribute field that no other attribute field shares an alias with. */
  lemma {:induction false} EncodeAttrGet(schema: Schema, o: ToXmlOptions, show: Value -> string, el: Element, obj: Value, k: nat, i: nat)
    requires obj.Record? && Conforms(schema, obj) && k <= i < |obj.fields|
    requires forall j :: k <= j < |obj.fields| && j != i && IsAttrField(schema, o, obj, j) ==>
      schema(obj.model).fields[j].alias != schema(obj.model).fields[i].alias
    requires EncodeFieldsFrom(schema, o, show, el, obj, k).Ok?
    ensures var a := schema(obj.model).fields[i].alias;
      Dict.Get(EncodeFieldsFrom(schema, o, show, el, obj, k).value.attrib, a)
        == if IsAttrField(schema, o, obj, i) then Some(show(obj.fields[i])) else Dict.Get(el.attrib, a)
    decreases i - k
  {
    var a := schema(obj.model).fields[i].alias;
    EncodeFieldsFrom1(schema, o, show, el, obj, k);
    EncodeFieldAttrib(schema, o, show, el, obj, k);
    var el' := EncodeField(schema, o, show, el, obj, k).value;
    var r := EncodeFieldsFrom(schema, o, show, el', obj, k + 1).value;
    if k < i {
      EncodeAttrGet(schema, o, show, el', obj, k + 1, i);
      assert Dict.Get(el'.attrib, a) == Dict.Get(el.attrib, a);
    } else {
      EncodeAttrKeeps(schema, o, show, el', obj, k + 1, a);
      assert Dict.Get(r.attrib, a) == Dict.Get(el'.attrib, a);
    }
  }

  // ---------------------------------------------------------------- tags

  /** Selecting by tag among elements that all carry tag t: all of them when t is the tag asked for, none otherwise. */
  lemma {:induction false} TaggedUniform(cs: seq<Element>, t: string, name: string)
    requires forall n :: 0 <= n < |cs| ==> cs[n].tag == t
    ensures Tagged(cs, name) == if t == name then cs else []
  {
    if cs != [] {
      TaggedUniform(cs[1..], t, name);
      assert cs == [cs[0]] + cs[1..];
    }
  }

  /** The trees of records of class c all carry c's tag. */
  lemma TreesTags(schema: Schema, o: ToXmlOptions, show: Value -> string, xs: seq<Value>, c: ModelId)
    requires forall n :: 0 <= n < |xs| ==> xs[n].Record? && xs[n].model == c
    requires Trees(schema, o, show, xs).Ok?
    ensures forall n :: 0 <= n < |Trees(schema, o, show, xs).value| ==> Trees(schema, o, show, xs).value[n].tag == ClassTag(schema(c))
  {
    TreesValue(schema, o, show, xs);
    forall n | 0 <= n < |xs|
      ensures Trees(schema, o, show, xs).value[n].tag == ClassTag(schema(c))
    {
      EncodeKeepsTag(schema, o, show, Empty(ClassTag(schema(c))), xs[n]);
    }
  }

  /** Field i's block is exactly what selecting its child tag finds in it, and no other tag finds anything there. */
  lemma FieldBlockTagged(schema: Schema, o: ToXmlOptions, show: Value -> string, obj: Value, i: nat, name: string)
    requires TreeValue(schema, obj) && i < |obj.fields|
    requires FieldBlock(schema, o, show, obj, i).Ok?
    ensures var d := schema(obj.model);
      Tagged(FieldBlock(schema, o, show, obj, i).value, name)
        == if d.fields[i].name != ContentField && ChildTag(schema, d, i) == Some(name) then FieldBlock(schema, o, show, obj, i).value else []
  {
    var d := schema(obj.model);
    var f := d.fields[i];
    var x := obj.fields[i];
    var b := FieldBlock(schema, o, show, obj, i).value;
    assert TreeField(schema, f, x);
    if NestedField(schema, f) && !(x.PyNone? && Analyze(f.outerType).allowNone) {
      EncodeKeepsTag(schema, o, show, Empty(ClassTag(schema(x.model))), x);
      TaggedUniform(b, XmlName(schema(FieldClass(f))), name);
    } else if ListField(schema, f) && x.Items? {
      TreesTags(schema, o, show, x.items, ItemClass(f));
      TaggedUniform(b, XmlName(schema(ItemClass(f))), name);
    }
  }

  /** The content's block is exactly what selecting the content's element tag finds in it. */
  lemma ContentBlockTagged(schema: Schema, o: ToXmlOptions, show: Value -> string, obj: Value, name: string)
    requires TreeValue(schema, obj)
    requires ContentBlock(schema, o, show, obj).Ok?
    ensures var d := schema(obj.model);
      Tagged(ContentBlock(schema, o, show, obj).value, name)
        == if ChildTag(schema, d, ContentIndex(d.fields).value) == Some(name) then ContentBlock(schema, o, show, obj).value else []
  {
    var d := schema(obj.model);
    var c := ContentIndex(d.fields).value;
    var x := obj.fields[c];
    var s := Analyze(d.fields[c].outerType);
    assert TreeField(schema, d.fields[c], x);
    if s.subFields.Some? && x.Items? {
      TreesTags(schema, o, show, x.items, ElementType(s).id);
      TaggedUniform(ContentBlock(schema, o, show, obj).value, ClassTag(schema(ElementType(s).id)), name);
    }
  }

  /** Two fields of a tree model with child tags have different ones. */
  lemma ChildTagsDistinct(schema: Schema, d: ModelDef, i: nat, j: nat)
    requires TreeModel(schema, d) && i < |d.fields| && j < |d.fields| && i != j
    requires ChildTag(schema, d, i).Some?
    ensures ChildTag(schema, d, j) != ChildTag(schema, d, i)
  {
    if j < i {
      if ChildTag(schema, d, j).Some? {
        assert ChildTag(schema, d, j) != ChildTag(schema, d, i);
      }
    }
  }

  /** When only block i (if any) holds children tagged `name`, and all of its children are, selecting `name` in the joined blocks finds block i. */
  lemma {:induction false} TaggedJoined(rs: seq<Result<seq<Element>, Error>>, name: string, i: int)
    requires Joined(rs).Ok?
    requires forall j :: 0 <= j < |rs| && rs[j].Ok? ==> Tagged(rs[j].value, name) == if j == i then rs[j].value else []
    ensures 0 <= i < |rs| ==> rs[i].Ok?
    ensures Tagged(Joined(rs).value, name) == if 0 <= i < |rs| then rs[i].value else []
    decreases |rs|
  {
    if rs != [] {
      var rest := rs[1..];
      forall j | 0 <= j < |rest| && rest[j].Ok?
        ensures Tagged(rest[j].value, name) == if j == i - 1 then rest[j].value else []
      {
        assert rest[j] == rs[j + 1];
      }
      TaggedJoined(rest, name, i - 1);
      TaggedAppend(rs[0].value, Joined(rest).value, name);
      if i == 0 {
        assert rs[0].value + [] == rs[0].value;
      }
    }
  }

  // ----------------------------------------------------------- the tree

  /** The nested record or the list or content items x of field f read back from their own trees. */
  predicate SubBack(schema: Schema, o: ToXmlOptions, show: Value -> string, f: FieldDef, x: Value)
  {
    (NestedField(schema, f) && x.Record? ==> Back(schema, o, show, x).Ok?)
    && ((ListField(schema, f) || (f.name == ContentField && Analyze(f.outerType).subFields.Some?)) && x.Items? ==>
          forall j :: 0 <= j < |x.items| ==> Back(schema, o, show, x.items[j]).Ok?)
  }

  /** Every field of v has SubBack. */
  predicate SubsBack(schema: Schema, o: ToXmlOptions, show: Value -> string, v: Value)
    requires v.Record? && Conforms(schema, v)
  {
    forall i :: 0 <= i < |v.fields| ==> SubBack(schema, o, show, schema(v.model).fields[i], v.fields[i])
  }

  /** When its sub-records read back, a field's block encodes... */
  lemma FieldBlockOk(schema: Schema, o: ToXmlOptions, show: Value -> string, v: Value, j: nat)
    requires v.Record? && Conforms(schema, v) && j < |v.fields|
    requires TreeField(schema, schema(v.model).fields[j], v.fields[j]) && SubBack(schema, o, show, schema(v.model).fields[j], v.fields[j])
    ensures FieldBlock(schema, o, show, v, j).Ok?
  {
    var f := schema(v.model).fields[j];
    var x := v.fields[j];
    if ListField(schema, f) {
      TreesValue(schema, o, show, x.items);
    }
  }

  /** ...so the blocks of a tree value whose sub-records read back all encode and join... */
  lemma AllBlocksOk(schema: Schema, o: ToXmlOptions, show: Value -> string, v: Value)
    requires TreeValue(schema, v) && SubsBack(schema, o, show, v)
    ensures Blocks(schema, o, show, v, 0).Ok?
  {
    forall j | 0 <= j < |v.fields|
      ensures FieldBlock(schema, o, show, v, j).Ok?
    {
      FieldBlockOk(schema, o, show, v, j);
    }
    var rs := FieldBlocks(schema, o, show, v);
    assert rs[0..] == rs;
    JoinedOk(rs);
  }

  /** ...and the content's block. */
  lemma ContentBlockOk(schema: Schema, o: ToXmlOptions, show: Value -> string, v: Value)
    requires TreeValue(schema, v) && SubsBack(schema, o, show, v)
    ensures ContentIndex(schema(v.model).fields).Some?
    ensures ContentBlock(schema, o, show, v).Ok?
  {
    var c := ContentIndex(schema(v.model).fields).value;
    var x := v.fields[c];
    if Analyze(schema(v.model).fields[c].outerType).subFields.Some? && x.Items? {
      TreesValue(schema, o, show, x.items);
    }
  }

  /** `to_xml_innner` on a tree value appends the fields' blocks in field order, then the content's block, and sets the text of a text content that is set. */
  lemma EncodeIntoBlocks(schema: Schema, o: ToXmlOptions, show: Value -> string, el: Element, v: Value)
    requires TreeValue(schema, v)
    requires Blocks(schema, o, show, v, 0).Ok? && ContentBlock(schema, o, show, v).Ok?
    ensures EncodeInto(schema, o, show, el, v).Ok?
    ensures var t := EncodeInto(schema, o, show, el, v).value;
      t.children == el.children + Blocks(schema, o, show, v, 0).value + ContentBlock(schema, o, show, v).value
      && t.text == (if HasText(schema, v) then Some(show(v.fields[ContentIndex(schema(v.model).fields).value])) else el.text)
  {
    TreeValueWritable(schema, v);
    EncodeFieldsBlocks(schema, o, show, el, v, 0);
    var mid := EncodeFieldsFrom(schema, o, show, el, v, 0).value;
    EncodeContentBlock(schema, o, show, mid, v);
  }

  /** The tree of a tree value whose blocks encode: the fields' blocks, then the content's... */
  lemma TreeIsBlocks(schema: Schema, o: ToXmlOptions, show: Value -> string, v: Value)
    requires TreeValue(schema, v)
    requires Blocks(schema, o, show, v, 0).Ok? && ContentBlock(schema, o, show, v).Ok?
    ensures Tree(schema, o, show, v).Ok?
    ensures var t := Tree(schema, o, show, v).value;
      t.children == Blocks(schema, o, show, v, 0).value + ContentBlock(schema, o, show, v).value
      && t.text == (if HasText(schema, v) then Some(show(v.fields[ContentIndex(schema(v.model).fields).value])) else None)
  {
    var root := Empty(ClassTag(schema(v.model)));
    EncodeIntoBlocks(schema, o, show, root, v);
    assert root.children + Blocks(schema, o, show, v, 0).value == Blocks(schema, o, show, v, 0).value;
  }

  /** ...and they do when the sub-records read back. */
  lemma TreeBlocks(schema: Schema, o: ToXmlOptions, show: Value -> string, v: Value)
    requires TreeValue(schema, v) && SubsBack(schema, o, show, v)
    ensures Tree(schema, o, show, v).Ok? && Blocks(schema, o, show, v, 0).Ok? && ContentBlock(schema, o, show, v).Ok?
    ensures var t := Tree(schema, o, show, v).value;
      t.children == Blocks(schema, o, show, v, 0).value + ContentBlock(schema, o, show, v).value
      && t.text == (if HasText(schema, v) then Some(show(v.fields[ContentIndex(schema(v.model).fields).value])) else None)
  {
    AllBlocksOk(schema, o, show, v);
    ContentBlockOk(schema, o, show, v);
    TreeIsBlocks(schema, o, show, v);
  }

  /** In that tree, the content's element tag selects exactly the content's block... */
  lemma TreeContentChildren(schema: Schema, o: ToXmlOptions, show: Value -> string, v: Value)
    requires TreeValue(schema, v) && SubsBack(schema, o, show, v)
    requires ChildTag(schema, schema(v.model), ContentIndex(schema(v.model).fields).value).Some?
    ensures Tree(schema, o, show, v).Ok? && ContentBlock(schema, o, show, v).Ok?
    ensures FindAll(Tree(schema, o, show, v).value, ChildTag(schema, schema(v.model), ContentIndex(schema(v.model).fields).value).value)
      == ContentBlock(schema, o, show, v).value
  {
    var d := schema(v.model);
    var c := ContentIndex(d.fields).value;
    var name := ChildTag(schema, d, c).value;
    TreeBlocks(schema, o, show, v);
    var rs := FieldBlocks(schema, o, show, v);
    assert rs[0..] == rs;
    forall j | 0 <= j < |rs| && rs[j].Ok?
      ensures Tagged(rs[j].value, name) == []
    {
      FieldBlockTagged(schema, o, show, v, j, name);
      if j != c {
        ChildTagsDistinct(schema, d, c, j);
      }
    }
    TaggedJoined(rs, name, -1);
    ContentBlockTagged(schema, o, show, v, name);
    TaggedAppend(Blocks(schema, o, show, v, 0).value, ContentBlock(schema, o, show, v).value, name);
  }

  /** ...and a field's child tag selects exactly that field's block. */
  lemma TreeFieldChildren(schema: Schema, o: ToXmlOptions, show: Value -> string, v: Value, i: nat)
    requires TreeValue(schema, v) && SubsBack(schema, o, show, v) && i < |v.fields|
    requires schema(v.model).fields[i].name != ContentField && ChildTag(schema, schema(v.model), i).Some?
    ensures Tree(schema, o, show, v).Ok? && FieldBlock(schema, o, show, v, i).Ok?
    ensures FindAll(Tree(schema, o, show, v).value, ChildTag(schema, schema(v.model), i).value) == FieldBlock(schema, o, show, v, i).value
  {
    var d := schema(v.model);
    var name := ChildTag(schema, d, i).value;
    TreeBlocks(schema, o, show, v);
    assert i != ContentIndex(d.fields).value;
    var rs := FieldBlocks(schema, o, show, v);
    assert rs[0..] == rs;
    forall j | 0 <= j < |rs| && rs[j].Ok?
      ensures Tagged(rs[j].value, name) == if j == i then rs[j].value else []
    {
      FieldBlockTagged(schema, o, show, v, j, name);
      if j != i {
        ChildTagsDistinct(schema, d, i, j);
      }
    }
    TaggedJoined(rs, name, i);
    ContentBlockTagged(schema, o, show, v, name);
    TaggedAppend(Blocks(schema, o, show, v, 0).value, ContentBlock(schema, o, show, v).value, name);
  }

  /** The attribute of an attribute field of a tree value is its printed value, unless `exclude_none` dropped a None. */
  lemma TreeAttrib(schema: Schema, o: ToXmlOptions, show: Value -> string, v: Value, i: nat)
    requires TreeValue(schema, v) && i < |v.fields|
    requires schema(v.model).fields[i].name != ContentField && FlatField(schema(v.model).fields[i])
    requires Tree(schema, o, show, v).Ok?
    ensures Dict.Get(Tree(schema, o, show, v).value.attrib, schema(v.model).fields[i].alias)
      == if o.excludeNone && v.fields[i].PyNone? then None else Some(show(v.fields[i]))
  {
    var fs := schema(v.model).fields;
    var root := Empty(ClassTag(schema(v.model)));
    var mid := EncodeFieldsFrom(schema, o, show, root, v, 0).value;
    assert BagKey(schema, fs[i]) == fs[i].alias;
    forall j | 0 <= j < |v.fields| && j != i && IsAttrField(schema, o, v, j)
      ensures fs[j].alias != fs[i].alias
    {
      assert BagKey(schema, fs[j]) == fs[j].alias;
    }
    EncodeAttrGet(schema, o, show, root, v, 0, i);
    EncodeContentFrame(schema, o, show, mid, v);
  }

  // ------------------------------------------------------------- decoder

  /**
   * What the pass of field f of a tree model leaves under its key, given
   * what the key held: the first child tagged with the nested class's
   * element name, decoded; the decodings of every child tagged with the
   * items' element name; or the attribute under the alias when there is one.
   */
  function ReadField(schema: Schema, e: Element, f: FieldDef, before: Option<Raw>): Option<Raw>
  {
    if NestedField(schema, f) then
      var subs := FindAll(e, XmlName(schema(FieldClass(f))));
      if subs == [] then before
      else
        var r := DecodeElement(schema, subs[0], FieldClass(f));
        if r.Ok? then Some(r.value) else before
    else if ListField(schema, f) then
      var r := DecodeAllFrom(schema, e, XmlName(schema(ItemClass(f))), ItemClass(f), 0, []);
      if r.Ok? then Some(RawList(r.value)) else before
    else if f.alias in Dict.Keys(e.attrib) then Some(RawText(Dict.Get(e.attrib, f.alias).value))
    else before
  }

  /** The children field f reads from e decode as the field's class. */
  predicate SubsDecode(schema: Schema, e: Element, f: FieldDef)
  {
    (NestedField(schema, f) ==>
       var subs := FindAll(e, XmlName(schema(FieldClass(f))));
       subs != [] ==> DecodeElement(schema, subs[0], FieldClass(f)).Ok?)
    && (ListField(schema, f) ==>
          var subs := FindAll(e, XmlName(schema(ItemClass(f))));
          forall n :: 0 <= n < |subs| ==> DecodeElement(schema, subs[n], ItemClass(f)).Ok?)
  }

  /** One pass of the decoder's field loop over a tree model: it succeeds, sets the field's key as ReadField says, and touches no other key. */
  lemma DecodeTreeField(schema: Schema, e: Element, m: ModelId, k: nat, data: Dict.Dict<Raw>, xmlName: Option<string>)
    requires TreeModel(schema, schema(m)) && k < |schema(m).fields|
    requires SubsDecode(schema, e, schema(m).fields[k])
    ensures DecodeField(schema, e, m, k, data, xmlName).Ok?
    ensures var f := schema(m).fields[k];
      var r := DecodeField(schema, e, m, k, data, xmlName).value.0;
      (f.name != ContentField ==> Dict.Get(r, BagKey(schema, f)) == ReadField(schema, e, f, Dict.Get(data, BagKey(schema, f))))
      && forall key :: f.name == ContentField || key != BagKey(schema, f) ==> Dict.Get(r, key) == Dict.Get(data, key)
  {
    var f := schema(m).fields[k];
    if f.name != ContentField {
      if NestedField(schema, f) {
        DecodeNestedField(schema, e, m, k, data, xmlName);
      } else if ListField(schema, f) {
        var name := XmlName(schema(ItemClass(f)));
        assert LookupName(schema, f, xmlName) == Ok(Some(name));
        DecodeListField(schema, e, m, k, data, xmlName, name);
      } else {
        assert FlatField(f);
        DecodeScalarField(schema, e, m, k, data, xmlName);
      }
    }
  }

  /** The decoder's field loop over a tree model from k on succeeds when every field's children decode... */
  lemma {:induction false} DecodeTreeOk(schema: Schema, e: Element, m: ModelId, k: nat, data: Dict.Dict<Raw>, xmlName: Option<string>)
    requires TreeModel(schema, schema(m)) && k <= |schema(m).fields|
    requires forall j :: k <= j < |schema(m).fields| ==> SubsDecode(schema, e, schema(m).fields[j])
    ensures DecodeFieldsFrom(schema, e, m, k, data, xmlName).Ok?
    decreases |schema(m).fields| - k
  {
    if k < |schema(m).fields| {
      DecodeTreeField(schema, e, m, k, data, xmlName);
      var step := DecodeField(schema, e, m, k, data, xmlName).value;
      DecodeFieldsFrom1(schema, e, m, k, data, xmlName);
      DecodeTreeOk(schema, e, m, k + 1, step.0, step.1);
    }
  }

  /** ...leaves alone a key that no field from k on reads into... */
  lemma {:induction false} DecodeTreeKeeps(schema: Schema, e: Element, m: ModelId, k: nat, data: Dict.Dict<Raw>, xmlName: Option<string>, key: string)
    requires TreeModel(schema, schema(m)) && k <= |schema(m).fields|
    requires forall j :: k <= j < |schema(m).fields| ==> SubsDecode(schema, e, schema(m).fields[j])
    requires forall j :: k <= j < |schema(m).fields| && schema(m).fields[j].name != ContentField ==> BagKey(schema, schema(m).fields[j]) != key
    ensures DecodeFieldsFrom(schema, e, m, k, data, xmlName).Ok?
    ensures Dict.Get(DecodeFieldsFrom(schema, e, m, k, data, xmlName).value, key) == Dict.Get(data, key)
    decreases |schema(m).fields| - k
  {
    DecodeTreeOk(schema, e, m, k, data, xmlName);
    if k < |schema(m).fields| {
      DecodeTreeField(schema, e, m, k, data, xmlName);
      var step := DecodeField(schema, e, m, k, data, xmlName).value;
      DecodeFieldsFrom1(schema, e, m, k, data, xmlName);
      DecodeTreeKeeps(schema, e, m, k + 1, step.0, step.1, key);
    }
  }

  /** ...and leaves under field i's key what field i's pass read. */
  lemma {:induction false} DecodeTreeGet(schema: Schema, e: Element, m: ModelId, k: nat, data: Dict.Dict<Raw>, xmlName: Option<string>, i: nat)
    requires TreeModel(schema, schema(m)) && k <= i < |schema(m).fields| && schema(m).fields[i].name != ContentField
    requires forall j :: k <= j < |schema(m).fields| ==> SubsDecode(schema, e, schema(m).fields[j])
    ensures DecodeFieldsFrom(schema, e, m, k, data, xmlName).Ok?
    ensures var key := BagKey(schema, schema(m).fields[i]);
      Dict.Get(DecodeFieldsFrom(schema, e, m, k, data, xmlName).value, key) == ReadField(schema, e, schema(m).fields[i], Dict.Get(data, key))
    decreases i - k
  {
    var fs := schema(m).fields;
    var key := BagKey(schema, fs[i]);
    DecodeTreeOk(schema, e, m, k, data, xmlName);
    DecodeTreeField(schema, e, m, k, data, xmlName);
    var step := DecodeField(schema, e, m, k, data, xmlName).value;
    DecodeFieldsFrom1(schema, e, m, k, data, xmlName);
    if k < i {
      assert BagKey(schema, fs[k]) != key;
      DecodeTreeGet(schema, e, m, k + 1, step.0, step.1, i);
    } else {
      DecodeTreeKeeps(schema, e, m, k + 1, step.0, step.1, key);
    }
  }

  // ---------------------------------------------------------- round trip

  /** Each of the items x is a record whose tree reads back as the matching entry of the list under the key. */
  predicate ItemsBack(schema: Schema, o: ToXmlOptions, show: Value -> string, x: Value, got: Option<Raw>)
  {
    x.Items? && got.Some? && got.value.RawList? && |got.value.items| == |x.items|
    && forall j :: 0 <= j < |x.items| ==> Back(schema, o, show, x.items[j]) == Ok(got.value.items[j])
  }

  /**
   * What the key of field f holds after reading back a tree value whose
   * field f is x: a text content as its printed value ("" for None), a list
   * content or a list field as one decoding per item, a nested record as
   * the decoding of its own tree (nothing for None), and an attribute as its
   * printed value unless `exclude_none` dropped a None.
   */
  predicate FieldBack(schema: Schema, o: ToXmlOptions, show: Value -> string, f: FieldDef, x: Value, got: Option<Raw>)
  {
    if f.name == ContentField then
      if Analyze(f.outerType).subFields.None? then got == Some(RawText(if x.PyNone? then "" else show(x)))
      else if x.PyNone? then got == Some(RawList([]))
      else ItemsBack(schema, o, show, x, got)
    else if NestedField(schema, f) then
      if x.PyNone? then got == None else Back(schema, o, show, x).Ok? && got == Some(Back(schema, o, show, x).value)
    else if ListField(schema, f) then ItemsBack(schema, o, show, x, got)
    else got == if o.excludeNone && x.PyNone? then None else Some(RawText(show(x)))
  }

  /** Decoding the tree of record x as x's class is reading x back. */
  lemma TreeDecodesBack(schema: Schema, o: ToXmlOptions, show: Value -> string, x: Value, t: Element)
    requires x.Record? && Tree(schema, o, show, x) == Ok(t)
    ensures DecodeElement(schema, t, x.model) == Back(schema, o, show, x)
  {
  }

  /** Children that are the trees of records of class c, each reading back, decode as c one by one, in order. */
  lemma DecodeTreesBack(schema: Schema, o: ToXmlOptions, show: Value -> string, t: Element, name: string, c: ModelId, xs: seq<Value>)
    requires Trees(schema, o, show, xs).Ok? && FindAll(t, name) == Trees(schema, o, show, xs).value
    requires forall n :: 0 <= n < |xs| ==> xs[n].Record? && xs[n].model == c && Back(schema, o, show, xs[n]).Ok?
    ensures DecodeAllFrom(schema, t, name, c, 0, []).Ok?
    ensures ItemsBack(schema, o, show, Items(xs), Some(RawList(DecodeAllFrom(schema, t, name, c, 0, []).value)))
  {
    var subs := FindAll(t, name);
    TreesValue(schema, o, show, xs);
    forall n | 0 <= n < |subs|
      ensures DecodeElement(schema, subs[n], c) == Back(schema, o, show, xs[n])
    {
      TreeDecodesBack(schema, o, show, xs[n], subs[n]);
    }
    DecodeAllOk(schema, t, name, c, 0, []);
    var r := DecodeAllFrom(schema, t, name, c, 0, []).value;
    DecodeAllValue(schema, t, name, c, 0, [], r);
  }

  /** In the tree of a tree value whose sub-records read back, the child a nested field reads decodes as the field's class... */
  lemma SubDecodeNested(schema: Schema, o: ToXmlOptions, show: Value -> string, v: Value, j: nat)
    requires TreeValue(schema, v) && SubsBack(schema, o, show, v) && j < |v.fields|
    requires NestedField(schema, schema(v.model).fields[j])
    ensures Tree(schema, o, show, v).Ok?
    ensures SubsDecode(schema, Tree(schema, o, show, v).value, schema(v.model).fields[j])
  {
    var f := schema(v.model).fields[j];
    assert TreeField(schema, f, v.fields[j]);
    assert SubBack(schema, o, show, f, v.fields[j]);
    TreeFieldChildren(schema, o, show, v, j);
  }

  /** ...and so do the children a list field reads... */
  lemma SubDecodeList(schema: Schema, o: ToXmlOptions, show: Value -> string, v: Value, j: nat)
    requires TreeValue(schema, v) && SubsBack(schema, o, show, v) && j < |v.fields|
    requires ListField(schema, schema(v.model).fields[j])
    ensures Tree(schema, o, show, v).Ok?
    ensures SubsDecode(schema, Tree(schema, o, show, v).value, schema(v.model).fields[j])
  {
    var f := schema(v.model).fields[j];
    var x := v.fields[j];
    assert TreeField(schema, f, x);
    assert SubBack(schema, o, show, f, x);
    TreeFieldChildren(schema, o, show, v, j);
    var t := Tree(schema, o, show, v).value;
    var c := ItemClass(f);
    DecodeTreesBack(schema, o, show, t, XmlName(schema(c)), c, x.items);
    DecodeAllOk(schema, t, XmlName(schema(c)), c, 0, []);
  }

  /** ...so every field's children decode. */
  lemma SubDecodeAt(schema: Schema, o: ToXmlOptions, show: Value -> string, v: Value, j: nat)
    requires TreeValue(schema, v) && SubsBack(schema, o, show, v) && j < |v.fields|
    ensures Tree(schema, o, show, v).Ok?
    ensures SubsDecode(schema, Tree(schema, o, show, v).value, schema(v.model).fields[j])
  {
    TreeBlocks(schema, o, show, v);
    var f := schema(v.model).fields[j];
    if NestedField(schema, f) {
      SubDecodeNested(schema, o, show, v, j);
    } else if ListField(schema, f) {
      SubDecodeList(schema, o, show, v, j);
    }
  }

  /** ...for every field at once. */
  lemma TreeSubsDecode(schema: Schema, o: ToXmlOptions, show: Value -> string, v: Value)
    requires TreeValue(schema, v) && SubsBack(schema, o, show, v)
    ensures Tree(schema, o, show, v).Ok?
    ensures forall j :: 0 <= j < |v.fields| ==> SubsDecode(schema, Tree(schema, o, show, v).value, schema(v.model).fields[j])
  {
    TreeBlocks(schema, o, show, v);
    forall j | 0 <= j < |v.fields|
      ensures SubsDecode(schema, Tree(schema, o, show, v).value, schema(v.model).fields[j])
    {
      SubDecodeAt(schema, o, show, v, j);
    }
  }

  /** A nested field of a tree value reads back from the value's tree as the decoding of the nested record's own tree... */
  lemma ReadNestedBack(schema: Schema, o: ToXmlOptions, show: Value -> string, v: Value, i: nat)
    requires TreeValue(schema, v) && SubsBack(schema, o, show, v) && i < |v.fields|
    requires NestedField(schema, schema(v.model).fields[i])
    ensures Tree(schema, o, show, v).Ok?
    ensures !v.fields[i].PyNone? ==> Back(schema, o, show, v.fields[i]).Ok?
    ensures ReadField(schema, Tree(schema, o, show, v).value, schema(v.model).fields[i], None)
      == if v.fields[i].PyNone? then None else Some(Back(schema, o, show, v.fields[i]).value)
  {
    var f := schema(v.model).fields[i];
    assert TreeField(schema, f, v.fields[i]);
    assert SubBack(schema, o, show, f, v.fields[i]);
    TreeFieldChildren(schema, o, show, v, i);
  }

  /** ...a list field as one decoding per item... */
  lemma ReadListBack(schema: Schema, o: ToXmlOptions, show: Value -> string, v: Value, i: nat)
    requires TreeValue(schema, v) && SubsBack(schema, o, show, v) && i < |v.fields|
    requires ListField(schema, schema(v.model).fields[i])
    ensures Tree(schema, o, show, v).Ok?
    ensures ItemsBack(schema, o, show, v.fields[i], ReadField(schema, Tree(schema, o, show, v).value, schema(v.model).fields[i], None))
  {
    var f := schema(v.model).fields[i];
    var x := v.fields[i];
    assert TreeField(schema, f, x);
    assert SubBack(schema, o, show, f, x);
    TreeFieldChildren(schema, o, show, v, i);
    var c := ItemClass(f);
    DecodeTreesBack(schema, o, show, Tree(schema, o, show, v).value, XmlName(schema(c)), c, x.items);
  }

  /** ...and an attribute field as its printed value, unless `exclude_none` dropped a None. */
  lemma ReadAttrBack(schema: Schema, o: ToXmlOptions, show: Value -> string, v: Value, i: nat)
    requires TreeValue(schema, v) && SubsBack(schema, o, show, v) && i < |v.fields|
    requires schema(v.model).fields[i].name != ContentField && FlatField(schema(v.model).fields[i])
    ensures Tree(schema, o, show, v).Ok?
    ensures ReadField(schema, Tree(schema, o, show, v).value, schema(v.model).fields[i], None)
      == if o.excludeNone && v.fields[i].PyNone? then None else Some(RawText(show(v.fields[i])))
  {
    TreeBlocks(schema, o, show, v);
    TreeAttrib(schema, o, show, v, i);
  }

  /** So every non-content field reads back as FieldBack says, into an empty key. */
  lemma ReadFieldBack(schema: Schema, o: ToXmlOptions, show: Value -> string, v: Value, i: nat)
    requires TreeValue(schema, v) && SubsBack(schema, o, show, v) && i < |v.fields|
    requires schema(v.model).fields[i].name != ContentField
    ensures Tree(schema, o, show, v).Ok?
    ensures FieldBack(schema, o, show, schema(v.model).fields[i], v.fields[i],
      ReadField(schema, Tree(schema, o, show, v).value, schema(v.model).fields[i], None))
  {
    var f := schema(v.model).fields[i];
    if NestedField(schema, f) {
      ReadNestedBack(schema, o, show, v, i);
    } else if ListField(schema, f) {
      ReadListBack(schema, o, show, v, i);
    } else {
      assert TreeKind(schema, f);
      ReadAttrBack(schema, o, show, v, i);
    }
  }

  /** The content of a tree value reads back from the value's tree, onto any bag. */
  lemma ContentBack(schema: Schema, o: ToXmlOptions, show: Value -> string, v: Value, data: Dict.Dict<Raw>)
    requires TreeValue(schema, v) && SubsBack(schema, o, show, v)
    ensures Tree(schema, o, show, v).Ok?
    ensures ContentIndex(schema(v.model).fields).Some?
    ensures var t := Tree(schema, o, show, v).value;
      var c := ContentIndex(schema(v.model).fields).value;
      DecodeContent(schema, t, v.model, data).Ok?
      && FieldBack(schema, o, show, schema(v.model).fields[c], v.fields[c],
           Dict.Get(DecodeContent(schema, t, v.model, data).value, schema(v.model).fields[c].alias))
  {
    TreeBlocks(schema, o, show, v);
    var t := Tree(schema, o, show, v).value;
    var d := schema(v.model);
    var c := ContentIndex(d.fields).value;
    var x := v.fields[c];
    var s := Analyze(d.fields[c].outerType);
    assert TreeField(schema, d.fields[c], x);
    assert SubBack(schema, o, show, d.fields[c], x);
    if s.subFields.Some? {
      var ec := ElementType(s).id;
      var name := ClassTag(schema(ec));
      TreeContentChildren(schema, o, show, v);
      ContentIsFindAll(schema, t, name, ec);
      if x.Items? {
        TreesValue(schema, o, show, x.items);
      }
      DecodeAllOk(schema, t, name, ec, 0, []);
      DecodeContentKey(schema, t, v.model, data);
    } else {
      assert DecodeContent(schema, t, v.model, data) == Ok(Dict.Put(data, d.fields[c].alias, RawText(if t.text.Some? then t.text.value else "")));
    }
  }

  /** A tree value whose sub-records read back reads back itself, every field's key holding what FieldBack says. */
  lemma BackOfTree(schema: Schema, o: ToXmlOptions, show: Value -> string, v: Value)
    requires TreeValue(schema, v) && SubsBack(schema, o, show, v)
    ensures Back(schema, o, show, v).Ok? && Back(schema, o, show, v).value.RawBag?
    ensures forall i :: 0 <= i < |v.fields| ==>
      FieldBack(schema, o, show, schema(v.model).fields[i], v.fields[i],
        Dict.Get(Back(schema, o, show, v).value.entries, BagKey(schema, schema(v.model).fields[i])))
  {
    var m := v.model;
    var fs := schema(m).fields;
    TreeSubsDecode(schema, o, show, v);
    var t := Tree(schema, o, show, v).value;
    DecodeTreeOk(schema, t, m, 0, [], None);
    var bag0 := DecodeFieldsFrom(schema, t, m, 0, [], None).value;
    ContentBack(schema, o, show, v, bag0);
    var c := ContentIndex(fs).value;
    var bag := DecodeContent(schema, t, m, bag0).value;
    assert Back(schema, o, show, v) == Ok(RawBag(bag));
    forall i | 0 <= i < |v.fields|
      ensures FieldBack(schema, o, show, fs[i], v.fields[i], Dict.Get(bag, BagKey(schema, fs[i])))
    {
      if i != c {
        assert BagKey(schema, fs[i]) != BagKey(schema, fs[c]);
        assert Dict.Get(bag, BagKey(schema, fs[i])) == Dict.Get(bag0, BagKey(schema, fs[i]));
        DecodeTreeGet(schema, t, m, 0, [], None, i);
        ReadFieldBack(schema, o, show, v, i);
      }
    }
  }

  /**
   * Round trip of the v1 engine: `from_element` on the tree `to_xml_innner`
   * builds for a tree value gives a keyed bag in which every field's key
   * holds what FieldBack says: the nested record's key the decoding of that
   * record's own tree, and a list's key one such decoding per item.
   */
  lemma {:induction false} TreeRoundTrip(schema: Schema, o: ToXmlOptions, show: Value -> string, v: Value)
    requires TreeValue(schema, v)
    ensures Back(schema, o, show, v).Ok? && Back(schema, o, show, v).value.RawBag?
    ensures forall i :: 0 <= i < |v.fields| ==>
      FieldBack(schema, o, show, schema(v.model).fields[i], v.fields[i],
        Dict.Get(Back(schema, o, show, v).value.entries, BagKey(schema, schema(v.model).fields[i])))
    decreases v
  {
    var fs := schema(v.model).fields;
    forall i | 0 <= i < |v.fields|
      ensures SubBack(schema, o, show, fs[i], v.fields[i])
    {
      var x := v.fields[i];
      assert TreeField(schema, fs[i], x);
      if NestedField(schema, fs[i]) && x.Record? {
        TreeRoundTrip(schema, o, show, x);
      }
      if (ListField(schema, fs[i]) || (fs[i].name == ContentField && Analyze(fs[i].outerType).subFields.Some?)) && x.Items? {
        forall j | 0 <= j < |x.items|
          ensures Back(schema, o, show, x.items[j]).Ok?
        {
          assert x.items[j] in x.items;
          TreeRoundTrip(schema, o, show, x.items[j]);
        }
      }
    }
    BackOfTree(schema, o, show, v);
  }

  /** For an XMLModel, the tree `to_xml` renders is the one Tree builds, the element name being the class tag. */
  lemma ToTreeIsTree(schema: Schema, o: ToXmlOptions, show: Value -> string, model: Value)
    requires model.Record? && Conforms(schema, model) && schema(model.model).isXmlModel
    ensures ToTree(schema, o, show, model) == Tree(schema, o, show, model)
  {
  }

  /** `ExampleModelEmpty()` is a tree value: nothing but text content. */
  lemma EmptyModelIsTree()
    ensures TreeValue(SameNameSchema(), Record(1, [PyNone]))
  {
    var schema := SameNameSchema();
    ContentFieldShape();
    assert Conforms(schema, Record(1, [PyNone]));
    assert ContentIndex(EmptyModelDef.fields) == Some(0);
    assert TreeModel(schema, EmptyModelDef);
    assert TreeField(schema, EmptyModelDef.fields[0], PyNone);
  }

  /** The fields of ExampleModelWithSameNameInAttrAndChild have distinct read-back keys, and only the nested one a child tag, "test". */
  lemma SameNameKeys()
    ensures ChildTag(SameNameSchema(), SameNameDef, 0) == None
    ensures ChildTag(SameNameSchema(), SameNameDef, 1) == None
    ensures ChildTag(SameNameSchema(), SameNameDef, 2) == Some("test")
    ensures BagKey(SameNameSchema(), SameNameDef.fields[0]) == ContentField
    ensures BagKey(SameNameSchema(), SameNameDef.fields[1]) == "test"
    ensures BagKey(SameNameSchema(), SameNameDef.fields[2]) == "test_model"
  {
    ContentFieldShape();
    assert Analyze(Str) == FieldShape(Str, None, false);
    assert Analyze(Model(1)) == FieldShape(Model(1), None, false);
    assert XmlName(EmptyModelDef) == "test";
  }

  /** ...so its names, read-back keys and child tags are pairwise distinct. */
  lemma SameNameDistinct()
    ensures var fs := SameNameDef.fields;
      (forall i, j :: 0 <= i < j < |fs| ==> fs[i].name != fs[j].name)
      && (forall i, j :: 0 <= i < j < |fs| ==> BagKey(SameNameSchema(), fs[i]) != BagKey(SameNameSchema(), fs[j]))
      && (forall i, j :: 0 <= i < j < |fs| && ChildTag(SameNameSchema(), SameNameDef, i).Some? ==>
            ChildTag(SameNameSchema(), SameNameDef, i) != ChildTag(SameNameSchema(), SameNameDef, j))
  {
    SameNameKeys();
    assert ContentField[0] != "test"[0] && ContentField[0] != "test_model"[0] && "test" != "test_model";
  }

  /** ExampleModelWithSameNameInAttrAndChild is a tree model. */
  lemma SameNameIsTreeModel()
    ensures TreeModel(SameNameSchema(), SameNameDef)
  {
    var schema := SameNameSchema();
    ContentFieldShape();
    assert Analyze(Str) == FieldShape(Str, None, false);
    assert Analyze(Model(1)) == FieldShape(Model(1), None, false);
    assert ContentIndex(SameNameDef.fields) == Some(0);
    SameNameDistinct();
    assert XmlName(EmptyModelDef) == "test";
    ShortNotContains("test", "xmlns:");
    assert TreeKind(schema, SameNameDef.fields[1]) && TreeKind(schema, SameNameDef.fields[2]);
  }

  /** `ExampleModelWithSameNameInAttrAndChild(test="test str", test_model=ExampleModelEmpty())` is a tree value. */
  lemma SameNameIsTree()
    ensures TreeValue(SameNameSchema(), SameNameInstance)
  {
    var schema := SameNameSchema();
    var v := SameNameInstance;
    SameNameConforms();
    SameNameIsTreeModel();
    EmptyModelIsTree();
    ContentFieldShape();
    assert Analyze(Str) == FieldShape(Str, None, false);
    assert Analyze(Model(1)) == FieldShape(Model(1), None, false);
    assert TreeField(schema, SameNameDef.fields[0], v.fields[0]);
    assert TreeField(schema, SameNameDef.fields[1], v.fields[1]);
    assert TreeField(schema, SameNameDef.fields[2], v.fields[2]);
  }
}
