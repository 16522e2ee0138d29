/**
 * Properties of the pydantic v2 engine: how annotations are classified,
 * which candidate classes a record field has, what the encoder writes for
 * each field, and what the decoder reads back.
 */
module SerdeProps {
  import opened Wrappers
  import Dict
  import opened Xml
  import opened Py
  import opened Serde

  // ----------------------------------------------------------- classifier

  /** A union arm the classifier accepts: anything but a sequence that is not a list of records. */
  predicate ArmAccepted(a: Type)
  {
    a.Seq? ==> IsRecordList(a)
  }

  /** The union loop from arm i on succeeds exactly when every remaining arm is accepted... */
  lemma {:induction false} UnionKindOk(arms: seq<Type>, i: nat, k: Kind)
    requires i <= |arms|
    ensures UnionKindFrom(arms, i, k).Ok? <==> forall j :: i <= j < |arms| ==> ArmAccepted(arms[j])
    decreases |arms| - i
  {
    if i < |arms| {
      var a := arms[i];
      if a.Model? {
        UnionKindOk(arms, i + 1, k.(isBasemodel := true));
      } else {
        var s := AnalyzeSequence(a);
        if s.Ok? {
          UnionKindOk(arms, i + 1, if s.value then Kind(true, true) else k);
        }
      }
    }
  }

  /** ...and then ORs in what each arm contributes: a sequence makes it list-like, a record or a sequence record-like... */
  lemma {:induction false} UnionKindFlags(arms: seq<Type>, i: nat, k: Kind)
    requires i <= |arms|
    requires UnionKindFrom(arms, i, k).Ok?
    ensures UnionKindFrom(arms, i, k).value.isList == (k.isList || exists j :: i <= j < |arms| && arms[j].Seq?)
    ensures UnionKindFrom(arms, i, k).value.isBasemodel == (k.isBasemodel || exists j :: i <= j < |arms| && (arms[j].Model? || arms[j].Seq?))
    decreases |arms| - i
  {
    if i < |arms| {
      var a := arms[i];
      if a.Model? {
        UnionKindFlags(arms, i + 1, k.(isBasemodel := true));
      } else {
        var s := AnalyzeSequence(a);
        assert s.Ok?;
        UnionKindFlags(arms, i + 1, if s.value then Kind(true, true) else k);
      }
    }
  }

  /** ...and otherwise fails with the error of the first rejected arm. */
  lemma {:induction false} UnionKindError(arms: seq<Type>, i: nat, k: Kind)
    requires i <= |arms|
    requires UnionKindFrom(arms, i, k).Err?
    ensures exists j :: (i <= j < |arms| && !ArmAccepted(arms[j]) && (forall j' :: i <= j' < j ==> ArmAccepted(arms[j']))
      && UnionKindFrom(arms, i, k).error == SequenceError(arms[j]))
    decreases |arms| - i
  {
    var a := arms[i];
    var s := AnalyzeSequence(a);
    if a.Model? || s.Ok? {
      var k' := if a.Model? then k.(isBasemodel := true) else if s.value then Kind(true, true) else k;
      assert UnionKindFrom(arms, i, k) == UnionKindFrom(arms, i + 1, k');
      UnionKindError(arms, i + 1, k');
      var j :| i + 1 <= j < |arms| && !ArmAccepted(arms[j]) && (forall j' :: i + 1 <= j' < j ==> ArmAccepted(arms[j']))
        && UnionKindFrom(arms, i + 1, k').error == SequenceError(arms[j]);
      AcceptedBefore(arms, i, j);
    }
  }

  /** An accepted arm i in front of accepted arms i + 1 .. j - 1. */
  lemma AcceptedBefore(arms: seq<Type>, i: nat, j: nat)
    requires i < j <= |arms| && ArmAccepted(arms[i])
    requires forall j' :: i + 1 <= j' < j ==> ArmAccepted(arms[j'])
    ensures forall j' :: i <= j' < j ==> ArmAccepted(arms[j'])
  {
  }

  /**
   * `_analyze_annotation` on each annotation form: `str` is a scalar even
   * though it is a sequence; a record is a record; a sequence is a list of
   * records or an error, never a scalar; a union is accepted exactly when
   * every sequence arm is a list of records, and is then list-like when some
   * arm is a sequence and record-like when some arm is a record or a
   * sequence.
   */
  lemma KindOfCases(t: Type)
    ensures t.Str? || t.Scalar? || t.NoneType? ==> KindOf(t) == Ok(Kind(false, false))
    ensures t.Model? ==> KindOf(t) == Ok(Kind(false, true))
    ensures t.Seq? && IsRecordList(t) ==> KindOf(t) == Ok(Kind(true, true))
    ensures t.Seq? && !IsRecordList(t) ==> KindOf(t) == Err(SequenceError(t))
    ensures t.Union? ==> (KindOf(t).Ok? <==> forall j :: 0 <= j < |t.arms| ==> ArmAccepted(t.arms[j]))
    ensures t.Union? && KindOf(t).Ok? ==>
      KindOf(t).value == Kind(exists j :: 0 <= j < |t.arms| && t.arms[j].Seq?,
                              exists j :: 0 <= j < |t.arms| && (t.arms[j].Model? || t.arms[j].Seq?))
  {
    if t.Union? {
      UnionKindOk(t.arms, 0, Kind(false, false));
      if KindOf(t).Ok? {
        UnionKindFlags(t.arms, 0, Kind(false, false));
      }
    }
  }

  /** A classification error is always one of the two sequence errors. */
  lemma KindErrors(t: Type)
    ensures KindOf(t).Err? ==> KindOf(t).error == ListWithoutTypeArgs || KindOf(t).error == ListOfNonRecord
  {
    if t.Union? && KindOf(t).Err? {
      UnionKindError(t.arms, 0, Kind(false, false));
    }
  }

  /** The record classes a union names include those inside its list arms. */
  lemma {:induction false} UnionModelsHasSeqArms(arms: seq<Type>, j: nat)
    requires j < |arms| && arms[j].Seq?
    ensures ModelArgs(arms[j].args) <= UnionModels(arms)
    decreases |arms|
  {
    var n := |arms| - 1;
    if j < n {
      assert arms[..n][j] == arms[j];
      UnionModelsHasSeqArms(arms[..n], j);
    }
  }

  /**
   * Every annotation the classifier calls record-like has at least one
   * candidate class, so the decoder's "no basemodel types" error is never
   * raised for an accepted annotation.
   */
  lemma CandidatesExist(t: Type)
    requires KindOf(t).Ok? && KindOf(t).value.isBasemodel
    ensures BasemodelTypes(t).Ok? && BasemodelTypes(t).value != {}
  {
    KindOfCases(t);
    match t
    case Union(arms) =>
      var j :| 0 <= j < |arms| && (arms[j].Model? || arms[j].Seq?);
      if arms[j].Model? {
        assert Model(arms[j].id) in arms;
        assert arms[j].id in UnionModels(arms);
      } else {
        assert ArmAccepted(arms[j]);
        assert Model(arms[j].args[0].id) in arms[j].args;
        UnionModelsHasSeqArms(arms, j);
        assert arms[j].args[0].id in UnionModels(arms);
      }
    case Seq(args) =>
      assert Model(args[0].id) in args;
    case _ =>
  }

  /**
   * As written, `_find_basemodel_types` finds no candidate for
   * `Optional[List[A]]`, although `_analyze_annotation` calls it a list of
   * records: the decoder then raises "has no basemodel type". The corrected
   * search finds A.
   */
  lemma OptionalListAsWritten(a: ModelId)
    ensures KindOf(Union([Seq([Model(a)]), NoneType])) == Ok(Kind(true, true))
    ensures BasemodelTypesAsWritten(Union([Seq([Model(a)]), NoneType])) == Ok({})
    ensures BasemodelTypes(Union([Seq([Model(a)]), NoneType])) == Ok({a})
  {
    var arms := [Seq([Model(a)]), NoneType];
    KindOfCases(Union(arms));
    assert ArmAccepted(arms[0]) && ArmAccepted(arms[1]);
    assert arms[0].Seq?;
    assert arms[..1] == [Seq([Model(a)])];
    assert ModelArgs([Model(a)]) == {a};
    assert UnionModels(arms[..1]) == UnionModels([]) + ModelArgs([Model(a)]);
    assert UnionModels(arms) == UnionModels(arms[..1]);
    assert forall id :: Model(id) !in arms;
  }

  // -------------------------------------------------------------- encoder

  /** The item loop appends children and touches nothing else. */
  lemma {:induction false} EncodeItemsFrame(schema: Schema, o: DumpOptions, show: Value -> string, el: Element, obj: Value, i: nat, j: nat)
    requires obj.Record? && Conforms(schema, obj) && i < |obj.fields|
    requires obj.fields[i].Items? && j <= |obj.fields[i].items|
    requires EncodeItemsFrom(schema, o, show, el, obj, i, j).Ok?
    ensures var r := EncodeItemsFrom(schema, o, show, el, obj, i, j).value;
      r == el.(children := r.children) && |el.children| <= |r.children| && r.children[..|el.children|] == el.children
    decreases |obj.fields[i].items| - j
  {
    var xs := obj.fields[i].items;
    assert Conforms(schema, obj.fields[i]);
    if j < |xs| {
      if xs[j].Record? {
        var f := schema(obj.model).fields[i];
        var sub := EncodeInto(schema, o, show, Empty(ChildTag(schema, o, f, xs[j])), xs[j]).value;
        var el' := el.(children := el.children + [sub]);
        EncodeItemsFrame(schema, o, show, el', obj, i, j + 1);
        var r := EncodeItemsFrom(schema, o, show, el', obj, i, j + 1).value;
        assert r.children[..|el.children|] == r.children[..|el'.children|][..|el.children|];
      } else {
        EncodeItemsFrame(schema, o, show, el, obj, i, j + 1);
      }
    }
  }

  /** A field that becomes an attribute: a value that is neither None nor a record, outside a list field, not the content. */
  predicate IsAttrField(schema: Schema, obj: Value, i: nat)
    requires obj.Record? && Conforms(schema, obj) && i < |obj.fields|
  {
    var f := schema(obj.model).fields[i];
    var v := obj.fields[i];
    f.annotation.Some? && KindOf(f.annotation.value).Ok? && !KindOf(f.annotation.value).value.isList
    && !v.Record? && !v.PyNone? && f.name != ContentField
  }

  /** A field that becomes the element's text: the same, but the content field. */
  predicate IsTextField(schema: Schema, obj: Value, i: nat)
    requires obj.Record? && Conforms(schema, obj) && i < |obj.fields|
  {
    var f := schema(obj.model).fields[i];
    var v := obj.fields[i];
    f.annotation.Some? && KindOf(f.annotation.value).Ok? && !KindOf(f.annotation.value).value.isList
    && !v.Record? && !v.PyNone? && f.name == ContentField
  }

  /** The attribute name field i is written under. */
  function AttrName(schema: Schema, o: DumpOptions, obj: Value, i: nat): string
    requires obj.Record? && i < |schema(obj.model).fields|
  {
    var f := schema(obj.model).fields[i];
    SelectName(o, f.name, f.serializationAlias)
  }

  /**
   * One field keeps the tag and the children already there, sets an
   * attribute exactly when it is an attribute field and the text exactly
   * when it is the text field; a None value changes nothing.
   */
  lemma EncodeFieldFrame(schema: Schema, o: DumpOptions, show: Value -> string, el: Element, obj: Value, i: nat)
    requires obj.Record? && Conforms(schema, obj) && i < |obj.fields|
    requires EncodeField(schema, o, show, el, obj, i).Ok?
    ensures var r := EncodeField(schema, o, show, el, obj, i).value;
      r.tag == el.tag
      && |el.children| <= |r.children| && r.children[..|el.children|] == el.children
      && r.attrib == (if IsAttrField(schema, obj, i) then Dict.Put(el.attrib, AttrName(schema, o, obj, i), show(obj.fields[i])) else el.attrib)
      && r.text == (if IsTextField(schema, obj, i) then Some(show(obj.fields[i])) else el.text)
      && (obj.fields[i].PyNone? ==> r == el)
  {
    var f := schema(obj.model).fields[i];
    var v := obj.fields[i];
    var kind := KindOf(f.annotation.value).value;
    if kind.isList && v.Items? {
      EncodeItemsFrame(schema, o, show, el, obj, i, 0);
    }
  }

  /** The attribute names fields i.. contribute. */
  function AttrNamesFrom(schema: Schema, o: DumpOptions, obj: Value, i: nat): set<string>
    requires obj.Record? && Conforms(schema, obj) && i <= |obj.fields|
    decreases |obj.fields| - i
  {
    if i == |obj.fields| then {}
    else (if IsAttrField(schema, obj, i) then {AttrName(schema, o, obj, i)} else {}) + AttrNamesFrom(schema, o, obj, i + 1)
  }

  /**
   * The field loop from field i on keeps the tag and the children already
   * there, and adds exactly the attribute names of the attribute fields.
   */
  lemma {:induction false} EncodeFieldsFrame(schema: Schema, o: DumpOptions, show: Value -> string, el: Element, obj: Value, i: nat)
    requires obj.Record? && Conforms(schema, obj) && i <= |obj.fields|
    requires EncodeFieldsFrom(schema, o, show, el, obj, i).Ok?
    ensures var r := EncodeFieldsFrom(schema, o, show, el, obj, i).value;
      r.tag == el.tag
      && |el.children| <= |r.children| && r.children[..|el.children|] == el.children
      && Dict.Keys(r.attrib) == Dict.Keys(el.attrib) + AttrNamesFrom(schema, o, obj, i)
    decreases |obj.fields| - i
  {
    if i < |obj.fields| {
      EncodeFieldFrame(schema, o, show, el, obj, i);
      var el' := EncodeField(schema, o, show, el, obj, i).value;
      EncodeFieldsFrom1(schema, o, show, el, obj, i);
      EncodeFieldsFrame(schema, o, show, el', obj, i + 1);
      var r := EncodeFieldsFrom(schema, o, show, el', obj, i + 1).value;
      assert r.children[..|el.children|] == r.children[..|el'.children|][..|el.children|];
    }
  }

  /** One unfolding of the field loop. */
  lemma EncodeFieldsFrom1(schema: Schema, o: DumpOptions, show: Value -> string, el: Element, obj: Value, i: nat)
    requires obj.Record? && Conforms(schema, obj) && i < |obj.fields|
    requires EncodeFieldsFrom(schema, o, show, el, obj, i).Ok?
    ensures EncodeField(schema, o, show, el, obj, i).Ok?
    ensures EncodeFieldsFrom(schema, o, show, el, obj, i) == EncodeFieldsFrom(schema, o, show, EncodeField(schema, o, show, el, obj, i).value, obj, i + 1)
  {
  }

  /**
   * The text after the field loop from field i on: untouched when no text
   * field follows, otherwise the value of the last one.
   */
  lemma {:induction false} EncodeFieldsText(schema: Schema, o: DumpOptions, show: Value -> string, el: Element, obj: Value, i: nat)
    requires obj.Record? && Conforms(schema, obj) && i <= |obj.fields|
    requires EncodeFieldsFrom(schema, o, show, el, obj, i).Ok?
    ensures var r := EncodeFieldsFrom(schema, o, show, el, obj, i).value;
      ((forall j :: i <= j < |obj.fields| ==> !IsTextField(schema, obj, j)) ==> r.text == el.text)
      && (forall j :: i <= j < |obj.fields| && IsTextField(schema, obj, j) && (forall j' :: j < j' < |obj.fields| ==> !IsTextField(schema, obj, j'))
            ==> r.text == Some(show(obj.fields[j])))
    decreases |obj.fields| - i
  {
    if i < |obj.fields| {
      EncodeFieldFrame(schema, o, show, el, obj, i);
      EncodeFieldsFrom1(schema, o, show, el, obj, i);
      EncodeFieldsText(schema, o, show, EncodeField(schema, o, show, el, obj, i).value, obj, i + 1);
    }
  }

  /** The encoder never changes the tag of the element it fills. */
  lemma EncodeKeepsTag(schema: Schema, o: DumpOptions, show: Value -> string, el: Element, obj: Value)
    requires obj.Record? && Conforms(schema, obj)
    requires EncodeInto(schema, o, show, el, obj).Ok?
    ensures EncodeInto(schema, o, show, el, obj).value.tag == el.tag
  {
    EncodeFieldsFrame(schema, o, show, el, obj, 0);
  }

  /** The tags the records among xs[j..] are given under field f. */
  function ItemTagsFrom(schema: Schema, o: DumpOptions, f: FieldInfo, xs: seq<Value>, j: nat): seq<string>
    requires j <= |xs|
    decreases |xs| - j
  {
    if j == |xs| then []
    else (if xs[j].Record? then [ChildTag(schema, o, f, xs[j])] else []) + ItemTagsFrom(schema, o, f, xs, j + 1)
  }

  /**
   * The item loop appends one child per record item, in list order, each
   * tagged with its class's name (or the field's alias); other items are
   * skipped.
   */
  lemma {:induction false} EncodeItemsTags(schema: Schema, o: DumpOptions, show: Value -> string, el: Element, obj: Value, i: nat, j: nat)
    requires obj.Record? && Conforms(schema, obj) && i < |obj.fields|
    requires obj.fields[i].Items? && j <= |obj.fields[i].items|
    requires EncodeItemsFrom(schema, o, show, el, obj, i, j).Ok?
    ensures TagsOf(EncodeItemsFrom(schema, o, show, el, obj, i, j).value.children)
      == TagsOf(el.children) + ItemTagsFrom(schema, o, schema(obj.model).fields[i], obj.fields[i].items, j)
    decreases |obj.fields[i].items| - j
  {
    var xs := obj.fields[i].items;
    var f := schema(obj.model).fields[i];
    if j < |xs| {
      var rest := ItemTagsFrom(schema, o, f, xs, j + 1);
      if xs[j].Record? {
        var sub := EncodeItemStep(schema, o, show, el, obj, i, j);
        var el' := el.(children := el.children + [sub]);
        EncodeItemsTags(schema, o, show, el', obj, i, j + 1);
        TagsOfSnoc(el.children, sub, rest);
      } else {
        assert EncodeItemsFrom(schema, o, show, el, obj, i, j) == EncodeItemsFrom(schema, o, show, el, obj, i, j + 1);
        EncodeItemsTags(schema, o, show, el, obj, i, j + 1);
      }
    }
  }

  /** The tags of cs with one more element, followed by more tags. */
  lemma TagsOfSnoc(cs: seq<Element>, x: Element, rest: seq<string>)
    ensures TagsOf(cs + [x]) + rest == TagsOf(cs) + ([x.tag] + rest)
  {
    TagsOfAppend(cs, [x]);
    assert TagsOf([x]) == [x.tag];
  }

  /** One pass of the item loop at a record item: a child tagged for the item is appended. */
  lemma EncodeItemStep(schema: Schema, o: DumpOptions, show: Value -> string, el: Element, obj: Value, i: nat, j: nat) returns (sub: Element)
    requires obj.Record? && Conforms(schema, obj) && i < |obj.fields|
    requires obj.fields[i].Items? && j < |obj.fields[i].items| && obj.fields[i].items[j].Record?
    requires EncodeItemsFrom(schema, o, show, el, obj, i, j).Ok?
    ensures sub.tag == ChildTag(schema, o, schema(obj.model).fields[i], obj.fields[i].items[j])
    ensures EncodeItemsFrom(schema, o, show, el, obj, i, j) == EncodeItemsFrom(schema, o, show, el.(children := el.children + [sub]), obj, i, j + 1)
  {
    var xs := obj.fields[i].items;
    var f := schema(obj.model).fields[i];
    assert Conforms(schema, obj.fields[i]);
    assert Conforms(schema, xs[j]);
    var t := ChildTag(schema, o, f, xs[j]);
    var d := EncodeInto(schema, o, show, Empty(t), xs[j]);
    assert d.Ok?;
    EncodeKeepsTag(schema, o, show, Empty(t), xs[j]);
    sub := d.value;
  }

  /** The tags of the children field i contributes: its record, or the records of its list. */
  function FieldTags(schema: Schema, o: DumpOptions, obj: Value, i: nat): seq<string>
    requires obj.Record? && Conforms(schema, obj) && i < |obj.fields|
  {
    var f := schema(obj.model).fields[i];
    var v := obj.fields[i];
    if f.annotation.None? || KindOf(f.annotation.value).Err? then []
    else if KindOf(f.annotation.value).value.isList then
      if v.Items? then ItemTagsFrom(schema, o, f, v.items, 0) else []
    else if v.Record? then [ChildTag(schema, o, f, v)]
    else []
  }

  /** The children field i appends are the ones FieldTags names. */
  lemma EncodeFieldTags(schema: Schema, o: DumpOptions, show: Value -> string, el: Element, obj: Value, i: nat)
    requires obj.Record? && Conforms(schema, obj) && i < |obj.fields|
    requires EncodeField(schema, o, show, el, obj, i).Ok?
    ensures TagsOf(EncodeField(schema, o, show, el, obj, i).value.children) == TagsOf(el.children) + FieldTags(schema, o, obj, i)
  {
    var f := schema(obj.model).fields[i];
    var v := obj.fields[i];
    assert Conforms(schema, v);
    var kind := KindOf(f.annotation.value).value;
    if kind.isList && v.Items? {
      EncodeItemsTags(schema, o, show, el, obj, i, 0);
    } else if !kind.isList && v.Record? {
      EncodeKeepsTag(schema, o, show, Empty(ChildTag(schema, o, f, v)), v);
      TagsOfAppend(el.children, [EncodeInto(schema, o, show, Empty(ChildTag(schema, o, f, v)), v).value]);
    }
  }

  /** The tags of the children fields i.. contribute, in field order. */
  function ChildTagsFrom(schema: Schema, o: DumpOptions, obj: Value, i: nat): seq<string>
    requires obj.Record? && Conforms(schema, obj) && i <= |obj.fields|
    decreases |obj.fields| - i
  {
    if i == |obj.fields| then [] else FieldTags(schema, o, obj, i) + ChildTagsFrom(schema, o, obj, i + 1)
  }

  /** The field loop from field i on appends the children of each field in field order. */
  lemma {:induction false} EncodeFieldsTags(schema: Schema, o: DumpOptions, show: Value -> string, el: Element, obj: Value, i: nat)
    requires obj.Record? && Conforms(schema, obj) && i <= |obj.fields|
    requires EncodeFieldsFrom(schema, o, show, el, obj, i).Ok?
    ensures TagsOf(EncodeFieldsFrom(schema, o, show, el, obj, i).value.children) == TagsOf(el.children) + ChildTagsFrom(schema, o, obj, i)
    decreases |obj.fields| - i
  {
    if i < |obj.fields| {
      EncodeFieldTags(schema, o, show, el, obj, i);
      EncodeFieldsFrom1(schema, o, show, el, obj, i);
      EncodeFieldsTags(schema, o, show, EncodeField(schema, o, show, el, obj, i).value, obj, i + 1);
    }
  }

  /**
   * The root of `model_dump_xml` is tagged with the model's name, holds
   * every field's children in field order, and has exactly the attribute
   * fields' names as attributes.
   */
  lemma DumpTreeRoot(schema: Schema, o: DumpOptions, show: Value -> string, model: Value)
    requires model.Record? && Conforms(schema, model)
    requires DumpTree(schema, o, show, model).Ok?
    ensures DumpTree(schema, o, show, model).value.tag == BasemodelName(schema(model.model))
    ensures TagsOf(DumpTree(schema, o, show, model).value.children) == ChildTagsFrom(schema, o, model, 0)
    ensures Dict.Keys(DumpTree(schema, o, show, model).value.attrib) == AttrNamesFrom(schema, o, model, 0)
  {
    EncodeFieldsFrame(schema, o, show, Empty(BasemodelName(schema(model.model))), model, 0);
    EncodeFieldsTags(schema, o, show, Empty(BasemodelName(schema(model.model))), model, 0);
  }

  // -------------------------------------------------------------- decoder

  /** Candidate c has a direct child of e tagged with its name. */
  predicate Found(schema: Schema, e: Element, c: ModelId) {
    Find(e, BasemodelName(schema(c))).Some?
  }

  /** The child `element.find` returns for candidate c. */
  function ChildOf(schema: Schema, e: Element, c: ModelId): Element
    requires Found(schema, e, c)
  {
    Find(e, BasemodelName(schema(c))).value
  }

  /** The position of the last candidate from k on that is found in e. */
  function LastFound(schema: Schema, e: Element, cands: seq<ModelId>, k: nat): (r: Option<nat>)
    requires k <= |cands|
    ensures r.Some? ==> k <= r.value < |cands| && Found(schema, e, cands[r.value])
    ensures r.Some? ==> forall n :: r.value < n < |cands| ==> !Found(schema, e, cands[n])
    ensures r.None? ==> forall n :: k <= n < |cands| ==> !Found(schema, e, cands[n])
    decreases |cands| - k
  {
    if k == |cands| then None
    else
      match LastFound(schema, e, cands, k + 1)
      case Some(n) => Some(n)
      case None => if Found(schema, e, cands[k]) then Some(k) else None
  }

  /** One unfolding of a record field's candidate loop at a candidate that is not found. */
  lemma SingularFromSkip(schema: Schema, order: set<ModelId> -> seq<ModelId>, vo: ValidateOptions, e: Element, key: string, cands: seq<ModelId>, k: nat, data: Dict.Dict<Raw>)
    requires k < |cands| && !Found(schema, e, cands[k])
    ensures SingularFrom(schema, order, vo, e, key, cands, k, data) == SingularFrom(schema, order, vo, e, key, cands, k + 1, data)
  {
  }

  /** One unfolding at a candidate that is found: its decoding fails the loop or overwrites the key. */
  lemma SingularFromHit(schema: Schema, order: set<ModelId> -> seq<ModelId>, vo: ValidateOptions, e: Element, key: string, cands: seq<ModelId>, k: nat, data: Dict.Dict<Raw>)
    requires k < |cands| && Found(schema, e, cands[k])
    ensures var raw := DecodeElement(schema, order, vo, ChildOf(schema, e, cands[k]), cands[k]);
      SingularFrom(schema, order, vo, e, key, cands, k, data)
        == if raw.Err? then Err(raw.error) else SingularFrom(schema, order, vo, e, key, cands, k + 1, Dict.Put(data, key, raw.value))
  {
  }

  /** What the record-field loop does at candidate c: nothing when it is not found, else the decoding of its child. */
  function ChildDecoder(schema: Schema, order: set<ModelId> -> seq<ModelId>, vo: ValidateOptions, e: Element): ModelId -> Option<Result<Raw, Error>>
  {
    (c: ModelId) => if Found(schema, e, c) then Some(DecodeElement(schema, order, vo, ChildOf(schema, e, c), c)) else None
  }

  /** The record-field loop with the work at each candidate given as `step`: each success overwrites the key. */
  function Overwrite(step: ModelId -> Option<Result<Raw, Error>>, key: string, cands: seq<ModelId>, k: nat, data: Dict.Dict<Raw>): Result<Dict.Dict<Raw>, Error>
    requires k <= |cands|
    decreases |cands| - k
  {
    if k == |cands| then Ok(data)
    else
      match step(cands[k])
      case None => Overwrite(step, key, cands, k + 1, data)
      case Some(raw) =>
        var v :- raw;
        Overwrite(step, key, cands, k + 1, Dict.Put(data, key, v))
  }

  /** Overwrite succeeds exactly when every step that does something succeeds. */
  lemma {:induction false} OverwriteOk(step: ModelId -> Option<Result<Raw, Error>>, key: string, cands: seq<ModelId>, k: nat, data: Dict.Dict<Raw>)
    requires k <= |cands|
    ensures Overwrite(step, key, cands, k, data).Ok? <==> forall n :: k <= n < |cands| && step(cands[n]).Some? ==> step(cands[n]).value.Ok?
    decreases |cands| - k
  {
    if k < |cands| {
      match step(cands[k])
      case None => OverwriteOk(step, key, cands, k + 1, data);
      case Some(raw) =>
        if raw.Ok? {
          OverwriteOk(step, key, cands, k + 1, Dict.Put(data, key, raw.value));
        }
    }
  }

  /** The record-field loop is Overwrite with ChildDecoder. */
  lemma {:induction false} SingularIsOverwrite(schema: Schema, order: set<ModelId> -> seq<ModelId>, vo: ValidateOptions, e: Element, key: string, cands: seq<ModelId>, k: nat, data: Dict.Dict<Raw>)
    requires k <= |cands|
    ensures SingularFrom(schema, order, vo, e, key, cands, k, data) == Overwrite(ChildDecoder(schema, order, vo, e), key, cands, k, data)
    decreases |cands| - k
  {
    if k < |cands| {
      if Found(schema, e, cands[k]) {
        SingularFromHit(schema, order, vo, e, key, cands, k, data);
        var raw := DecodeElement(schema, order, vo, ChildOf(schema, e, cands[k]), cands[k]);
        if raw.Ok? {
          SingularIsOverwrite(schema, order, vo, e, key, cands, k + 1, Dict.Put(data, key, raw.value));
        }
      } else {
        SingularFromSkip(schema, order, vo, e, key, cands, k, data);
        SingularIsOverwrite(schema, order, vo, e, key, cands, k + 1, data);
      }
    }
  }

  /** A record field's candidate loop succeeds exactly when every candidate found decodes. */
  lemma SingularFromOk(schema: Schema, order: set<ModelId> -> seq<ModelId>, vo: ValidateOptions, e: Element, key: string, cands: seq<ModelId>, k: nat, data: Dict.Dict<Raw>)
    requires k <= |cands|
    ensures SingularFrom(schema, order, vo, e, key, cands, k, data).Ok?
      <==> forall n :: k <= n < |cands| && Found(schema, e, cands[n]) ==> DecodeElement(schema, order, vo, ChildOf(schema, e, cands[n]), cands[n]).Ok?
  {
    var step := ChildDecoder(schema, order, vo, e);
    SingularIsOverwrite(schema, order, vo, e, key, cands, k, data);
    OverwriteOk(step, key, cands, k, data);
    assert forall n :: k <= n < |cands| ==> (step(cands[n]).Some? <==> Found(schema, e, cands[n]));
  }

  /**
   * When it succeeds, the key holds the decoding of the LAST candidate
   * found (each found one overwrites the previous), and the bag is
   * unchanged when none is found.
   */
  lemma {:induction false} SingularFromValue(schema: Schema, order: set<ModelId> -> seq<ModelId>, vo: ValidateOptions, e: Element, key: string, cands: seq<ModelId>, k: nat, data: Dict.Dict<Raw>)
    requires k <= |cands|
    requires SingularFrom(schema, order, vo, e, key, cands, k, data).Ok?
    ensures var r := SingularFrom(schema, order, vo, e, key, cands, k, data).value;
      match LastFound(schema, e, cands, k)
      case None => r == data
      case Some(n) =>
        var raw := DecodeElement(schema, order, vo, ChildOf(schema, e, cands[n]), cands[n]);
        raw.Ok? && r == Dict.Put(data, key, raw.value)
    decreases |cands| - k
  {
    if k < |cands| {
      if Found(schema, e, cands[k]) {
        SingularFromHit(schema, order, vo, e, key, cands, k, data);
        var raw := DecodeElement(schema, order, vo, ChildOf(schema, e, cands[k]), cands[k]).value;
        SingularFromValue(schema, order, vo, e, key, cands, k + 1, Dict.Put(data, key, raw));
        match LastFound(schema, e, cands, k + 1)
        case None =>
        case Some(n) =>
          Dict.PutPut(data, key, raw, DecodeElement(schema, order, vo, ChildOf(schema, e, cands[n]), cands[n]).value);
      } else {
        SingularFromSkip(schema, order, vo, e, key, cands, k, data);
        SingularFromValue(schema, order, vo, e, key, cands, k + 1, data);
      }
    }
  }

  /** The children subs, each paired with the class d it is decoded as. */
  function Paired(subs: seq<Element>, d: ModelId): seq<(Element, ModelId)>
  {
    seq(|subs|, n requires 0 <= n < |subs| => (subs[n], d))
  }

  /** The children a list field's candidate loop visits from candidate k on, each with its candidate: `findall` of each, in candidate order. */
  function Work(schema: Schema, e: Element, cands: seq<ModelId>, k: nat): seq<(Element, ModelId)>
    requires k <= |cands|
    decreases |cands| - k
  {
    if k == |cands| then []
    else
      var subs := FindAll(e, BasemodelName(schema(cands[k])));
      Paired(subs, cands[k]) + Work(schema, e, cands, k + 1)
  }

  /** The comprehension over the children of candidate c from j on succeeds exactly when each of them decodes. */
  lemma {:induction false} DecodeEachOk(schema: Schema, order: set<ModelId> -> seq<ModelId>, vo: ValidateOptions, e: Element, c: ModelId, j: nat, acc: seq<Raw>)
    requires j <= |FindAll(e, BasemodelName(schema(c)))|
    ensures var subs := FindAll(e, BasemodelName(schema(c)));
      DecodeEach(schema, order, vo, e, c, j, acc).Ok? <==> forall n :: j <= n < |subs| ==> DecodeElement(schema, order, vo, subs[n], c).Ok?
    decreases |FindAll(e, BasemodelName(schema(c)))| - j
  {
    var subs := FindAll(e, BasemodelName(schema(c)));
    if j < |subs| {
      var raw := DecodeElement(schema, order, vo, subs[j], c);
      if raw.Ok? {
        DecodeEachOk(schema, order, vo, e, c, j + 1, acc + [raw.value]);
      }
    }
  }

  /** When it succeeds, it appends their decodings to acc, in document order. */
  lemma {:induction false} DecodeEachValue(schema: Schema, order: set<ModelId> -> seq<ModelId>, vo: ValidateOptions, e: Element, c: ModelId, j: nat, acc: seq<Raw>)
    requires j <= |FindAll(e, BasemodelName(schema(c)))|
    requires DecodeEach(schema, order, vo, e, c, j, acc).Ok?
    ensures var subs := FindAll(e, BasemodelName(schema(c)));
      var r := DecodeEach(schema, order, vo, e, c, j, acc).value;
      |r| == |acc| + |subs| - j && r[..|acc|] == acc
      && forall n :: j <= n < |subs| ==> DecodeElement(schema, order, vo, subs[n], c) == Ok(r[|acc| + n - j])
    decreases |FindAll(e, BasemodelName(schema(c)))| - j
  {
    var subs := FindAll(e, BasemodelName(schema(c)));
    if j < |subs| {
      var raw := DecodeElement(schema, order, vo, subs[j], c).value;
      DecodeEachValue(schema, order, vo, e, c, j + 1, acc + [raw]);
      var r := DecodeEach(schema, order, vo, e, c, j + 1, acc + [raw]).value;
      assert r[..|acc|] == r[..|acc| + 1][..|acc|];
    }
  }

  /** Work from candidate k splits into the children of candidate k followed by Work from k + 1. */
  lemma WorkSplit(schema: Schema, e: Element, cands: seq<ModelId>, k: nat)
    requires k < |cands|
    ensures var subs := FindAll(e, BasemodelName(schema(cands[k])));
      var w := Work(schema, e, cands, k);
      var w' := Work(schema, e, cands, k + 1);
      |w| == |subs| + |w'|
      && (forall n :: 0 <= n < |subs| ==> w[n] == (subs[n], cands[k]))
      && (forall n :: |subs| <= n < |w| ==> w[n] == w'[n - |subs|])
  {
  }

  /** One unfolding of a list field's candidate loop. */
  lemma ListFromStep(schema: Schema, order: set<ModelId> -> seq<ModelId>, vo: ValidateOptions, e: Element, cands: seq<ModelId>, k: nat, acc: seq<Raw>)
    requires k < |cands|
    ensures var mid := DecodeEach(schema, order, vo, e, cands[k], 0, acc);
      ListFrom(schema, order, vo, e, cands, k, acc)
        == if mid.Err? then Err(mid.error) else ListFrom(schema, order, vo, e, cands, k + 1, mid.value)
  {
  }

  /** A list field's candidate loop from candidate k on succeeds exactly when every child it visits decodes. */
  lemma {:induction false} ListFromOk(schema: Schema, order: set<ModelId> -> seq<ModelId>, vo: ValidateOptions, e: Element, cands: seq<ModelId>, k: nat, acc: seq<Raw>)
    requires k <= |cands|
    ensures var w := Work(schema, e, cands, k);
      ListFrom(schema, order, vo, e, cands, k, acc).Ok? <==> forall n :: 0 <= n < |w| ==> DecodeElement(schema, order, vo, w[n].0, w[n].1).Ok?
    decreases |cands| - k
  {
    if k < |cands| {
      var c := cands[k];
      var subs := FindAll(e, BasemodelName(schema(c)));
      var w := Work(schema, e, cands, k);
      var w' := Work(schema, e, cands, k + 1);
      WorkSplit(schema, e, cands, k);
      ListFromStep(schema, order, vo, e, cands, k, acc);
      DecodeEachOk(schema, order, vo, e, c, 0, acc);
      var mid := DecodeEach(schema, order, vo, e, c, 0, acc);
      if mid.Ok? {
        ListFromOk(schema, order, vo, e, cands, k + 1, mid.value);
        if ListFrom(schema, order, vo, e, cands, k + 1, mid.value).Err? {
          var n :| 0 <= n < |w'| && DecodeElement(schema, order, vo, w'[n].0, w'[n].1).Err?;
          assert w[n + |subs|] == w'[n];
        }
      } else {
        var n :| 0 <= n < |subs| && DecodeElement(schema, order, vo, subs[n], c).Err?;
        assert w[n] == (subs[n], c);
      }
    }
  }


  /** When it succeeds, it appends one decoding per visited child to acc, in the order of Work. */
  lemma {:induction false} ListFromValue(schema: Schema, order: set<ModelId> -> seq<ModelId>, vo: ValidateOptions, e: Element, cands: seq<ModelId>, k: nat, acc: seq<Raw>, r: seq<Raw>)
    requires k <= |cands|
    requires ListFrom(schema, order, vo, e, cands, k, acc) == Ok(r)
    ensures var w := Work(schema, e, cands, k);
      |r| == |acc| + |w| && r[..|acc|] == acc
      && forall n :: 0 <= n < |w| ==> DecodeElement(schema, order, vo, w[n].0, w[n].1) == Ok(r[|acc| + n])
    decreases |cands| - k
  {
    if k < |cands| {
      var c := cands[k];
      var subs := FindAll(e, BasemodelName(schema(c)));
      var w := Work(schema, e, cands, k);
      var w' := Work(schema, e, cands, k + 1);
      WorkSplit(schema, e, cands, k);
      ListFromStep(schema, order, vo, e, cands, k, acc);
      DecodeEachValue(schema, order, vo, e, c, 0, acc);
      var mid := DecodeEach(schema, order, vo, e, c, 0, acc).value;
      assert ListFrom(schema, order, vo, e, cands, k + 1, mid) == Ok(r);
      ListFromValue(schema, order, vo, e, cands, k + 1, mid, r);
      assert r[..|acc|] == r[..|mid|][..|acc|];
      assert forall n :: 0 <= n < |mid| ==> r[n] == r[..|mid|][n];
      forall n | 0 <= n < |w|
        ensures DecodeElement(schema, order, vo, w[n].0, w[n].1) == Ok(r[|acc| + n])
      {
        if n < |subs| {
          assert w[n] == (subs[n], c);
          assert r[|acc| + n] == mid[|acc| + n];
        } else {
          assert w[n] == w'[n - |subs|];
          assert |acc| + n == |mid| + (n - |subs|);
        }
      }
    }
  }

  /** xs lists exactly the members of s, each of them once. */
  predicate Lists(xs: seq<ModelId>, s: set<ModelId>)
  {
    (forall c :: c in xs ==> c in s) && (forall c :: c in s ==> c in xs) && |xs| == |s|
    && forall p, q :: 0 <= p < q < |xs| ==> xs[p] != xs[q]
  }

  /** `order` iterates a set as Python does: each member once, and nothing else. */
  ghost predicate Enumerates(order: set<ModelId> -> seq<ModelId>)
  {
    forall s :: Lists(order(s), s)
  }

  /** Over a listing of s, some candidate is found exactly when some member of s is. */
  lemma LastFoundSome(schema: Schema, e: Element, cands: seq<ModelId>, s: set<ModelId>)
    requires Lists(cands, s)
    ensures LastFound(schema, e, cands, 0).Some? <==> exists c :: c in s && Found(schema, e, c)
  {
    if exists c :: c in s && Found(schema, e, c) {
      var c :| c in s && Found(schema, e, c);
      var n :| 0 <= n < |cands| && cands[n] == c;
    }
  }

  /** The only listing of a singleton is that one member. */
  lemma ListsSingleton(xs: seq<ModelId>, a: ModelId)
    requires Lists(xs, {a})
    ensures xs == [a]
  {
    assert xs[0] in xs;
  }

  /**
   * Field i of class m leaves a key in the bag read from e: a record list
   * always does, a record field when a child carries the tag of one of its
   * candidate classes, any other field when its attribute (or, for the
   * content field, the text) is there.
   */
  predicate Present(schema: Schema, vo: ValidateOptions, e: Element, m: ModelId, i: nat)
    requires i < |schema(m).fields|
  {
    var f := schema(m).fields[i];
    f.annotation.Some? && KindOf(f.annotation.value).Ok? && DecodeKey(vo.byAlias, f).Ok?
    && var kind := KindOf(f.annotation.value).value;
       if kind.isBasemodel then
         var types := CandidateTypes(vo.search, f.annotation.value);
         types.Ok? && (kind.isList || exists c :: c in types.value && Found(schema, e, c))
       else ScalarSource(e, f, DecodeKey(vo.byAlias, f).value).Some?
  }

  /** One field adds its key exactly when it is present, and leaves every other key as it was. */
  lemma DecodeFieldKeys(schema: Schema, order: set<ModelId> -> seq<ModelId>, vo: ValidateOptions, e: Element, m: ModelId, i: nat, data: Dict.Dict<Raw>)
    requires Enumerates(order)
    requires i < |schema(m).fields|
    requires DecodeField(schema, order, vo, e, m, i, data).Ok?
    ensures DecodeKey(vo.byAlias, schema(m).fields[i]).Ok?
    ensures var r := DecodeField(schema, order, vo, e, m, i, data).value;
      var key := DecodeKey(vo.byAlias, schema(m).fields[i]).value;
      Dict.Keys(r) == Dict.Keys(data) + (if Present(schema, vo, e, m, i) then {key} else {})
      && forall k' :: k' != key ==> Dict.Get(r, k') == Dict.Get(data, k')
  {
    var f := schema(m).fields[i];
    var t := f.annotation.value;
    var kind := KindOf(t).value;
    var key := DecodeKey(vo.byAlias, f).value;
    if kind.isBasemodel && !kind.isList {
      var types := CandidateTypes(vo.search, t).value;
      var cands := order(types);
      assert Lists(cands, types);
      LastFoundSome(schema, e, cands, types);
      SingularFromValue(schema, order, vo, e, key, cands, 0, data);
    }
  }

  /** The annotation of field i of class m classifies without error, with the given flags. */
  predicate Classified(schema: Schema, m: ModelId, i: nat, isList: bool, isBasemodel: bool)
    requires i < |schema(m).fields|
  {
    var f := schema(m).fields[i];
    f.annotation.Some? && KindOf(f.annotation.value) == Ok(Kind(isList, isBasemodel))
  }

  /** A present scalar field stores the raw text of its attribute (or, for the content field, of the element's text)... */
  lemma DecodeScalarValue(schema: Schema, order: set<ModelId> -> seq<ModelId>, vo: ValidateOptions, e: Element, m: ModelId, i: nat, data: Dict.Dict<Raw>)
    requires i < |schema(m).fields|
    requires DecodeField(schema, order, vo, e, m, i, data).Ok?
    requires Present(schema, vo, e, m, i) && Classified(schema, m, i, false, false)
    ensures var f := schema(m).fields[i];
      var key := DecodeKey(vo.byAlias, f).value;
      Dict.Get(DecodeField(schema, order, vo, e, m, i, data).value, key) == Some(RawText(ScalarSource(e, f, key).value))
  {
  }

  /**
   * ...a present record field stores the decoding of the child of a
   * candidate class, the last one found in iteration order...
   */
  lemma DecodeRecordValue(schema: Schema, order: set<ModelId> -> seq<ModelId>, vo: ValidateOptions, e: Element, m: ModelId, i: nat, data: Dict.Dict<Raw>)
    requires Enumerates(order)
    requires i < |schema(m).fields|
    requires DecodeField(schema, order, vo, e, m, i, data).Ok?
    requires Present(schema, vo, e, m, i) && Classified(schema, m, i, false, true)
    ensures var f := schema(m).fields[i];
      var types := CandidateTypes(vo.search, f.annotation.value).value;
      var cands := order(types);
      LastFound(schema, e, cands, 0).Some?
      && var n := LastFound(schema, e, cands, 0).value;
      var got := Dict.Get(DecodeField(schema, order, vo, e, m, i, data).value, DecodeKey(vo.byAlias, f).value);
      cands[n] in types && got.Some? && DecodeElement(schema, order, vo, ChildOf(schema, e, cands[n]), cands[n]) == Ok(got.value)
  {
    var f := schema(m).fields[i];
    var key := DecodeKey(vo.byAlias, f).value;
    var types := CandidateTypes(vo.search, f.annotation.value).value;
    var cands := order(types);
    assert Lists(cands, types);
    LastFoundSome(schema, e, cands, types);
    assert DecodeField(schema, order, vo, e, m, i, data) == SingularFrom(schema, order, vo, e, key, cands, 0, data);
    SingularFromValue(schema, order, vo, e, key, cands, 0, data);
  }

  /** The children in w that are visited for candidate c, in order. */
  function ChildrenFor(w: seq<(Element, ModelId)>, c: ModelId): seq<Element>
  {
    if w == [] then []
    else (if w[0].1 == c then [w[0].0] else []) + ChildrenFor(w[1..], c)
  }

  /** Selecting one candidate's children distributes over concatenation. */
  lemma {:induction false} ChildrenForAppend(a: seq<(Element, ModelId)>, b: seq<(Element, ModelId)>, c: ModelId)
    ensures ChildrenFor(a + b, c) == ChildrenFor(a, c) + ChildrenFor(b, c)
    decreases |a|
  {
    if a == [] {
      assert a + b == b;
    } else {
      var h := if a[0].1 == c then [a[0].0] else [];
      assert (a + b)[0] == a[0];
      assert (a + b)[1..] == a[1..] + b;
      assert ChildrenFor(a + b, c) == h + ChildrenFor(a[1..] + b, c);
      ChildrenForAppend(a[1..], b, c);
      assert ChildrenFor(a, c) == h + ChildrenFor(a[1..], c);
    }
  }

  /** The block of children Work visits for candidate d holds them for c exactly when d is c. */
  lemma {:induction false} BlockFor(subs: seq<Element>, d: ModelId, c: ModelId)
    ensures ChildrenFor(Paired(subs, d), c) == if d == c then subs else []
    decreases |subs|
  {
    if subs != [] {
      var b := Paired(subs, d);
      var rest := subs[1..];
      assert b[1..] == Paired(rest, d);
      BlockFor(rest, d, c);
      assert subs == [subs[0]] + rest;
    }
  }

  /** Work from candidate k on: candidate k's children, then Work from k + 1 on. */
  lemma WorkStep(schema: Schema, e: Element, cands: seq<ModelId>, k: nat)
    requires k < |cands|
    ensures Work(schema, e, cands, k) == Paired(FindAll(e, BasemodelName(schema(cands[k]))), cands[k]) + Work(schema, e, cands, k + 1)
  {
  }

  /** Class c is among the candidates from k on. */
  predicate Occurs(cands: seq<ModelId>, k: nat, c: ModelId)
    decreases |cands| - k
  {
    k < |cands| && (cands[k] == c || Occurs(cands, k + 1, c))
  }

  /** The candidates from k on are pairwise distinct. */
  predicate DistinctFrom(cands: seq<ModelId>, k: nat)
    decreases |cands| - k
  {
    k >= |cands| || (!Occurs(cands, k + 1, cands[k]) && DistinctFrom(cands, k + 1))
  }

  /** Occurs is membership in the candidates from k on. */
  lemma {:induction false} OccursIn(cands: seq<ModelId>, k: nat, c: ModelId)
    requires k <= |cands|
    ensures Occurs(cands, k, c) <==> c in cands[k..]
    decreases |cands| - k
  {
    if k < |cands| {
      OccursIn(cands, k + 1, c);
      assert cands[k..] == [cands[k]] + cands[k + 1..];
    }
  }

  /** Candidates that differ pairwise from k on are DistinctFrom k. */
  lemma {:induction false} DistinctFromAll(cands: seq<ModelId>, k: nat)
    requires k <= |cands|
    requires forall p, q :: k <= p < q < |cands| ==> cands[p] != cands[q]
    ensures DistinctFrom(cands, k)
    decreases |cands| - k
  {
    if k < |cands| {
      OccursIn(cands, k + 1, cands[k]);
      var rest := cands[k + 1..];
      forall q | 0 <= q < |rest|
        ensures rest[q] != cands[k]
      {
        assert rest[q] == cands[k + 1 + q];
      }
      DistinctFromAll(cands, k + 1);
    }
  }

  /** Over DistinctFrom candidates, Work visits for c exactly its `findall` children when c occurs, and nothing otherwise. */
  lemma {:induction false} WorkOccurs(schema: Schema, e: Element, cands: seq<ModelId>, k: nat, c: ModelId)
    requires k <= |cands| && DistinctFrom(cands, k)
    ensures ChildrenFor(Work(schema, e, cands, k), c) == if Occurs(cands, k, c) then FindAll(e, BasemodelName(schema(c))) else []
    decreases |cands| - k
  {
    if k < |cands| {
      var d := cands[k];
      var subs := FindAll(e, BasemodelName(schema(d)));
      var w' := Work(schema, e, cands, k + 1);
      WorkStep(schema, e, cands, k);
      ChildrenForAppend(Paired(subs, d), w', c);
      BlockFor(subs, d, c);
      WorkOccurs(schema, e, cands, k + 1, c);
      if d == c {
        assert subs + [] == subs;
      } else {
        assert [] + ChildrenFor(w', c) == ChildrenFor(w', c);
      }
    }
  }

  /** Over distinct candidates, Work visits for c exactly its `findall` children when c is among them, and nothing otherwise. */
  lemma WorkFor(schema: Schema, e: Element, cands: seq<ModelId>, k: nat, c: ModelId)
    requires k <= |cands|
    requires forall p, q :: k <= p < q < |cands| ==> cands[p] != cands[q]
    ensures ChildrenFor(Work(schema, e, cands, k), c) == if c in cands[k..] then FindAll(e, BasemodelName(schema(c))) else []
  {
    DistinctFromAll(cands, k);
    WorkOccurs(schema, e, cands, k, c);
    OccursIn(cands, k, c);
  }

  /**
   * ...and a record list stores one decoding per child it visits, in the
   * order of Work: for each candidate class, all the direct children that
   * carry its tag, once and in document order, and no other child.
   */
  lemma DecodeListValue(schema: Schema, order: set<ModelId> -> seq<ModelId>, vo: ValidateOptions, e: Element, m: ModelId, i: nat, data: Dict.Dict<Raw>)
    requires Enumerates(order)
    requires i < |schema(m).fields|
    requires DecodeField(schema, order, vo, e, m, i, data).Ok?
    requires Classified(schema, m, i, true, true)
    ensures DecodeKey(vo.byAlias, schema(m).fields[i]).Ok? && CandidateTypes(vo.search, schema(m).fields[i].annotation.value).Ok?
    ensures var f := schema(m).fields[i];
      var types := CandidateTypes(vo.search, f.annotation.value).value;
      var w := Work(schema, e, order(types), 0);
      var got := Dict.Get(DecodeField(schema, order, vo, e, m, i, data).value, DecodeKey(vo.byAlias, f).value);
      got.Some? && got.value.RawList? && |got.value.items| == |w|
      && (forall n :: 0 <= n < |w| ==> DecodeElement(schema, order, vo, w[n].0, w[n].1) == Ok(got.value.items[n]))
      && forall c :: ChildrenFor(w, c) == if c in types then FindAll(e, BasemodelName(schema(c))) else []
  {
    var f := schema(m).fields[i];
    var key := DecodeKey(vo.byAlias, f).value;
    var types := CandidateTypes(vo.search, f.annotation.value).value;
    var cands := order(types);
    var l := ListFrom(schema, order, vo, e, cands, 0, []);
    assert l.Ok?;
    assert DecodeField(schema, order, vo, e, m, i, data) == Ok(Dict.Put(data, key, RawList(l.value)));
    ListFromValue(schema, order, vo, e, cands, 0, [], l.value);
    assert Lists(cands, types);
    assert cands[0..] == cands;
    forall c
      ensures ChildrenFor(Work(schema, e, cands, 0), c) == if c in types then FindAll(e, BasemodelName(schema(c))) else []
    {
      WorkFor(schema, e, cands, 0, c);
    }
  }

  /** The keys of the present fields from i on. */
  function PresentKeysFrom(schema: Schema, vo: ValidateOptions, e: Element, m: ModelId, i: nat): set<string>
    requires i <= |schema(m).fields|
    decreases |schema(m).fields| - i
  {
    if i == |schema(m).fields| then {}
    else
      (if Present(schema, vo, e, m, i) then {DecodeKey(vo.byAlias, schema(m).fields[i]).value} else {})
      + PresentKeysFrom(schema, vo, e, m, i + 1)
  }

  /** One unfolding of the decoder's field loop. */
  lemma DecodeFieldsFrom1(schema: Schema, order: set<ModelId> -> seq<ModelId>, vo: ValidateOptions, e: Element, m: ModelId, i: nat, data: Dict.Dict<Raw>)
    requires i < |schema(m).fields|
    requires DecodeFieldsFrom(schema, order, vo, e, m, i, data).Ok?
    ensures DecodeField(schema, order, vo, e, m, i, data).Ok?
    ensures DecodeFieldsFrom(schema, order, vo, e, m, i, data)
      == DecodeFieldsFrom(schema, order, vo, e, m, i + 1, DecodeField(schema, order, vo, e, m, i, data).value)
  {
  }

  /** The field loop from field i on adds exactly the keys of the present fields. */
  lemma {:induction false} DecodeFieldsKeys(schema: Schema, order: set<ModelId> -> seq<ModelId>, vo: ValidateOptions, e: Element, m: ModelId, i: nat, data: Dict.Dict<Raw>)
    requires Enumerates(order)
    requires i <= |schema(m).fields|
    requires DecodeFieldsFrom(schema, order, vo, e, m, i, data).Ok?
    ensures Dict.Keys(DecodeFieldsFrom(schema, order, vo, e, m, i, data).value)
      == Dict.Keys(data) + PresentKeysFrom(schema, vo, e, m, i)
    decreases |schema(m).fields| - i
  {
    if i < |schema(m).fields| {
      DecodeFieldsFrom1(schema, order, vo, e, m, i, data);
      DecodeFieldKeys(schema, order, vo, e, m, i, data);
      DecodeFieldsKeys(schema, order, vo, e, m, i + 1, DecodeField(schema, order, vo, e, m, i, data).value);
    }
  }

  /** `convert_from_xml` returns a bag keyed by exactly the present fields: absent attributes and records become missing keys. */
  lemma DecodeElementKeys(schema: Schema, order: set<ModelId> -> seq<ModelId>, vo: ValidateOptions, e: Element, m: ModelId)
    requires Enumerates(order)
    requires DecodeElement(schema, order, vo, e, m).Ok?
    ensures DecodeElement(schema, order, vo, e, m).value.RawBag?
    ensures Dict.Keys(DecodeElement(schema, order, vo, e, m).value.entries) == PresentKeysFrom(schema, vo, e, m, 0)
  {
    DecodeFieldsKeys(schema, order, vo, e, m, 0, []);
  }

  // ------------------------------------------- unions with a list arm

  /** A record-like field whose search finds no candidate fails with "has no basemodel type" once its key is read. */
  lemma NoCandidatesField(schema: Schema, order: set<ModelId> -> seq<ModelId>, vo: ValidateOptions, e: Element, m: ModelId, i: nat, data: Dict.Dict<Raw>)
    requires i < |schema(m).fields|
    requires var f := schema(m).fields[i];
      f.annotation.Some? && KindOf(f.annotation.value).Ok? && KindOf(f.annotation.value).value.isBasemodel
      && CandidateTypes(vo.search, f.annotation.value) == Ok({})
    ensures DecodeField(schema, order, vo, e, m, i, data).Err?
    ensures DecodeKey(vo.byAlias, schema(m).fields[i]).Ok? ==>
      DecodeField(schema, order, vo, e, m, i, data) == Err(NoBasemodelTypes(DecodeKey(vo.byAlias, schema(m).fields[i]).value))
  {
  }

  /** Such a field at position i makes the field loop fail from every earlier position, whatever the element. */
  lemma {:induction false} NoCandidatesFails(schema: Schema, order: set<ModelId> -> seq<ModelId>, vo: ValidateOptions, e: Element, m: ModelId, i: nat, j: nat, data: Dict.Dict<Raw>)
    requires j <= i < |schema(m).fields|
    requires var f := schema(m).fields[i];
      f.annotation.Some? && KindOf(f.annotation.value).Ok? && KindOf(f.annotation.value).value.isBasemodel
      && CandidateTypes(vo.search, f.annotation.value) == Ok({})
    ensures DecodeFieldsFrom(schema, order, vo, e, m, j, data).Err?
    decreases i - j
  {
    var d := DecodeField(schema, order, vo, e, m, j, data);
    if j == i {
      NoCandidatesField(schema, order, vo, e, m, i, data);
    } else if d.Ok? {
      NoCandidatesFails(schema, order, vo, e, m, i, j + 1, d.value);
    }
  }

  /**
   * As written, `model_validate_xml` of a class with an `Optional[List[A]]`
   * field raises for every document, and once the loop reaches that field
   * the error is "has no basemodel type".
   */
  lemma OptionalListRejected(schema: Schema, order: set<ModelId> -> seq<ModelId>, byAlias: bool, e: Element, m: ModelId, i: nat, a: ModelId, data: Dict.Dict<Raw>)
    requires i < |schema(m).fields| && schema(m).fields[i].annotation == Some(Union([Seq([Model(a)]), NoneType]))
    ensures DecodeElement(schema, order, ValidateOptions(byAlias, RecordArms), e, m).Err?
    ensures DecodeKey(byAlias, schema(m).fields[i]).Ok? ==>
      DecodeFieldsFrom(schema, order, ValidateOptions(byAlias, RecordArms), e, m, i, data)
        == Err(NoBasemodelTypes(DecodeKey(byAlias, schema(m).fields[i]).value))
  {
    var vo := ValidateOptions(byAlias, RecordArms);
    OptionalListAsWritten(a);
    NoCandidatesFails(schema, order, vo, e, m, i, 0, []);
    NoCandidatesField(schema, order, vo, e, m, i, data);
  }

  /** With the single candidate a, Work is the `findall` children of a. */
  lemma SingleCandidateWork(schema: Schema, e: Element, a: ModelId)
    ensures var subs := FindAll(e, BasemodelName(schema(a)));
      var w := Work(schema, e, [a], 0);
      |w| == |subs| && forall n :: 0 <= n < |subs| ==> w[n] == (subs[n], a)
  {
    WorkSplit(schema, e, [a], 0);
  }

  /** A list field with the single candidate a succeeds exactly when each `findall` child of a decodes... */
  lemma SingleCandidateOk(schema: Schema, order: set<ModelId> -> seq<ModelId>, vo: ValidateOptions, e: Element, a: ModelId)
    ensures var subs := FindAll(e, BasemodelName(schema(a)));
      ListFrom(schema, order, vo, e, [a], 0, []).Ok? <==> forall n :: 0 <= n < |subs| ==> DecodeElement(schema, order, vo, subs[n], a).Ok?
  {
    SingleCandidateWork(schema, e, a);
    ListFromOk(schema, order, vo, e, [a], 0, []);
  }

  /** ...and then holds their decodings, in document order. */
  lemma SingleCandidateValue(schema: Schema, order: set<ModelId> -> seq<ModelId>, vo: ValidateOptions, e: Element, a: ModelId)
    requires ListFrom(schema, order, vo, e, [a], 0, []).Ok?
    ensures var subs := FindAll(e, BasemodelName(schema(a)));
      var l := ListFrom(schema, order, vo, e, [a], 0, []).value;
      |l| == |subs| && forall n :: 0 <= n < |subs| ==> DecodeElement(schema, order, vo, subs[n], a) == Ok(l[n])
  {
    SingleCandidateWork(schema, e, a);
    ListFromValue(schema, order, vo, e, [a], 0, [], ListFrom(schema, order, vo, e, [a], 0, []).value);
  }

  /** With the corrected search, an `Optional[List[A]]` field stores the list its single candidate yields. */
  lemma OptionalListField(schema: Schema, order: set<ModelId> -> seq<ModelId>, byAlias: bool, e: Element, m: ModelId, i: nat, a: ModelId, data: Dict.Dict<Raw>)
    requires Enumerates(order)
    requires i < |schema(m).fields| && schema(m).fields[i].annotation == Some(Union([Seq([Model(a)]), NoneType]))
    requires DecodeKey(byAlias, schema(m).fields[i]).Ok?
    ensures var vo := ValidateOptions(byAlias, RecordAndListArms);
      var l := ListFrom(schema, order, vo, e, [a], 0, []);
      DecodeField(schema, order, vo, e, m, i, data)
        == if l.Err? then Err(l.error) else Ok(Dict.Put(data, DecodeKey(byAlias, schema(m).fields[i]).value, RawList(l.value)))
  {
    OptionalListAsWritten(a);
    assert Lists(order({a}), {a});
    ListsSingleton(order({a}), a);
  }

  /**
   * With the corrected search the same field decodes: it succeeds exactly
   * when every `<A>` child decodes, and stores their decodings in document
   * order.
   */
  lemma OptionalListDecodes(schema: Schema, order: set<ModelId> -> seq<ModelId>, byAlias: bool, e: Element, m: ModelId, i: nat, a: ModelId, data: Dict.Dict<Raw>)
    requires Enumerates(order)
    requires i < |schema(m).fields| && schema(m).fields[i].annotation == Some(Union([Seq([Model(a)]), NoneType]))
    requires DecodeKey(byAlias, schema(m).fields[i]).Ok?
    ensures var vo := ValidateOptions(byAlias, RecordAndListArms);
      var subs := FindAll(e, BasemodelName(schema(a)));
      var r := DecodeField(schema, order, vo, e, m, i, data);
      (r.Ok? <==> forall n :: 0 <= n < |subs| ==> DecodeElement(schema, order, vo, subs[n], a).Ok?)
      && (r.Ok? ==>
        var got := Dict.Get(r.value, DecodeKey(byAlias, schema(m).fields[i]).value);
        got.Some? && got.value.RawList? && |got.value.items| == |subs|
        && forall n :: 0 <= n < |subs| ==> DecodeElement(schema, order, vo, subs[n], a) == Ok(got.value.items[n]))
  {
    var vo := ValidateOptions(byAlias, RecordAndListArms);
    OptionalListField(schema, order, byAlias, e, m, i, a, data);
    SingleCandidateOk(schema, order, vo, e, a);
    if ListFrom(schema, order, vo, e, [a], 0, []).Ok? {
      SingleCandidateValue(schema, order, vo, e, a);
    }
  }

  // ---------------------------------------------------------- round trip

  /** The key field i of class m is read back under; defined once its alias is a string. */
  function FieldKey(schema: Schema, vo: ValidateOptions, m: ModelId, i: nat): string
    requires i < |schema(m).fields| && DecodeKey(vo.byAlias, schema(m).fields[i]).Ok?
  {
    DecodeKey(vo.byAlias, schema(m).fields[i]).value
  }

  /**
   * Every field of class m is a scalar: annotated, classified as neither a
   * list nor a record, with a string key; field names and keys are
   * pairwise distinct.
   */
  predicate ScalarClass(schema: Schema, vo: ValidateOptions, m: ModelId)
  {
    var fs := schema(m).fields;
    (forall i :: 0 <= i < |fs| ==> Classified(schema, m, i, false, false) && DecodeKey(vo.byAlias, fs[i]).Ok?)
    && (forall i, j :: 0 <= i < j < |fs| ==> fs[i].name != fs[j].name && DecodeKey(vo.byAlias, fs[i]) != DecodeKey(vo.byAlias, fs[j]))
  }

  /** Every attribute of class m is written under the key it is read back from. */
  predicate KeysAgree(schema: Schema, o: DumpOptions, vo: ValidateOptions, m: ModelId)
  {
    forall i :: 0 <= i < |schema(m).fields| && schema(m).fields[i].name != ContentField
      ==> DecodeKey(vo.byAlias, schema(m).fields[i]) == Ok(AttrNameOf(o, schema(m).fields[i]))
  }

  /** The attribute name the encoder writes field f under. */
  function AttrNameOf(o: DumpOptions, f: FieldInfo): string
  {
    SelectName(o, f.name, f.serializationAlias)
  }

  /** Without aliases on either side, names are written and read as they are. */
  lemma KeysAgreeByName(schema: Schema, o: DumpOptions, vo: ValidateOptions, m: ModelId)
    requires !o.byAlias && !vo.byAlias
    ensures KeysAgree(schema, o, vo, m)
  {
  }

  /** With aliases on both sides, equal non-empty serialization and validation aliases agree. */
  lemma KeysAgreeByAlias(schema: Schema, o: DumpOptions, vo: ValidateOptions, m: ModelId)
    requires o.byAlias && vo.byAlias
    requires forall i :: 0 <= i < |schema(m).fields| ==>
      var f := schema(m).fields[i];
      f.serializationAlias.Some? && f.serializationAlias.value != "" && f.validationAlias == ValidationStr(f.serializationAlias.value)
    ensures KeysAgree(schema, o, vo, m)
  {
  }

  /** One scalar field read from e: its attribute (or, for the content field, the text) is stored as raw text when there. */
  lemma DecodeScalarField(schema: Schema, order: set<ModelId> -> seq<ModelId>, vo: ValidateOptions, e: Element, m: ModelId, i: nat, data: Dict.Dict<Raw>)
    requires i < |schema(m).fields| && Classified(schema, m, i, false, false) && DecodeKey(vo.byAlias, schema(m).fields[i]).Ok?
    ensures var key := FieldKey(schema, vo, m, i);
      DecodeField(schema, order, vo, e, m, i, data)
        == Ok(match ScalarSource(e, schema(m).fields[i], key)
              case None => data
              case Some(value) => Dict.Put(data, key, RawText(value)))
  {
  }

  /**
   * Over a scalar class the field loop from field i on succeeds on any
   * element, and each field's key holds what it reads (its attribute, or
   * the text for the content field) when that is there, and is left as it
   * was otherwise...
   */
  lemma {:induction false} DecodeScalarsGet(schema: Schema, order: set<ModelId> -> seq<ModelId>, vo: ValidateOptions, e: Element, m: ModelId, i: nat, data: Dict.Dict<Raw>)
    requires ScalarClass(schema, vo, m) && i <= |schema(m).fields|
    ensures DecodeFieldsFrom(schema, order, vo, e, m, i, data).Ok?
    ensures var r := DecodeFieldsFrom(schema, order, vo, e, m, i, data).value;
      var fs := schema(m).fields;
      forall j :: 0 <= j < |fs| ==>
        var src := ScalarSource(e, fs[j], FieldKey(schema, vo, m, j));
        Dict.Get(r, FieldKey(schema, vo, m, j)) == if i <= j && src.Some? then Some(RawText(src.value)) else Dict.Get(data, FieldKey(schema, vo, m, j))
    decreases |schema(m).fields| - i
  {
    var fs := schema(m).fields;
    if i < |fs| {
      var key := FieldKey(schema, vo, m, i);
      DecodeScalarField(schema, order, vo, e, m, i, data);
      var d' := DecodeField(schema, order, vo, e, m, i, data).value;
      DecodeScalarsGet(schema, order, vo, e, m, i + 1, d');
      var r := DecodeFieldsFrom(schema, order, vo, e, m, i + 1, d').value;
      assert DecodeFieldsFrom(schema, order, vo, e, m, i, data) == Ok(r);
      forall j | 0 <= j < |fs|
        ensures var src := ScalarSource(e, fs[j], FieldKey(schema, vo, m, j));
          Dict.Get(r, FieldKey(schema, vo, m, j)) == if i <= j && src.Some? then Some(RawText(src.value)) else Dict.Get(data, FieldKey(schema, vo, m, j))
      {
        if j != i {
          if j < i { assert DecodeKey(vo.byAlias, fs[j]) != DecodeKey(vo.byAlias, fs[i]); }
          else { assert DecodeKey(vo.byAlias, fs[i]) != DecodeKey(vo.byAlias, fs[j]); }
          assert FieldKey(schema, vo, m, j) != key;
        }
      }
    }
  }

  /** ...and it adds exactly the present fields' keys. */
  lemma {:induction false} DecodeScalarsKeys(schema: Schema, order: set<ModelId> -> seq<ModelId>, vo: ValidateOptions, e: Element, m: ModelId, i: nat, data: Dict.Dict<Raw>)
    requires ScalarClass(schema, vo, m) && i <= |schema(m).fields|
    ensures DecodeFieldsFrom(schema, order, vo, e, m, i, data).Ok?
    ensures Dict.Keys(DecodeFieldsFrom(schema, order, vo, e, m, i, data).value) == Dict.Keys(data) + PresentKeysFrom(schema, vo, e, m, i)
    decreases |schema(m).fields| - i
  {
    if i < |schema(m).fields| {
      DecodeScalarField(schema, order, vo, e, m, i, data);
      var d' := DecodeField(schema, order, vo, e, m, i, data).value;
      DecodeScalarsKeys(schema, order, vo, e, m, i + 1, d');
      assert DecodeFieldsFrom(schema, order, vo, e, m, i, data) == DecodeFieldsFrom(schema, order, vo, e, m, i + 1, d');
    }
  }

  /** A key among the present fields' keys from i on belongs to one of them. */
  lemma {:induction false} PresentKeysFromHas(schema: Schema, vo: ValidateOptions, e: Element, m: ModelId, i: nat, k: string)
    requires i <= |schema(m).fields| && k in PresentKeysFrom(schema, vo, e, m, i)
    ensures exists j :: i <= j < |schema(m).fields| && Present(schema, vo, e, m, j) && DecodeKey(vo.byAlias, schema(m).fields[j]) == Ok(k)
    decreases |schema(m).fields| - i
  {
    if !(Present(schema, vo, e, m, i) && DecodeKey(vo.byAlias, schema(m).fields[i]) == Ok(k)) {
      PresentKeysFromHas(schema, vo, e, m, i + 1, k);
    }
  }

  /** The values of a flat model: none is a record. */
  predicate FlatValues(model: Value)
    requires model.Record?
  {
    forall i :: 0 <= i < |model.fields| ==> !model.fields[i].Record?
  }

  /** One scalar field of a record: None is skipped, the content sets the text, any other value sets its attribute. */
  lemma EncodeScalarField(schema: Schema, o: DumpOptions, show: Value -> string, el: Element, obj: Value, i: nat)
    requires obj.Record? && Conforms(schema, obj) && i < |obj.fields|
    requires Classified(schema, obj.model, i, false, false) && !obj.fields[i].Record?
    ensures var f := schema(obj.model).fields[i];
      var v := obj.fields[i];
      EncodeField(schema, o, show, el, obj, i)
        == Ok(if v.PyNone? then el
              else if f.name == ContentField then el.(text := Some(show(v)))
              else el.(attrib := Dict.Put(el.attrib, AttrNameOf(o, f), show(v))))
  {
  }

  /**
   * Over a flat model the encoder's field loop from field i on succeeds,
   * keeps the tag and the children, writes every set attribute field's
   * printed value under its name and leaves the other names as they were...
   */
  lemma {:induction false} EncodeScalarsAttrib(schema: Schema, o: DumpOptions, vo: ValidateOptions, show: Value -> string, el: Element, obj: Value, i: nat)
    requires obj.Record? && Conforms(schema, obj) && i <= |obj.fields|
    requires ScalarClass(schema, vo, obj.model) && KeysAgree(schema, o, vo, obj.model) && FlatValues(obj)
    ensures EncodeFieldsFrom(schema, o, show, el, obj, i).Ok?
    ensures var r := EncodeFieldsFrom(schema, o, show, el, obj, i).value;
      var fs := schema(obj.model).fields;
      r.tag == el.tag && r.children == el.children
      && forall j :: 0 <= j < |fs| && fs[j].name != ContentField ==>
           Dict.Get(r.attrib, AttrNameOf(o, fs[j])) == if i <= j && !obj.fields[j].PyNone? then Some(show(obj.fields[j])) else Dict.Get(el.attrib, AttrNameOf(o, fs[j]))
    decreases |obj.fields| - i
  {
    var fs := schema(obj.model).fields;
    if i < |fs| {
      assert Classified(schema, obj.model, i, false, false);
      EncodeScalarField(schema, o, show, el, obj, i);
      var el' := EncodeField(schema, o, show, el, obj, i).value;
      EncodeScalarsAttrib(schema, o, vo, show, el', obj, i + 1);
      var r := EncodeFieldsFrom(schema, o, show, el', obj, i + 1).value;
      assert EncodeFieldsFrom(schema, o, show, el, obj, i) == Ok(r);
      forall j | 0 <= j < |fs| && fs[j].name != ContentField
        ensures Dict.Get(r.attrib, AttrNameOf(o, fs[j]))
          == if i <= j && !obj.fields[j].PyNone? then Some(show(obj.fields[j])) else Dict.Get(el.attrib, AttrNameOf(o, fs[j]))
      {
        if j != i && fs[i].name != ContentField && !obj.fields[i].PyNone? {
          if j < i { assert DecodeKey(vo.byAlias, fs[j]) != DecodeKey(vo.byAlias, fs[i]); }
          else { assert DecodeKey(vo.byAlias, fs[i]) != DecodeKey(vo.byAlias, fs[j]); }
          assert AttrNameOf(o, fs[j]) != AttrNameOf(o, fs[i]);
        }
      }
    }
  }

  /**
   * ...and the text is the printed content when the content field follows,
   * or stays as it was when that is None or absent.
   */
  lemma {:induction false} EncodeScalarsText(schema: Schema, o: DumpOptions, vo: ValidateOptions, show: Value -> string, el: Element, obj: Value, i: nat)
    requires obj.Record? && Conforms(schema, obj) && i <= |obj.fields|
    requires ScalarClass(schema, vo, obj.model) && FlatValues(obj)
    ensures EncodeFieldsFrom(schema, o, show, el, obj, i).Ok?
    ensures var r := EncodeFieldsFrom(schema, o, show, el, obj, i).value;
      var fs := schema(obj.model).fields;
      (forall j :: i <= j < |fs| && fs[j].name == ContentField ==>
         r.text == if obj.fields[j].PyNone? then el.text else Some(show(obj.fields[j])))
      && ((forall j :: i <= j < |fs| ==> fs[j].name != ContentField) ==> r.text == el.text)
    decreases |obj.fields| - i
  {
    var fs := schema(obj.model).fields;
    if i < |fs| {
      assert Classified(schema, obj.model, i, false, false);
      EncodeScalarField(schema, o, show, el, obj, i);
      var el' := EncodeField(schema, o, show, el, obj, i).value;
      EncodeScalarsText(schema, o, vo, show, el', obj, i + 1);
      forall j | i < j < |fs|
        ensures fs[j].name != fs[i].name
      {
        assert fs[i].name != fs[j].name;
      }
    }
  }

  /** What each field of a flat model reads back from the root `model_dump_xml` builds: its printed value, or nothing for None. */
  lemma DumpedScalars(schema: Schema, o: DumpOptions, vo: ValidateOptions, show: Value -> string, model: Value)
    requires model.Record? && Conforms(schema, model)
    requires ScalarClass(schema, vo, model.model) && KeysAgree(schema, o, vo, model.model) && FlatValues(model)
    ensures DumpTree(schema, o, show, model).Ok?
    ensures var fs := schema(model.model).fields;
      forall i :: 0 <= i < |fs| ==>
        ScalarSource(DumpTree(schema, o, show, model).value, fs[i], FieldKey(schema, vo, model.model, i))
          == if model.fields[i].PyNone? then None else Some(show(model.fields[i]))
  {
    var fs := schema(model.model).fields;
    EncodeScalarsAttrib(schema, o, vo, show, Empty(BasemodelName(schema(model.model))), model, 0);
    EncodeScalarsText(schema, o, vo, show, Empty(BasemodelName(schema(model.model))), model, 0);
    var t := DumpTree(schema, o, show, model).value;
    forall i | 0 <= i < |fs|
      ensures ScalarSource(t, fs[i], FieldKey(schema, vo, model.model, i)) == if model.fields[i].PyNone? then None else Some(show(model.fields[i]))
    {
      if fs[i].name != ContentField {
        assert FieldKey(schema, vo, model.model, i) == AttrNameOf(o, fs[i]);
      }
    }
  }

  /** Over a scalar class, every key of the bag read from e is the key of a field that reads something. */
  lemma ScalarBagKeys(schema: Schema, order: set<ModelId> -> seq<ModelId>, vo: ValidateOptions, e: Element, m: ModelId)
    requires ScalarClass(schema, vo, m)
    ensures DecodeFieldsFrom(schema, order, vo, e, m, 0, []).Ok?
    ensures var fs := schema(m).fields;
      forall k :: k in Dict.Keys(DecodeFieldsFrom(schema, order, vo, e, m, 0, []).value) ==>
        exists j :: 0 <= j < |fs| && ScalarSource(e, fs[j], FieldKey(schema, vo, m, j)).Some? && DecodeKey(vo.byAlias, fs[j]) == Ok(k)
  {
    var fs := schema(m).fields;
    var none: Dict.Dict<Raw> := [];
    assert Dict.Keys(none) == {};
    DecodeScalarsKeys(schema, order, vo, e, m, 0, none);
    forall k | k in Dict.Keys(DecodeFieldsFrom(schema, order, vo, e, m, 0, []).value)
      ensures exists j :: 0 <= j < |fs| && ScalarSource(e, fs[j], FieldKey(schema, vo, m, j)).Some? && DecodeKey(vo.byAlias, fs[j]) == Ok(k)
    {
      PresentKeysFromHas(schema, vo, e, m, 0, k);
      var j :| 0 <= j < |fs| && Present(schema, vo, e, m, j) && DecodeKey(vo.byAlias, fs[j]) == Ok(k);
      assert Classified(schema, m, j, false, false);
    }
  }

  /**
   * The round trip of `model_dump_xml` and `model_validate_xml` for a flat
   * model: scalar fields only, one of them possibly `xml_content`, with
   * distinct names and keys, each attribute written under the key it is
   * read back from. Decoding the dumped root succeeds, and gives a bag whose
   * keys are exactly the set fields' keys: a set field's key holds its
   * printed value, a None field's key is missing.
   */
  lemma FlatRoundTrip(schema: Schema, order: set<ModelId> -> seq<ModelId>, o: DumpOptions, vo: ValidateOptions, show: Value -> string, model: Value)
    requires model.Record? && Conforms(schema, model)
    requires ScalarClass(schema, vo, model.model) && KeysAgree(schema, o, vo, model.model) && FlatValues(model)
    ensures DumpTree(schema, o, show, model).Ok?
    ensures var r := DecodeElement(schema, order, vo, DumpTree(schema, o, show, model).value, model.model);
      var fs := schema(model.model).fields;
      r.Ok? && r.value.RawBag?
      && (forall i :: 0 <= i < |fs| ==>
            Dict.Get(r.value.entries, FieldKey(schema, vo, model.model, i)) == if model.fields[i].PyNone? then None else Some(RawText(show(model.fields[i]))))
      && (forall k :: k in Dict.Keys(r.value.entries) <==>
            exists i :: 0 <= i < |fs| && !model.fields[i].PyNone? && DecodeKey(vo.byAlias, fs[i]) == Ok(k))
  {
    var m := model.model;
    var fs := schema(m).fields;
    DumpedScalars(schema, o, vo, show, model);
    var t := DumpTree(schema, o, show, model).value;
    DecodeScalarsGet(schema, order, vo, t, m, 0, []);
    ScalarBagKeys(schema, order, vo, t, m);
    var bag := DecodeFieldsFrom(schema, order, vo, t, m, 0, []).value;
    forall i | 0 <= i < |fs| && !model.fields[i].PyNone?
      ensures FieldKey(schema, vo, m, i) in Dict.Keys(bag)
    {
      assert Dict.Get(bag, FieldKey(schema, vo, m, i)).Some?;
    }
  }
}
