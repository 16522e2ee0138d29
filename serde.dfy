/**
 * The pydantic v2 engine (`model_dump_xml` / `model_validate_xml`): tag
 * names, the annotation classifier, the recursive encoder that fills an
 * element tree from a record instance, and the recursive decoder that turns
 * an element tree back into the keyed bag handed to validation.
 *
 * Each operation is given twice: a specification function (a suffix fold
 * over the loop the source runs) and a method with the source's loops,
 * proved equal to it.
 */
module Serde {
  import opened Wrappers
  import Dict
  import opened Xml
  import opened Py

  /** `model_config.get("xml_name")`: missing, a string, or some other object. */
  datatype ConfigName = NoConfigName | ConfigStr(name: string) | ConfigOther

  /** `FieldInfo.validation_alias`: unset, a string, or an AliasPath / AliasChoices object. */
  datatype ValidationAlias = NoValidationAlias | ValidationStr(alias: string) | ValidationObject

  /** What the engine reads of one entry of `model_fields`. */
  datatype FieldInfo = FieldInfo(
    name: string,
    annotation: Option<Type>,
    serializationAlias: Option<string>,
    validationAlias: ValidationAlias)

  /**
   * What the engine reads of a record class: its `__name__`, its
   * `__xml_name__` attribute when it has one, its `model_config["xml_name"]`
   * and its fields in declaration order.
   */
  datatype ModelDef = ModelDef(
    className: string,
    xmlNameAttr: Option<string>,
    configXmlName: ConfigName,
    fields: seq<FieldInfo>)

  /** Every record class the program declares, by identity. */
  type Schema = ModelId -> ModelDef

  /** The exceptions the engine raises. */
  datatype Error =
    | NoAnnotation(field: string)      // "Field ... has no annotation"
    | ListWithoutTypeArgs              // "Invalid list type ... (no type args)"
    | ListOfNonRecord                  // "Invalid list type ... (type args is not a basemodel)"
    | NoBasemodelTypes(field: string)  // "Field ... has no basemodel type(s)"
    | AliasNotString(field: string)    // "Field ... type is not a string"
    | NotIterable                      // TypeError from iterating a non-iterable list value

  /** The field name that holds an element's text. */
  const ContentField: string := "xml_content"

  /** The number of fields of each class. */
  function Arity(schema: Schema): ModelId -> nat
  {
    m => |schema(m).fields|
  }

  /** An instance has one value per declared field of its class, all the way down. */
  predicate Conforms(schema: Schema, v: Value)
  {
    Shaped(Arity(schema), v)
  }

  // ---------------------------------------------------------------- names

  /** `_get_basemodel_name`: the `__xml_name__` attribute, else a string `xml_name` in the config, else the class name. */
  function BasemodelName(d: ModelDef): (r: string)
    ensures d.xmlNameAttr.Some? ==> r == d.xmlNameAttr.value
    ensures d.xmlNameAttr.None? && d.configXmlName.ConfigStr? ==> r == d.configXmlName.name
    ensures d.xmlNameAttr.None? && !d.configXmlName.ConfigStr? ==> r == d.className
  {
    match d.xmlNameAttr
    case Some(n) => n
    case None =>
      match d.configXmlName
      case ConfigStr(n) => n
      case _ => d.className
  }

  /** The two options of `model_dump_xml` the encoder's closures capture. */
  datatype DumpOptions = DumpOptions(byAlias: bool, submodelByAlias: bool)

  /** `select_name`: the serialization alias when dumping by alias and there is one. */
  function SelectName(o: DumpOptions, name: string, alias: Option<string>): (r: string)
    ensures o.byAlias && alias.Some? ==> r == alias.value
    ensures !(o.byAlias && alias.Some?) ==> r == name
  {
    if o.byAlias && alias.Some? then alias.value else name
  }

  /** `select_submodel_name`: the same choice, gated by `submodel_by_alias`. */
  function SelectSubmodelName(o: DumpOptions, name: string, alias: Option<string>): (r: string)
    ensures o.submodelByAlias && alias.Some? ==> r == alias.value
    ensures !(o.submodelByAlias && alias.Some?) ==> r == name
  {
    if o.submodelByAlias && alias.Some? then alias.value else name
  }

  // ----------------------------------------------------------- classifier

  /** A sequence annotation every argument of which is a record class. */
  predicate IsRecordList(t: Type)
  {
    t.Seq? && t.args != [] && forall j :: 0 <= j < |t.args| ==> t.args[j].Model?
  }

  /** The error `_analyze_sequence` raises for an ill-formed sequence. */
  function SequenceError(t: Type): Error
  {
    if t.Seq? && t.args == [] then ListWithoutTypeArgs else ListOfNonRecord
  }

  /** `_analyze_sequence`: false for a non-sequence, true for a list of records, an error otherwise. */
  function AnalyzeSequence(t: Type): (r: Result<bool, Error>)
    ensures r == Ok(true) <==> IsRecordList(t)
    ensures r == Ok(false) <==> !t.Seq?
    ensures r.Err? ==> r.error == SequenceError(t)
  {
    if !t.Seq? then Ok(false)
    else if t.args == [] then Err(ListWithoutTypeArgs)
    else AllRecordArgs(t.args, 0)
  }

  /** The loop over the arguments of a sequence, from index i on. */
  function AllRecordArgs(args: seq<Type>, i: nat): (r: Result<bool, Error>)
    requires i <= |args|
    ensures r == Ok(true) <==> forall j :: i <= j < |args| ==> args[j].Model?
    ensures r != Ok(true) ==> r == Err(ListOfNonRecord)
    decreases |args| - i
  {
    if i == |args| then Ok(true)
    else if !args[i].Model? then Err(ListOfNonRecord)
    else AllRecordArgs(args, i + 1)
  }

  /** The pair `(is_list, is_basemodel)` `_analyze_annotation` returns. */
  datatype Kind = Kind(isList: bool, isBasemodel: bool)

  /** `_analyze_annotation`, as a fold over the arms of a union. */
  function KindOf(t: Type): Result<Kind, Error>
  {
    match t
    case Union(arms) => UnionKindFrom(arms, 0, Kind(false, false))
    case Str => Ok(Kind(false, false))
    case _ =>
      var isSeq :- AnalyzeSequence(t);
      if isSeq then Ok(Kind(true, true))
      else if t.Model? then Ok(Kind(false, true))
      else Ok(Kind(false, false))
  }

  /** The union loop from arm i on, with the flags gathered so far. */
  function UnionKindFrom(arms: seq<Type>, i: nat, k: Kind): Result<Kind, Error>
    requires i <= |arms|
    decreases |arms| - i
  {
    if i == |arms| then Ok(k)
    else if arms[i].Model? then UnionKindFrom(arms, i + 1, k.(isBasemodel := true))
    else
      var isSeq :- AnalyzeSequence(arms[i]);
      UnionKindFrom(arms, i + 1, if isSeq then Kind(true, true) else k)
  }

  /** `_analyze_annotation(origin, args)`. */
  method AnalyzeAnnotation(t: Type) returns (r: Result<Kind, Error>)
    ensures r == KindOf(t)
  {
    var isList := false;
    var isBasemodel := false;
    if t.Union? {
      var i := 0;
      while i < |t.arms|
        invariant 0 <= i <= |t.arms|
        invariant KindOf(t) == UnionKindFrom(t.arms, i, Kind(isList, isBasemodel))
      {
        var arm := t.arms[i];
        if arm.Model? {
          isBasemodel := true;
        } else {
          var isSeq :- AnalyzeSequence(arm);
          if isSeq {
            isList := true;
            isBasemodel := true;
          }
        }
        i := i + 1;
      }
    } else if t.Str? {
    } else {
      var isSeq :- AnalyzeSequence(t);
      if isSeq {
        isList := true;
        isBasemodel := true;
      } else if t.Model? {
        isBasemodel := true;
      }
    }
    return Ok(Kind(isList, isBasemodel));
  }

  /** The record classes among the arguments args, as a set. */
  function ModelArgs(args: seq<Type>): (r: set<ModelId>)
    ensures forall id :: id in r <==> Model(id) in args
  {
    if args == [] then {}
    else
      var last := args[|args| - 1];
      assert args == args[..|args| - 1] + [last];
      ModelArgs(args[..|args| - 1]) + (if last.Model? then {last.id} else {})
  }

  /** The record classes a union names: its record arms, and the records its list arms hold. */
  function UnionModels(arms: seq<Type>): (r: set<ModelId>)
    ensures ModelArgs(arms) <= r
  {
    if arms == [] then {}
    else
      var last := arms[|arms| - 1];
      assert arms == arms[..|arms| - 1] + [last];
      UnionModels(arms[..|arms| - 1])
        + (if last.Model? then {last.id} else if last.Seq? then ModelArgs(last.args) else {})
  }

  /**
   * `_find_basemodel_types` as written: on a union it keeps only the arms
   * that are themselves records, so `Optional[List[A]]` yields nothing.
   */
  function BasemodelTypesAsWritten(t: Type): Result<set<ModelId>, Error>
  {
    match t
    case Union(arms) => Ok(ModelArgs(arms))
    case Seq(args) => if args == [] then Err(ListWithoutTypeArgs) else Ok(ModelArgs(args))
    case Model(id) => Ok({id})
    case Str => Err(ListWithoutTypeArgs) // str is a Sequence without type arguments
    case _ => Ok({})
  }

  /**
   * `_find_basemodel_types` with list arms of a union searched too, so that
   * every annotation the classifier calls a record or a list of records has
   * a candidate class.
   */
  function BasemodelTypes(t: Type): Result<set<ModelId>, Error>
  {
    match t
    case Union(arms) => Ok(UnionModels(arms))
    case _ => BasemodelTypesAsWritten(t)
  }

  /** How a union is searched for candidate classes: its record arms only, as the code does, or its list arms too. */
  datatype UnionSearch = RecordArms | RecordAndListArms

  /** The candidate classes of an annotation under a union search. */
  function CandidateTypes(search: UnionSearch, t: Type): Result<set<ModelId>, Error>
  {
    if search == RecordArms then BasemodelTypesAsWritten(t) else BasemodelTypes(t)
  }

  /** `_find_basemodel_types(origin, args)`: with `RecordArms` the code as written, with `RecordAndListArms` the corrected search. */
  method FindBasemodelTypes(search: UnionSearch, t: Type) returns (r: Result<set<ModelId>, Error>)
    ensures r == CandidateTypes(search, t)
    ensures search == RecordArms ==> r == BasemodelTypesAsWritten(t)
  {
    var ret: set<ModelId> := {};
    if t.Union? {
      var i := 0;
      while i < |t.arms|
        invariant 0 <= i <= |t.arms|
        invariant ret == (if search == RecordArms then ModelArgs(t.arms[..i]) else UnionModels(t.arms[..i]))
      {
        var arm := t.arms[i];
        assert t.arms[..i + 1] == t.arms[..i] + [arm];
        if arm.Model? {
          ret := ret + {arm.id};
        } else if arm.Seq? && search == RecordAndListArms {
          ret := ret + ModelArgs(arm.args);
        }
        i := i + 1;
      }
      assert t.arms[..i] == t.arms;
      return Ok(ret);
    } else if t.Seq? || t.Str? {
      if t.Str? || t.args == [] {
        return Err(ListWithoutTypeArgs);
      }
      var j := 0;
      while j < |t.args|
        invariant 0 <= j <= |t.args|
        invariant ret == ModelArgs(t.args[..j])
      {
        assert t.args[..j + 1] == t.args[..j] + [t.args[j]];
        if t.args[j].Model? {
          ret := ret + {t.args[j].id};
        }
        j := j + 1;
      }
      assert t.args[..j] == t.args;
      return Ok(ret);
    } else if t.Model? {
      return Ok({t.id});
    }
    return Ok(ret);
  }

  // -------------------------------------------------------------- encoder

  /** `convert_to_xml(element, obj)`: every field of obj, in declaration order, applied to el. */
  function EncodeInto(schema: Schema, o: DumpOptions, show: Value -> string, el: Element, obj: Value): Result<Element, Error>
    requires obj.Record? && Conforms(schema, obj)
    decreases obj, 3
  {
    EncodeFieldsFrom(schema, o, show, el, obj, 0)
  }

  /** The field loop of `convert_to_xml` from field i on. */
  function EncodeFieldsFrom(schema: Schema, o: DumpOptions, show: Value -> string, el: Element, obj: Value, i: nat): Result<Element, Error>
    requires obj.Record? && Conforms(schema, obj) && i <= |obj.fields|
    decreases obj, 2, |obj.fields| - i
  {
    if i == |obj.fields| then Ok(el)
    else
      var el' :- EncodeField(schema, o, show, el, obj, i);
      EncodeFieldsFrom(schema, o, show, el', obj, i + 1)
  }

  /** The tag of the child element a record value becomes under field f. */
  function ChildTag(schema: Schema, o: DumpOptions, f: FieldInfo, v: Value): string
    requires v.Record?
  {
    SelectSubmodelName(o, BasemodelName(schema(v.model)), f.serializationAlias)
  }

  /** One pass of the field loop: field i of obj applied to el. */
  function EncodeField(schema: Schema, o: DumpOptions, show: Value -> string, el: Element, obj: Value, i: nat): Result<Element, Error>
    requires obj.Record? && Conforms(schema, obj) && i < |obj.fields|
    decreases obj, 1
  {
    var f := schema(obj.model).fields[i];
    var value := obj.fields[i];
    if f.annotation.None? then Err(NoAnnotation(f.name))
    else
      var kind :- KindOf(f.annotation.value);
      if kind.isList then
        match value
        case PyNone => Ok(el)
        case Items(_) => EncodeItemsFrom(schema, o, show, el, obj, i, 0)
        // iterating a string yields strings and iterating a record yields
        // (name, value) pairs: none is a record, so each is skipped
        case PyStr(_) => Ok(el)
        case Record(_, _) => Ok(el)
        case _ => Err(NotIterable)
      else if value.Record? then
        var sub :- EncodeInto(schema, o, show, Empty(ChildTag(schema, o, f, value)), value);
        Ok(el.(children := el.children + [sub]))
      else if value.PyNone? then Ok(el)
      else if f.name == ContentField then Ok(el.(text := Some(show(value))))
      else Ok(el.(attrib := Dict.Put(el.attrib, SelectName(o, f.name, f.serializationAlias), show(value))))
  }

  /** The loop over the items of the list held by field i, from item j on: records become children, the rest is skipped. */
  function EncodeItemsFrom(schema: Schema, o: DumpOptions, show: Value -> string, el: Element, obj: Value, i: nat, j: nat): Result<Element, Error>
    requires obj.Record? && Conforms(schema, obj) && i < |obj.fields|
    requires obj.fields[i].Items? && j <= |obj.fields[i].items|
    decreases obj, 0, |obj.fields[i].items| - j
  {
    var xs := obj.fields[i].items;
    assert Conforms(schema, obj.fields[i]);
    if j == |xs| then Ok(el)
    else if xs[j].Record? then
      var f := schema(obj.model).fields[i];
      var sub :- EncodeInto(schema, o, show, Empty(ChildTag(schema, o, f, xs[j])), xs[j]);
      EncodeItemsFrom(schema, o, show, el.(children := el.children + [sub]), obj, i, j + 1)
    else EncodeItemsFrom(schema, o, show, el, obj, i, j + 1)
  }

  /** The tree `model_dump_xml` renders: a root tagged with the model's name, filled by the encoder. */
  function DumpTree(schema: Schema, o: DumpOptions, show: Value -> string, model: Value): Result<Element, Error>
    requires model.Record? && Conforms(schema, model)
  {
    EncodeInto(schema, o, show, Empty(BasemodelName(schema(model.model))), model)
  }

  /** `model_dump_xml`: the rendered tree, with the XML declaration in front when asked. */
  function DumpXml(schema: Schema, includeXmlVersion: bool, o: DumpOptions, show: Value -> string, render: Element -> string, model: Value): Result<string, Error>
    requires model.Record? && Conforms(schema, model)
  {
    var tree :- DumpTree(schema, o, show, model);
    Ok(WithDeclaration(render(tree), includeXmlVersion))
  }

  /** `convert_to_xml(element, obj)` on a mutable element. */
  method ConvertToXml(schema: Schema, o: DumpOptions, show: Value -> string, e: ElementBuilder, obj: Value) returns (r: Result<(), Error>)
    requires obj.Record? && Conforms(schema, obj)
    modifies e
    decreases obj
    ensures EncodeInto(schema, o, show, old(e.Snapshot()), obj).Ok? ==>
      r.Ok? && e.Snapshot() == EncodeInto(schema, o, show, old(e.Snapshot()), obj).value
    ensures EncodeInto(schema, o, show, old(e.Snapshot()), obj).Err? ==>
      r == Err(EncodeInto(schema, o, show, old(e.Snapshot()), obj).error)
  {
    var fields := schema(obj.model).fields;
    var i := 0;
    while i < |obj.fields|
      invariant 0 <= i <= |obj.fields|
      invariant EncodeInto(schema, o, show, old(e.Snapshot()), obj) == EncodeFieldsFrom(schema, o, show, e.Snapshot(), obj, i)
    {
      var f := fields[i];
      var value := obj.fields[i];
      assert Conforms(schema, value);
      ghost var before := e.Snapshot();
      if f.annotation.None? {
        return Err(NoAnnotation(f.name));
      }
      var kind :- AnalyzeAnnotation(f.annotation.value);
      if kind.isList {
        if value.Items? {
          var j := 0;
          while j < |value.items|
            invariant 0 <= j <= |value.items|
            invariant EncodeField(schema, o, show, before, obj, i) == EncodeItemsFrom(schema, o, show, e.Snapshot(), obj, i, j)
          {
            var item := value.items[j];
            if item.Record? {
              var sub := new ElementBuilder(ChildTag(schema, o, f, item));
              var _ :- ConvertToXml(schema, o, show, sub, item);
              e.Append(sub.Snapshot());
            }
            j := j + 1;
          }
        } else if !(value.PyNone? || value.PyStr? || value.Record?) {
          return Err(NotIterable);
        }
      } else if value.Record? {
        var sub := new ElementBuilder(ChildTag(schema, o, f, value));
        var _ :- ConvertToXml(schema, o, show, sub, value);
        e.Append(sub.Snapshot());
      } else if value.PyNone? {
      } else if f.name == ContentField {
        e.SetText(show(value));
      } else {
        e.Set(SelectName(o, f.name, f.serializationAlias), show(value));
      }
      i := i + 1;
    }
    return Ok(());
  }

  /** `model_dump_xml(model, ...)`, given how a value prints and how a tree renders. */
  method ModelDumpXml(schema: Schema, includeXmlVersion: bool, o: DumpOptions, show: Value -> string, render: Element -> string, model: Value) returns (r: Result<string, Error>)
    requires model.Record? && Conforms(schema, model)
    ensures r == DumpXml(schema, includeXmlVersion, o, show, render, model)
  {
    var root := new ElementBuilder(BasemodelName(schema(model.model)));
    var _ :- ConvertToXml(schema, o, show, root, model);
    var xmlString := render(root.Snapshot());
    if includeXmlVersion {
      xmlString := XmlDeclaration + xmlString;
    }
    return Ok(xmlString);
  }

  // -------------------------------------------------------------- decoder

  /** The options the decoder's closures capture: `by_alias`, and how a union is searched for candidates. */
  datatype ValidateOptions = ValidateOptions(byAlias: bool, search: UnionSearch)

  /** The key a field's value is stored under: its name, or with `by_alias` its validation alias when that is a non-empty string. */
  function DecodeKey(byAlias: bool, f: FieldInfo): (r: Result<string, Error>)
    ensures r.Err? <==> byAlias && f.validationAlias.ValidationObject?
    ensures r.Err? ==> r.error == AliasNotString(f.name)
    ensures r.Ok? && byAlias && f.validationAlias.ValidationStr? && f.validationAlias.alias != "" ==> r.value == f.validationAlias.alias
    ensures r.Ok? && !(byAlias && f.validationAlias.ValidationStr? && f.validationAlias.alias != "") ==> r.value == f.name
  {
    if !byAlias then Ok(f.name)
    else
      match f.validationAlias
      case NoValidationAlias => Ok(f.name)
      case ValidationStr(a) => Ok(if a == "" then f.name else a)
      case ValidationObject => Err(AliasNotString(f.name))
  }

  /** `convert_from_xml(element, obj)`: the keyed bag of class m's fields read from e. */
  function DecodeElement(schema: Schema, order: set<ModelId> -> seq<ModelId>, vo: ValidateOptions, e: Element, m: ModelId): Result<Raw, Error>
    decreases e, 4
  {
    var data :- DecodeFieldsFrom(schema, order, vo, e, m, 0, []);
    Ok(RawBag(data))
  }

  /** The field loop of `convert_from_xml` from field i on, with the bag built so far. */
  function DecodeFieldsFrom(schema: Schema, order: set<ModelId> -> seq<ModelId>, vo: ValidateOptions, e: Element, m: ModelId, i: nat, data: Dict.Dict<Raw>): Result<Dict.Dict<Raw>, Error>
    requires i <= |schema(m).fields|
    decreases e, 3, |schema(m).fields| - i
  {
    if i == |schema(m).fields| then Ok(data)
    else
      var data' :- DecodeField(schema, order, vo, e, m, i, data);
      DecodeFieldsFrom(schema, order, vo, e, m, i + 1, data')
  }

  /** The scalar a non-record field reads: the element's text for the content field, else the attribute under its key. */
  function ScalarSource(e: Element, f: FieldInfo, key: string): Option<string>
  {
    if f.name == ContentField then e.text else Dict.Get(e.attrib, key)
  }

  /** One pass of the field loop: field i of class m read from e into data. */
  function DecodeField(schema: Schema, order: set<ModelId> -> seq<ModelId>, vo: ValidateOptions, e: Element, m: ModelId, i: nat, data: Dict.Dict<Raw>): Result<Dict.Dict<Raw>, Error>
    requires i < |schema(m).fields|
    decreases e, 2
  {
    var f := schema(m).fields[i];
    if f.annotation.None? then Err(NoAnnotation(f.name))
    else
      var t := f.annotation.value;
      var kind :- KindOf(t);
      var key :- DecodeKey(vo.byAlias, f);
      if kind.isBasemodel then
        var types :- CandidateTypes(vo.search, t);
        if types == {} then Err(NoBasemodelTypes(key))
        else if !kind.isList then SingularFrom(schema, order, vo, e, key, order(types), 0, data)
        else
          var items :- ListFrom(schema, order, vo, e, order(types), 0, []);
          Ok(Dict.Put(data, key, RawList(items)))
      else
        match ScalarSource(e, f, key)
        case None => Ok(data)
        case Some(value) => Ok(Dict.Put(data, key, RawText(value)))
  }

  /** The candidate loop of a single record field from candidate k on: each candidate found overwrites the key. */
  function SingularFrom(schema: Schema, order: set<ModelId> -> seq<ModelId>, vo: ValidateOptions, e: Element, key: string, cands: seq<ModelId>, k: nat, data: Dict.Dict<Raw>): Result<Dict.Dict<Raw>, Error>
    requires k <= |cands|
    decreases e, 1, |cands| - k
  {
    if k == |cands| then Ok(data)
    else
      match Find(e, BasemodelName(schema(cands[k])))
      case None => SingularFrom(schema, order, vo, e, key, cands, k + 1, data)
      case Some(child) =>
        var raw :- DecodeElement(schema, order, vo, child, cands[k]);
        SingularFrom(schema, order, vo, e, key, cands, k + 1, Dict.Put(data, key, raw))
  }

  /** The candidate loop of a list field from candidate k on: the decodings of each candidate's children are appended to acc. */
  function ListFrom(schema: Schema, order: set<ModelId> -> seq<ModelId>, vo: ValidateOptions, e: Element, cands: seq<ModelId>, k: nat, acc: seq<Raw>): Result<seq<Raw>, Error>
    requires k <= |cands|
    decreases e, 1, |cands| - k
  {
    if k == |cands| then Ok(acc)
    else
      var acc' :- DecodeEach(schema, order, vo, e, cands[k], 0, acc);
      ListFrom(schema, order, vo, e, cands, k + 1, acc')
  }

  /** The comprehension over `findall` of candidate c, from child j on, appending to acc. */
  function DecodeEach(schema: Schema, order: set<ModelId> -> seq<ModelId>, vo: ValidateOptions, e: Element, c: ModelId, j: nat, acc: seq<Raw>): Result<seq<Raw>, Error>
    requires j <= |FindAll(e, BasemodelName(schema(c)))|
    decreases e, 0, |FindAll(e, BasemodelName(schema(c)))| - j
  {
    var subs := FindAll(e, BasemodelName(schema(c)));
    if j == |subs| then Ok(acc)
    else
      assert subs[j] in subs;
      var raw :- DecodeElement(schema, order, vo, subs[j], c);
      DecodeEach(schema, order, vo, e, c, j + 1, acc + [raw])
  }

  /** `convert_from_xml(element, obj)`, given the order in which Python iterates a set of classes. */
  method ConvertFromXml(schema: Schema, order: set<ModelId> -> seq<ModelId>, vo: ValidateOptions, e: Element, m: ModelId) returns (r: Result<Raw, Error>)
    ensures r == DecodeElement(schema, order, vo, e, m)
    decreases e, 3
  {
    var fields := schema(m).fields;
    var data: Dict.Dict<Raw> := [];
    var i := 0;
    while i < |fields|
      invariant 0 <= i <= |fields|
      invariant DecodeFieldsFrom(schema, order, vo, e, m, 0, []) == DecodeFieldsFrom(schema, order, vo, e, m, i, data)
    {
      data :- ConvertField(schema, order, vo, e, m, i, data);
      i := i + 1;
    }
    return Ok(RawBag(data));
  }

  /** One pass of the field loop of `convert_from_xml`: field i of class m read from e into data. */
  method ConvertField(schema: Schema, order: set<ModelId> -> seq<ModelId>, vo: ValidateOptions, e: Element, m: ModelId, i: nat, data: Dict.Dict<Raw>)
    returns (r: Result<Dict.Dict<Raw>, Error>)
    requires i < |schema(m).fields|
    ensures r == DecodeField(schema, order, vo, e, m, i, data)
    decreases e, 2
  {
    var f := schema(m).fields[i];
    if f.annotation.None? {
      return Err(NoAnnotation(f.name));
    }
    var t := f.annotation.value;
    var kind :- AnalyzeAnnotation(t);
    var key :- DecodeKey(vo.byAlias, f);
    if kind.isBasemodel && !kind.isList {
      var types :- FindBasemodelTypes(vo.search, t);
      if types == {} {
        return Err(NoBasemodelTypes(key));
      }
      r := ConvertSingular(schema, order, vo, e, key, order(types), data);
    } else if kind.isBasemodel && kind.isList {
      var types :- FindBasemodelTypes(vo.search, t);
      if types == {} {
        return Err(NoBasemodelTypes(key));
      }
      var bag := Dict.Put(data, key, RawList([]));
      var list :- ConvertList(schema, order, vo, e, order(types));
      Dict.PutPut(data, key, RawList([]), RawList(list));
      return Ok(Dict.Put(bag, key, RawList(list)));
    } else {
      var value := if f.name == ContentField then e.text else Dict.Get(e.attrib, key);
      if value.Some? {
        return Ok(Dict.Put(data, key, RawText(value.value)));
      }
      return Ok(data);
    }
  }

  /** The candidate loop of a single record field: `data[name] = convert_from_xml(...)` for each candidate `find` returns. */
  method ConvertSingular(schema: Schema, order: set<ModelId> -> seq<ModelId>, vo: ValidateOptions, e: Element, key: string, cands: seq<ModelId>, data: Dict.Dict<Raw>)
    returns (r: Result<Dict.Dict<Raw>, Error>)
    ensures r == SingularFrom(schema, order, vo, e, key, cands, 0, data)
    decreases e, 1
  {
    var bag := data;
    var k := 0;
    while k < |cands|
      invariant 0 <= k <= |cands|
      invariant SingularFrom(schema, order, vo, e, key, cands, 0, data) == SingularFrom(schema, order, vo, e, key, cands, k, bag)
    {
      bag :- ConvertCandidate(schema, order, vo, e, key, cands, k, bag);
      k := k + 1;
    }
    return Ok(bag);
  }

  /** One pass of that loop: `find` candidate k and, when it is there, decode it into the key. */
  method ConvertCandidate(schema: Schema, order: set<ModelId> -> seq<ModelId>, vo: ValidateOptions, e: Element, key: string, cands: seq<ModelId>, k: nat, bag: Dict.Dict<Raw>)
    returns (r: Result<Dict.Dict<Raw>, Error>)
    requires k < |cands|
    ensures r.Ok? ==> SingularFrom(schema, order, vo, e, key, cands, k, bag) == SingularFrom(schema, order, vo, e, key, cands, k + 1, r.value)
    ensures r.Err? ==> SingularFrom(schema, order, vo, e, key, cands, k, bag) == Err(r.error)
    decreases e, 0
  {
    var sub := Find(e, BasemodelName(schema(cands[k])));
    if sub.Some? {
      var raw :- ConvertFromXml(schema, order, vo, sub.value, cands[k]);
      return Ok(Dict.Put(bag, key, raw));
    }
    return Ok(bag);
  }

  /** The candidate loop of a list field: `data[name] += [convert_from_xml(...) for each findall child]`. */
  method ConvertList(schema: Schema, order: set<ModelId> -> seq<ModelId>, vo: ValidateOptions, e: Element, cands: seq<ModelId>)
    returns (r: Result<seq<Raw>, Error>)
    ensures r == ListFrom(schema, order, vo, e, cands, 0, [])
    decreases e, 1
  {
    var list: seq<Raw> := [];
    var k := 0;
    while k < |cands|
      invariant 0 <= k <= |cands|
      invariant ListFrom(schema, order, vo, e, cands, 0, []) == ListFrom(schema, order, vo, e, cands, k, list)
    {
      var subs := FindAll(e, BasemodelName(schema(cands[k])));
      var j := 0;
      ghost var start := list;
      while j < |subs|
        invariant 0 <= j <= |subs|
        invariant DecodeEach(schema, order, vo, e, cands[k], 0, start) == DecodeEach(schema, order, vo, e, cands[k], j, list)
      {
        assert subs[j] in subs;
        var raw :- ConvertFromXml(schema, order, vo, subs[j], cands[k]);
        list := list + [raw];
        j := j + 1;
      }
      k := k + 1;
    }
    return Ok(list);
  }

  /**
   * `model_validate_xml(model, xml_string, by_alias)` up to the bag handed to
   * `model.model_validate`: parsing is given as the root element, and unions
   * are searched as the code searches them.
   */
  method ModelValidateXml(schema: Schema, order: set<ModelId> -> seq<ModelId>, byAlias: bool, root: Element, m: ModelId) returns (r: Result<Raw, Error>)
    ensures r == DecodeElement(schema, order, ValidateOptions(byAlias, RecordArms), root, m)
  {
    r := ConvertFromXml(schema, order, ValidateOptions(byAlias, RecordArms), root, m);
  }

  /** The same with the corrected union search, under which a list arm of a union is searched too. */
  method ModelValidateXmlCorrected(schema: Schema, order: set<ModelId> -> seq<ModelId>, byAlias: bool, root: Element, m: ModelId) returns (r: Result<Raw, Error>)
    ensures r == DecodeElement(schema, order, ValidateOptions(byAlias, RecordAndListArms), root, m)
  {
    r := ConvertFromXml(schema, order, ValidateOptions(byAlias, RecordAndListArms), root, m);
  }
}
