/**
 * The Python side both engines read: field annotations as explicit type
 * descriptors (in place of typing reflection), record instances as values,
 * and the raw keyed bag a decoder hands to the validator.
 */
module Py {
  import Dict

  /** The identity of a record (model) class. */
  type ModelId = nat

  /** A field annotation as `get_origin` / `get_args` present it. */
  datatype Type =
    | Str                    // str
    | Scalar                 // int, float, bool, Any, ...: neither a sequence nor a record
    | NoneType               // type(None), the arm that Optional[...] adds
    | Model(id: ModelId)     // a record class
    | Seq(args: seq<Type>)   // List[...], Tuple[...], Sequence[...]; a bare List has no arguments
    | Union(arms: seq<Type>) // Union[...], Optional[...]

  /** The value of a field of a record instance. */
  datatype Value =
    | PyNone
    | PyStr(s: string)
    | PyInt(i: int)
    | PyBool(b: bool)
    | Record(model: ModelId, fields: seq<Value>) // an instance: one value per declared field, in declaration order
    | Items(items: seq<Value>)                   // a list or a tuple

  /** Every record inside v has one value per field of its class, arity giving each class's field count. */
  predicate Shaped(arity: ModelId -> nat, v: Value)
  {
    match v
    case Record(m, fs) => |fs| == arity(m) && forall i :: 0 <= i < |fs| ==> Shaped(arity, fs[i])
    case Items(xs) => forall i :: 0 <= i < |xs| ==> Shaped(arity, xs[i])
    case _ => true
  }

  /** What a decoder collects: attribute and text strings, nested bags, lists of them. */
  datatype Raw = RawText(text: string) | RawBag(entries: Dict.Dict<Raw>) | RawList(items: seq<Raw>)
}
