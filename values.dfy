/** The values the modelled code passes around: Python builtins after
    `zeep.helpers.serialize_object` or `xmltodict.parse`, and zeep's two markers. */
module Values {

  datatype Value =
    | Null                               // Python None
    | Bool(b: bool)
    | Int(i: int)
    | Str(s: string)
    | Nil                                // zeep.helpers.Nil(): an explicit xsi:nil element
    | NotSet                             // zeep's NotSet: "no value supplied"
    | List(items: seq<Value>)
    | Dict(entries: seq<(Value, Value)>) // dict / OrderedDict in insertion order

  /** Python truthiness: None, False, 0, "" and empty containers are falsy;
      zeep's marker objects, like any plain object, are truthy. */
  predicate Truthy(v: Value) {
    match v
    case Null => false
    case Bool(b) => b
    case Int(i) => i != 0
    case Str(s) => s != ""
    case Nil => true
    case NotSet => true
    case List(items) => items != []
    case Dict(entries) => entries != []
  }

  /** Lists and dicts cannot be dictionary keys (`hash` raises TypeError). */
  predicate Hashable(v: Value) {
    !v.List? && !v.Dict?
  }

  /** `x or []`. */
  function OrEmpty(v: Value): (r: Value)
    ensures Truthy(v) ==> r == v
    ensures !Truthy(v) ==> r == List([])
  {
    if Truthy(v) then v else List([])
  }

  /** `or []` never hands back None, and applying it twice changes nothing more. */
  lemma OrEmptyNormalises(v: Value)
    ensures OrEmpty(v) != Null
    ensures OrEmpty(v) == List([]) || Truthy(OrEmpty(v))
    ensures OrEmpty(OrEmpty(v)) == OrEmpty(v)
  {
  }
}
