/** `convert_string_filter_values`: CLI filter values written as marker strings
    become the values of the marker table. */
module Utils {
  import opened Wrappers
  import opened Values
  import opened Dicts
  import opened Exceptions
  import opened Constants

  /** `STRING_VALUE_TO_PYTHON_TYPE_MAPPING.get(criteria, criteria)`. */
  function Coerced(criteria: Value): (r: Result<Value, Error>)
    ensures !Hashable(criteria) <==> r == Err(TypeError)
    ensures r.Ok? && criteria.Str? && criteria.s in StringValueMapping ==> r.value == StringValueMapping[criteria.s]
    ensures r.Ok? && !(criteria.Str? && criteria.s in StringValueMapping) ==> r.value == criteria
  {
    if !Hashable(criteria) then Err(TypeError)
    else if criteria.Str? && criteria.s in StringValueMapping then Ok(StringValueMapping[criteria.s])
    else Ok(criteria)
  }

  /** The generator `((field, get(criteria, criteria)) for ...)`, consumed in order:
      the first unhashable criteria raises. */
  function CoercedPairs(filters: seq<(Value, Value)>): (r: Result<seq<(Value, Value)>, Error>)
    ensures r.Ok? <==> forall i :: 0 <= i < |filters| ==> Hashable(filters[i].1)
    ensures r.Err? ==> r.error == TypeError
    ensures r.Ok? ==> |r.value| == |filters|
    ensures r.Ok? ==> forall i :: 0 <= i < |filters| ==>
      r.value[i].0 == filters[i].0 && Ok(r.value[i].1) == Coerced(filters[i].1)
    decreases |filters|
  {
    if |filters| == 0 then Ok([])
    else
      match Coerced(filters[0].1)
      case Err(e) => Err(e)
      case Ok(v) =>
        match CoercedPairs(filters[1..])
        case Err(e) => Err(e)
        case Ok(rest) => Ok([(filters[0].0, v)] + rest)
  }

  function ConvertStringFilterValues(filters: seq<(Value, Value)>): (r: Result<seq<(Value, Value)>, Error>)
  {
    match CoercedPairs(filters)
    case Err(e) => Err(e)
    case Ok(pairs) => Ok(FromPairs(pairs))
  }

  /** The conversion builds a new dictionary with the same keys in the same order,
      each value looked up in the marker table; it fails only on an unhashable value. */
  lemma ConvertKeepsKeys(filters: seq<(Value, Value)>)
    requires DistinctKeys(filters)
    ensures ConvertStringFilterValues(filters).Ok? <==> forall i :: 0 <= i < |filters| ==> Hashable(filters[i].1)
    ensures ConvertStringFilterValues(filters).Err? ==> ConvertStringFilterValues(filters).error == TypeError
    ensures ConvertStringFilterValues(filters).Ok? ==>
      var out := ConvertStringFilterValues(filters).value;
      Keys(out) == Keys(filters) &&
      forall i :: 0 <= i < |filters| ==> Ok(out[i].1) == Coerced(filters[i].1)
  {
    var c := CoercedPairs(filters);
    if c.Ok? {
      assert DistinctKeys(c.value) by {
        forall i, j | 0 <= i < j < |c.value|
          ensures c.value[i].0 != c.value[j].0
        {
          assert c.value[i].0 == filters[i].0 && c.value[j].0 == filters[j].0;
        }
      }
      FromDistinctPairs(c.value);
    }
  }

  /** A marker string is replaced by its table entry; every other value is kept. */
  lemma ConvertReplacesMarkers(filters: seq<(Value, Value)>, i: nat)
    requires DistinctKeys(filters)
    requires i < |filters|
    requires ConvertStringFilterValues(filters).Ok?
    ensures var out := ConvertStringFilterValues(filters).value;
      i < |out| && out[i].0 == filters[i].0 &&
      (filters[i].1.Str? && filters[i].1.s in StringValueMapping ==> out[i].1 == StringValueMapping[filters[i].1.s]) &&
      (!(filters[i].1.Str? && filters[i].1.s in StringValueMapping) ==> out[i].1 == filters[i].1)
  {
    ConvertKeepsKeys(filters);
    assert Keys(ConvertStringFilterValues(filters).value)[i] == Keys(filters)[i];
  }

  /** Converting twice is converting once: no converted value is a marker string. */
  lemma ConvertIdempotent(filters: seq<(Value, Value)>)
    requires DistinctKeys(filters)
    requires ConvertStringFilterValues(filters).Ok?
    ensures ConvertStringFilterValues(ConvertStringFilterValues(filters).value) == ConvertStringFilterValues(filters)
  {
    var once := ConvertStringFilterValues(filters).value;
    ConvertKeepsKeys(filters);
    assert DistinctKeys(once) by {
      forall i, j | 0 <= i < j < |once|
        ensures once[i].0 != once[j].0
      {
        assert Keys(once)[i] == Keys(filters)[i] && Keys(once)[j] == Keys(filters)[j];
      }
    }
    forall i | 0 <= i < |once|
      ensures Hashable(once[i].1) && Coerced(once[i].1) == Ok(once[i].1)
    {
      if filters[i].1.Str? && filters[i].1.s in StringValueMapping {
        MappedValuesAreNotMarkers(filters[i].1.s);
      }
    }
    ConvertKeepsKeys(once);
    var twice := ConvertStringFilterValues(once).value;
    assert |twice| == |once|;
    forall i | 0 <= i < |once|
      ensures twice[i] == once[i]
    {
      assert Keys(twice)[i] == Keys(once)[i];
      assert Ok(twice[i].1) == Coerced(once[i].1);
    }
    assert twice == once;
  }
}
