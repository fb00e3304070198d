/**
 * Decoded JSON values as the Python side sees them (dicts, lists, strings,
 * numbers, booleans, None), with the two pieces of Python semantics the
 * command service and its tests rely on: truthiness (`not v`) and the
 * evaluation of a dict literal in which a key may be repeated.
 */
module Json {

  /** A JSON value. Only integral numbers are modelled. */
  datatype Value =
    | JNull
    | JBool(b: bool)
    | JNum(n: int)
    | JStr(s: string)
    | JArr(items: seq<Value>)
    | JObj(fields: map<string, Value>)

  /** Python truthiness of a decoded JSON value: `not v` holds exactly when this is false. */
  predicate Truthy(v: Value) {
    match v
    case JNull => false
    case JBool(b) => b
    case JNum(n) => n != 0
    case JStr(s) => s != ""
    case JArr(items) => items != []
    case JObj(fields) => fields != map[]
  }

  /** `d.get(key, default)` on a dict. */
  function GetOr(fields: map<string, Value>, key: string, default: Value): Value {
    if key in fields then fields[key] else default
  }

  /** True when no entry after position i repeats the key of entry i. */
  ghost predicate LastWithKey(pairs: seq<(string, Value)>, i: nat)
    requires i < |pairs|
  {
    forall j :: i < j < |pairs| ==> pairs[j].0 != pairs[i].0
  }

  /** The keys a sequence of dict-literal entries mentions. */
  ghost function KeysOf(pairs: seq<(string, Value)>): set<string> {
    set i | 0 <= i < |pairs| :: pairs[i].0
  }

  /**
   * The dict a Python dict literal `{k0: v0, k1: v1, ...}` evaluates to:
   * entries are inserted left to right, so when a key is repeated the
   * later entry replaces the earlier one.
   */
  function DictOf(pairs: seq<(string, Value)>): (m: map<string, Value>)
    ensures m.Keys == KeysOf(pairs)
  {
    if pairs == [] then map[]
    else
      var init, last := pairs[..|pairs| - 1], pairs[|pairs| - 1];
      assert KeysOf(pairs) == KeysOf(init) + {last.0} by {
        assert forall i :: 0 <= i < |init| ==> init[i] == pairs[i];
        assert pairs == init + [last];
      }
      DictOf(init)[last.0 := last.1]
  }

  /** The value a key has in the dict is the one of its last entry in the literal. */
  lemma {:induction false} DictOfLastEntry(pairs: seq<(string, Value)>, i: nat)
    requires i < |pairs| && LastWithKey(pairs, i)
    ensures pairs[i].0 in DictOf(pairs) && DictOf(pairs)[pairs[i].0] == pairs[i].1
  {
    var init := pairs[..|pairs| - 1];
    if i < |pairs| - 1 {
      assert LastWithKey(init, i) by {
        assert forall j :: 0 <= j < |init| ==> init[j] == pairs[j];
      }
      DictOfLastEntry(init, i);
    }
  }
}
