/** JSON values as the Python code sees them after `json.loads`, with Python's notions of
    truthiness and equality. */
module PyJson {
  import opened Powers

  /** A number is a whole multiple of 2^-1074, as every finite double is. NaN, the infinities and integers
      that a double cannot hold are not part of the model. Objects are maps, so the order of
      their keys is not part of it. */
  datatype Json =
    | Null
    | Bool(b: bool)
    | Num(units: int)
    | Str(s: string)
    | Arr(items: seq<Json>)
    | Obj(fields: map<string, Json>)

  /** `d.get(key)`: a missing key and an explicit null look the same. */
  function Get(fields: map<string, Json>, key: string): Json
  {
    if key in fields then fields[key] else Null
  }

  /** `d.get(key, default)` */
  function GetOr(fields: map<string, Json>, key: string, default: Json): Json
  {
    if key in fields then fields[key] else default
  }

  /** `{k: v for k, v in d.items() if k != key}` */
  function Without(fields: map<string, Json>, key: string): map<string, Json>
  {
    fields - {key}
  }

  /** Exactly the null, false, zero and empty values are falsy. */
  predicate Truthy(j: Json): (truthy: bool)
    ensures !truthy <==> j == Null || j == Bool(false) || j == Num(0) || j == Str("") || j == Arr([]) || j == Obj(map[])
  {
    match j
    case Null => false
    case Bool(b) => b
    case Num(units) => units != 0
    case Str(s) => s != ""
    case Arr(items) => items != []
    case Obj(fields) => fields != map[]
  }

  /** The number 1. */
  const ONE := PowerOf2(1074)

  /** Python counts True as 1 and False as 0 when it compares values; everything else is
      compared structurally. `Plain` picks one representative of each class of equal values. */
  function Plain(j: Json): Json
  {
    match j
    case Bool(b) => Num(if b then ONE else 0)
    case Arr(items) => Arr(seq(|items|, i requires 0 <= i < |items| => Plain(items[i])))
    case Obj(fields) => Obj(map k | k in fields :: Plain(fields[k]))
    case _ => j
  }

  /** `a == b` in Python. Nothing but a string has a string's representative, so equality with a string is plain
      equality. */
  predicate PyEq(a: Json, b: Json)
  {
    Plain(a) == Plain(b)
  }

  /** The number that a value stands for when it is compared. */
  function Number(j: Json): (units: int)
    requires j.Num? || j.Bool?
  {
    match j
    case Num(units) => units
    case Bool(b) => if b then ONE else 0
  }

  predicate EqualLists(a: seq<Json>, b: seq<Json>)
  {
    |a| == |b| && forall i :: 0 <= i < |a| ==> PyEq(a[i], b[i])
  }

  predicate EqualObjects(a: map<string, Json>, b: map<string, Json>)
  {
    a.Keys == b.Keys && forall k :: k in a ==> PyEq(a[k], b[k])
  }

  /** Which values are equal, by kind: numbers and booleans by their number, strings by their characters, lists
      element by element, objects key by key; values of different kinds never are. */
  lemma PyEqExactly(a: Json, b: Json)
    ensures PyEq(a, b)
       <==> match a
            case Null => b.Null?
            case Bool(_) => (b.Bool? || b.Num?) && Number(a) == Number(b)
            case Num(_) => (b.Bool? || b.Num?) && Number(a) == Number(b)
            case Str(s) => b == Str(s)
            case Arr(items) => b.Arr? && EqualLists(items, b.items)
            case Obj(fields) => b.Obj? && EqualObjects(fields, b.fields)
  {
    if a.Arr? && b.Arr? {
      assert PyEq(a, b) <==> Plain(a).items == Plain(b).items;
      if PyEq(a, b) {
        forall i | 0 <= i < |a.items| ensures PyEq(a.items[i], b.items[i]) {
          assert Plain(a).items[i] == Plain(b).items[i];
        }
      }
    }
    if a.Obj? && b.Obj? {
      assert PyEq(a, b) <==> Plain(a).fields == Plain(b).fields;
      assert Plain(a).fields.Keys == a.fields.Keys && Plain(b).fields.Keys == b.fields.Keys;
      if PyEq(a, b) {
        forall k | k in a.fields ensures PyEq(a.fields[k], b.fields[k]) {
          assert Plain(a).fields[k] == Plain(b).fields[k];
        }
      }
    }
  }
}
