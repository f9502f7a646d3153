/**
 * JSON values as `json.loads` returns them to Python code, and the Python
 * operations that the repository applies to such values without checking
 * their type first (truthiness, `len`, iteration, `str`).
 * Objects are the dictionaries `json.loads` builds: their keys are distinct
 * and in insertion order, and `Get` returns the first binding.
 * Numbers are integers.
 */
module Json {
  import opened Wrappers
  import Strings

  datatype Value =
    | Null
    | Bool(b: bool)
    | Num(n: int)
    | Str(s: string)
    | Arr(items: seq<Value>)
    | Obj(fields: seq<(string, Value)>)

  /** `d.get(key)` on a dictionary, as an option. */
  function Get(fields: seq<(string, Value)>, key: string): (r: Option<Value>)
    decreases |fields|
  {
    if fields == [] then None
    else if fields[0].0 == key then Some(fields[0].1)
    else Get(fields[1..], key)
  }

  /** A key bound nowhere is not found. */
  lemma {:induction false} GetMissing(fields: seq<(string, Value)>, key: string)
    requires forall j :: 0 <= j < |fields| ==> fields[j].0 != key
    ensures Get(fields, key).None?
    decreases |fields|
  {
    if fields != [] {
      assert forall j :: 0 <= j < |fields| - 1 ==> fields[1..][j] == fields[j + 1];
      GetMissing(fields[1..], key);
    }
  }

  /** The lookup finds the first binding of the key. */
  lemma {:induction false} GetAt(fields: seq<(string, Value)>, key: string, i: nat)
    requires i < |fields| && fields[i].0 == key
    requires forall j :: 0 <= j < i ==> fields[j].0 != key
    ensures Get(fields, key) == Some(fields[i].1)
    decreases i
  {
    if i > 0 {
      assert forall j :: 0 <= j < i - 1 ==> fields[1..][j] == fields[j + 1];
      GetAt(fields[1..], key, i - 1);
    }
  }

  /** `d.get(key, default)` on a dictionary. */
  function GetOr(fields: seq<(string, Value)>, key: string, default: Value): Value {
    Get(fields, key).GetOr(default)
  }

  function Keys(fields: seq<(string, Value)>): seq<string> {
    seq(|fields|, i requires 0 <= i < |fields| => fields[i].0)
  }

  /** Python's `bool(v)`. */
  predicate Truthy(v: Value) {
    match v
    case Null => false
    case Bool(b) => b
    case Num(n) => n != 0
    case Str(s) => s != ""
    case Arr(xs) => xs != []
    case Obj(fs) => fs != []
  }

  /** Python's `len(v)`; `None` where `len` raises TypeError. */
  function PyLen(v: Value): Option<nat> {
    match v
    case Str(s) => Some(|s|)
    case Arr(xs) => Some(|xs|)
    case Obj(fs) => Some(|fs|)
    case _ => None
  }

  /** What `for x in v` visits; `None` where iteration raises TypeError. */
  function PyIter(v: Value): Option<seq<Value>> {
    match v
    case Str(s) => Some(seq(|s|, i requires 0 <= i < |s| => Str([s[i]])))
    case Arr(xs) => Some(xs)
    case Obj(fs) => Some(seq(|fs|, i requires 0 <= i < |fs| => Str(fs[i].0)))
    case _ => None
  }

  /**
   * Python's `str(v)`. Nested strings are quoted with single quotes; the
   * escaping `repr` applies to quotes and backslashes inside them is not modelled.
   */
  function PyStr(v: Value): string {
    match v
    case Str(s) => s
    case _ => Repr(v)
  }

  function Repr(v: Value): string
    decreases v, 1
  {
    match v
    case Null => "None"
    case Bool(b) => if b then "True" else "False"
    case Num(n) => Strings.IntToString(n)
    case Str(s) => "'" + s + "'"
    case Arr(xs) => "[" + ReprItems(v, 0) + "]"
    case Obj(fs) => "{" + ReprFields(v, 0) + "}"
  }

  function ReprItems(v: Value, i: nat): string
    requires v.Arr?
    decreases v, 0, |v.items| - i
  {
    if i >= |v.items| then ""
    else (if i > 0 then ", " else "") + Repr(v.items[i]) + ReprItems(v, i + 1)
  }

  function ReprFields(v: Value, i: nat): string
    requires v.Obj?
    decreases v, 0, |v.fields| - i
  {
    if i >= |v.fields| then ""
    else
      (if i > 0 then ", " else "") + "'" + v.fields[i].0 + "': " + Repr(v.fields[i].1)
      + ReprFields(v, i + 1)
  }

  /** `None` or a string, as Python's `Optional[str]` fields hold them. */
  function OptStr(s: Option<string>): Value {
    match s
    case None => Null
    case Some(t) => Str(t)
  }
}
