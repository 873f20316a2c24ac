/**
 * The values `json.loads` produces, and the Python operations the core applies to them:
 * `d.get(k)`, `d[k] = v`, `list(d.values())`, truthiness, `str(v)` and iteration.
 * An object keeps its keys in insertion order, as a Python dict does.
 */
module PyJson {
  import opened Wrappers
  import PyText

  datatype Json =
    | JNull
    | JBool(b: bool)
    | JInt(i: int)
    | JStr(s: string)
    | JList(items: seq<Json>)
    | JObject(fields: seq<(string, Json)>)

  /** A Python dict from strings to JSON values, in insertion order. */
  type Dict = seq<(string, Json)>

  function Keys(d: Dict): seq<string>
  {
    if d == [] then [] else [d[0].0] + Keys(d[1..])
  }

  /** `list(d.values())`. */
  function Values(d: Dict): (vs: seq<Json>)
    ensures |vs| == |d|
    ensures forall i :: 0 <= i < |d| ==> vs[i] == d[i].1
  {
    if d == [] then [] else [d[0].1] + Values(d[1..])
  }

  /**
   * `d.get(k)`: the value stored under `k`, or nothing when `k` is not a key.
   */
  function Get(d: Dict, k: string): (r: Option<Json>)
    ensures r.None? <==> k !in Keys(d)
  {
    if d == [] then None
    else if d[0].0 == k then Some(d[0].1)
    else Get(d[1..], k)
  }

  /** `d.get(k)` returns the value of the first entry whose key is `k`. */
  lemma {:induction false} GetFindsFirstEntry(d: Dict, k: string, i: nat)
    requires i < |d| && d[i].0 == k && k !in Keys(d[..i])
    ensures Get(d, k) == Some(d[i].1)
  {
    if i > 0 {
      assert d[..i] == [d[0]] + d[1..][..i - 1];
      assert Keys(d[..i]) == [d[0].0] + Keys(d[1..][..i - 1]);
      GetFindsFirstEntry(d[1..], k, i - 1);
    }
  }

  /**
   * `d[k] = v`: an existing key keeps its position and gets the new value; a new key is
   * appended at the end; every other key keeps its value.
   */
  function Set(d: Dict, k: string, v: Json): (r: Dict)
    ensures Keys(r) == if k in Keys(d) then Keys(d) else Keys(d) + [k]
    ensures Get(r, k) == Some(v)
    ensures forall k' :: k' != k ==> Get(r, k') == Get(d, k')
  {
    if d == [] then [(k, v)]
    else if d[0].0 == k then
      assert ([(k, v)] + d[1..])[1..] == d[1..];
      [(k, v)] + d[1..]
    else
      var r := [d[0]] + Set(d[1..], k, v);
      assert r[1..] == Set(d[1..], k, v);
      r
  }

  /** Storing the value a key already has leaves the dict as it was. */
  lemma {:induction false} SetUnchanged(d: Dict, k: string, v: Json)
    requires Get(d, k) == Some(v)
    ensures Set(d, k, v) == d
  {
    if d[0].0 != k {
      SetUnchanged(d[1..], k, v);
    }
  }

  /** Python truthiness: null, false, 0, "", [] and {} are false, everything else is true. */
  predicate Truthy(v: Json)
  {
    match v
    case JNull => false
    case JBool(b) => b
    case JInt(i) => i != 0
    case JStr(s) => s != ""
    case JList(items) => items != []
    case JObject(fields) => fields != []
  }

  /**
   * `str(v)`, as an f-string renders a value: a string is itself, numbers in decimal,
   * `True`/`False`/`None`, and containers in their `repr` form.
   */
  function Str(v: Json): (r: string)
    ensures v.JStr? ==> r == v.s
    ensures v.JNull? ==> r == "None"
    ensures v.JBool? ==> r == (if v.b then "True" else "False")
    ensures v.JInt? && v.i >= 0 ==> PyText.AllDigits(r) && PyText.DecimalValue(r) == v.i
    ensures v.JInt? && v.i < 0 ==>
      |r| >= 2 && r[0] == '-' && PyText.AllDigits(r[1..]) && PyText.DecimalValue(r[1..]) == -v.i
    ensures v.JInt? && v.i >= 0 ==> (|r| > 1 ==> r[0] != '0')
    ensures v.JInt? && v.i < 0 ==> (|r| > 2 ==> r[1] != '0')
    ensures v.JList? ==> |r| >= 2 && r[0] == '[' && r[|r| - 1] == ']'
    ensures v.JObject? ==> |r| >= 2 && r[0] == '{' && r[|r| - 1] == '}'
  {
    match v
    case JStr(s) => s
    case _ => Repr(v)
  }

  /** `repr(v)`; a string is quoted with single quotes (escaping is not modelled). */
  function Repr(v: Json): string
    decreases v, 1
  {
    match v
    case JNull => "None"
    case JBool(b) => if b then "True" else "False"
    case JInt(i) => PyText.IntToDecimal(i)
    case JStr(s) => "'" + s + "'"
    case JList(items) =>
      "[" + PyText.Join(", ", seq(|items|, i requires 0 <= i < |items| => Repr(items[i]))) + "]"
    case JObject(fields) =>
      "{" + PyText.Join(", ", seq(|fields|, i requires 0 <= i < |fields| =>
                                   "'" + fields[i].0 + "': " + Repr(fields[i].1))) + "}"
  }

  /**
   * The elements `for x in v` visits: a list's items, a string's characters, a dict's
   * keys; null, booleans and numbers are not iterable (a TypeError).
   */
  function Iterate(v: Json): (r: Option<seq<Json>>)
    ensures r.Some? <==> (v.JList? || v.JStr? || v.JObject?)
    ensures v.JList? ==> r == Some(v.items)
    ensures v.JStr? ==> |r.value| == |v.s| && forall i :: 0 <= i < |v.s| ==> r.value[i] == JStr([v.s[i]])
    ensures v.JObject? ==> |r.value| == |v.fields| && forall i :: 0 <= i < |v.fields| ==> r.value[i] == JStr(v.fields[i].0)
    ensures r.Some? ==> (r.value == [] <==> !Truthy(v))
  {
    match v
    case JList(items) => Some(items)
    case JStr(s) => Some(seq(|s|, i requires 0 <= i < |s| => JStr([s[i]])))
    case JObject(fields) => Some(seq(|fields|, i requires 0 <= i < |fields| => JStr(fields[i].0)))
    case _ => None
  }

  /**
   * `d.get(k, [])` iterated: a missing key iterates as the empty list. The iteration is
   * a TypeError exactly when the stored value is not iterable, and it visits nothing
   * exactly when the key is absent or holds a falsy value.
   */
  function IterateKey(d: Dict, k: string): (r: Option<seq<Json>>)
    ensures Get(d, k).None? ==> r == Some([])
    ensures Get(d, k).Some? ==> r == Iterate(Get(d, k).value)
    ensures r.None? <==> k in Keys(d) && !(Get(d, k).value.JList? || Get(d, k).value.JStr? || Get(d, k).value.JObject?)
    ensures r.Some? ==> (r.value == [] <==> k !in Keys(d) || !Truthy(Get(d, k).value))
  {
    match Get(d, k)
    case None => Some([])
    case Some(v) => Iterate(v)
  }
}
