/** Values shared by every stage of the ingestion pipeline: Python's None, exceptions,
    and the JSON-shaped dictionaries that flow from the fetcher to the database. */
module Values {

  /** Python's `None` versus a value. */
  datatype Option<+T> = None | Some(value: T) {
    predicate IsFailure() { None? }
    function PropagateFailure<U>(): Option<U> requires None? { None }
    function Extract(): T requires Some? { value }
  }

  /** The result of evaluating Python code that may raise: `Raised` stands for any exception. */
  datatype Outcome<+T> = Returned(value: T) | Raised {
    predicate IsFailure() { Raised? }
    function PropagateFailure<U>(): Outcome<U> requires Raised? { Raised }
    function Extract(): T requires Returned? { value }
  }

  /** A JSON value as `response.json()` produces it. An object keeps its members in the order
      of the text, which is the order in which Python iterates the resulting dict. */
  datatype Json =
    | JNull
    | JBool(b: bool)
    | JNum(n: real)
    | JStr(s: string)
    | JArr(items: seq<Json>)
    | JObj(members: seq<(string, Json)>)

  /** A Python dict with string keys, as an ordered list of members. */
  type Dict = seq<(string, Json)>

  /** The keys of a dict. */
  function Keys(d: Dict): set<string>
    decreases |d|
  {
    if d == [] then {} else Keys(d[..|d| - 1]) + {d[|d| - 1].0}
  }

  /** The keys of a dict in iteration order. */
  function KeyOrder(d: Dict): (r: seq<string>)
    ensures |r| == |d|
    ensures forall i | 0 <= i < |d| :: r[i] == d[i].0
  {
    seq(|d|, i requires 0 <= i < |d| => d[i].0)
  }

  /** `d.get(k)`: the value of the LAST member named `k`, as for a dict display or `json.loads`
      that repeats a key. */
  function Get(d: Dict, k: string): (r: Option<Json>)
    ensures r.Some? <==> k in Keys(d)

    decreases |d|
  {
    if d == [] then None
    else if d[|d| - 1].0 == k then Some(d[|d| - 1].1)
    else Get(d[..|d| - 1], k)
  }

  /** Adding members at the end overrides earlier members with the same key and nothing else. */
  lemma {:induction false} GetAppend(d: Dict, e: Dict, k: string)
    ensures Get(d + e, k) == if k in Keys(e) then Get(e, k) else Get(d, k)
    ensures Keys(d + e) == Keys(d) + Keys(e)
    decreases |e|
  {
    if e == [] {
      assert d + e == d;
    } else {
      var n := |e| - 1;
      assert (d + e)[..|d + e| - 1] == d + e[..n];
      GetAppend(d, e[..n], k);
    }
  }

  /** `v[k]` on an arbitrary JSON value: only an object can be subscripted by a string, and a
      missing key raises KeyError. */
  function Subscript(v: Json, k: string): (r: Outcome<Json>)
    ensures r.Returned? <==> v.JObj? && k in Keys(v.members)
    ensures r.Returned? ==> Get(v.members, k) == Some(r.value)
  {
    match v
    case JObj(members) => if k in Keys(members) then Returned(Get(members, k).value) else Raised
    case _ => Raised
  }

  /** `v.get(k, default)`: only a dict has `get`; anything else raises AttributeError. */
  function DictGet(v: Json, k: string, default: Json): (r: Outcome<Json>)
    ensures r.Returned? <==> v.JObj?
    ensures v.JObj? && k !in Keys(v.members) ==> r == Returned(default)
    ensures v.JObj? && k in Keys(v.members) ==> r.Returned? && Get(v.members, k) == Some(r.value)
  {
    match v
    case JObj(members) => if k in Keys(members) then Returned(Get(members, k).value) else Returned(default)
    case _ => Raised
  }

  /** `for x in v`: a list yields its items, a dict its keys, a string its characters;
      anything else is not iterable and raises TypeError. */
  function Iterate(v: Json): (r: Outcome<seq<Json>>)
    ensures r.Returned? <==> v.JArr? || v.JObj? || v.JStr?
    ensures v.JArr? ==> r == Returned(v.items)
    ensures v.JObj? ==>
      && |r.value| == |v.members|
      && forall i | 0 <= i < |v.members| :: r.value[i] == JStr(v.members[i].0)
    ensures v.JStr? ==> |r.value| == |v.s| && forall i | 0 <= i < |v.s| :: r.value[i] == JStr([v.s[i]])
  {
    match v
    case JArr(items) => Returned(items)
    case JObj(members) => Returned(seq(|members|, i requires 0 <= i < |members| => JStr(members[i].0)))
    case JStr(s) => Returned(seq(|s|, i requires 0 <= i < |s| => JStr([s[i]])))
    case _ => Raised
  }
}
