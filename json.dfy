/** JSON values as the client decodes them from the activity API, and the few
    Python behaviours the sync engine relies on when it handles them:
    dictionary lookup, `== 0`, iteration and subscripting (negative indices
    included), and which values sqlite3 can bind as statement parameters. */
module Json {

  datatype Option<T> = None | Some(value: T)

  /** A decoded JSON value.  JNum holds JSON integers and floats alike (Python
      compares 0 and 0.0 equal); JList stands for any array or nested object. */
  datatype Json =
    | JNull
    | JBool(b: bool)
    | JNum(n: real)
    | JText(s: string)
    | JList(items: seq<Json>)

  /** An HTTP answer: status 200 with its decoded body, or any other status. */
  datatype Response<T> = Ok(body: T) | NotOk

  /** The exceptions the engine can raise without catching them. */
  datatype Exc = KeyError(key: string) | IndexError | TypeError | AttributeError

  /** The outcome of a Python call: the value it returned, or the exception
      that escaped from it. */
  datatype Ret<T> = Returned(value: T) | Raised(exc: Exc)

  predicate DistinctKeys(entries: seq<(string, Json)>) {
    forall i, j :: 0 <= i < j < |entries| ==> entries[i].0 != entries[j].0
  }

  /** A decoded JSON object (a Python dict): its entries in document order,
      each key once. */
  type JsonObject = entries: seq<(string, Json)> | DistinctKeys(entries) witness []

  /** `o[key]`, or None where Python raises KeyError. */
  function Get(o: seq<(string, Json)>, key: string): (r: Option<Json>)
    ensures r.Some? ==> exists i :: 0 <= i < |o| && o[i] == (key, r.value)
    ensures r.None? <==> forall i :: 0 <= i < |o| ==> o[i].0 != key
  {
    if o == [] then None
    else if o[0].0 == key then Some(o[0].1)
    else
      var r := Get(o[1..], key);
      assert forall i :: 1 <= i < |o| ==> o[i] == o[1..][i - 1];
      r
  }

  predicate HasKey(o: seq<(string, Json)>, key: string) {
    Get(o, key).Some?
  }

  /** In a dict every entry is what a lookup of its key finds. */
  lemma {:induction false} GetEntry(o: JsonObject, i: nat)
    requires i < |o|
    ensures Get(o, o[i].0) == Some(o[i].1)
  {
    if i > 0 {
      var tail: JsonObject := o[1..];
      GetEntry(tail, i - 1);
    }
  }

  /** The first of `keys` that `o` lacks, if any. */
  function FirstMissing(o: seq<(string, Json)>, keys: seq<string>): (r: Option<string>)
    ensures r.Some? ==> r.value in keys && !HasKey(o, r.value)
    ensures r.None? <==> forall k :: k in keys ==> HasKey(o, k)
    ensures r.Some? ==>
      exists i :: 0 <= i < |keys| && keys[i] == r.value && forall j :: 0 <= j < i ==> HasKey(o, keys[j])
  {
    if keys == [] then None
    else if !HasKey(o, keys[0]) then Some(keys[0])
    else FirstMissing(o, keys[1..])
  }

  /** Python's `v == 0`: true for 0, 0.0 and False. */
  predicate EqualsZero(v: Json) {
    v == JBool(false) || v == JNum(0.0)
  }

  /** What Python iterates over or subscripts in `v`: the items of a list, the
      one-character strings of a string; None where it raises TypeError. */
  function AsSeq(v: Json): Option<seq<Json>> {
    match v
    case JList(items) => Some(items)
    case JText(s) => Some(seq(|s|, i requires 0 <= i < |s| => JText([s[i]])))
    case _ => None
  }

  /** Python's `s[i]`: negative indices count from the end; None where Python
      raises IndexError. */
  function PyIndex<T>(s: seq<T>, i: int): Option<T> {
    if 0 <= i < |s| then Some(s[i])
    else if -|s| <= i < 0 then Some(s[|s| + i])
    else None
  }

  /** Index -1, the value a route field index keeps when its name never
      appears, selects the last element of a non-empty sequence. */
  lemma MinusOneIsLast<T>(s: seq<T>)
    requires s != []
    ensures PyIndex(s, -1) == Some(s[|s| - 1])
  {
  }

  /** sqlite3 binds None, booleans, numbers and strings; a list or a nested
      object makes the statement fail. */
  predicate Bindable(v: Json) {
    !v.JList?
  }
}
