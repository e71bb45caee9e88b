/** The JSON values a message is made of. */
module JsonValues {
  import opened Outcomes

  datatype Json =
    | JNull
    | JBool(b: bool)
    | JNum(n: int)
    | JStr(s: string)
    | JArr(items: seq<Json>)
    | JObj(entries: seq<(string, Json)>)

  type Entry = (string, Json)

  predicate UniqueKeys(kvs: seq<Entry>) {
    forall i, j :: 0 <= i < j < |kvs| ==> kvs[i].0 != kvs[j].0
  }

  /** A JSON value as a JavaScript object can hold it: no object repeats a key. */
  predicate Valid(v: Json) {
    match v
    case JArr(xs) => forall i :: 0 <= i < |xs| ==> Valid(xs[i])
    case JObj(kvs) => UniqueKeys(kvs) && forall i :: 0 <= i < |kvs| ==> Valid(kvs[i].1)
    case _ => true
  }

  /** Position of the first entry whose key is `k`, if any. */
  function Find(kvs: seq<Entry>, k: string): (r: Option<nat>)
    ensures r.Some? ==> r.value < |kvs| && kvs[r.value].0 == k
    ensures r.Some? ==> forall i :: 0 <= i < r.value ==> kvs[i].0 != k
    ensures r.None? ==> forall i :: 0 <= i < |kvs| ==> kvs[i].0 != k
  {
    if |kvs| == 0 then None
    else if kvs[0].0 == k then Some(0)
    else match Find(kvs[1..], k)
      case None => None
      case Some(i) => Some(i + 1)
  }

  /** Property access `obj[k]`. */
  function Get(kvs: seq<Entry>, k: string): Option<Json> {
    match Find(kvs, k)
    case None => None
    case Some(i) => Some(kvs[i].1)
  }

  /** With unique keys, looking up an entry's key finds that very entry. */
  lemma FindEntry(kvs: seq<Entry>, e: Entry)
    requires UniqueKeys(kvs) && e in kvs
    ensures Find(kvs, e.0).Some? && kvs[Find(kvs, e.0).value] == e
  {
    var j :| 0 <= j < |kvs| && kvs[j] == e;
    var r := Find(kvs, e.0);
    assert r.Some?;
    assert r.value == j by {
      if r.value < j {
        assert kvs[r.value].0 == kvs[j].0;
      }
    }
  }
}
