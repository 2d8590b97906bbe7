/**
 * JavaScript values as far as the passes inspect them, and plain objects as
 * insertion-ordered key/value entries (`Object.keys` order, `o[k] = v`).
 */
module JsObject {
  import opened Ast

  datatype Json =
    | JNull
    | JBool(b: bool)
    | JNum(n: int)
    | JStr(s: string)
    | JArr(items: seq<Json>)
    | JObj(entries: seq<Entry>)

  datatype Entry = Entry(key: string, value: Json)

  /** `Object.keys(o)` */
  function Keys(es: seq<Entry>): (r: seq<string>)
    ensures |r| == |es|
    ensures forall i :: 0 <= i < |es| ==> r[i] == es[i].key
  {
    seq(|es|, i requires 0 <= i < |es| => es[i].key)
  }

  predicate DistinctKeys(es: seq<Entry>) {
    forall i, j :: 0 <= i < j < |es| ==> es[i].key != es[j].key
  }

  /** `o[k]`, absent keys giving `None`. */
  function Get(es: seq<Entry>, k: string): (r: Option<Json>)
    ensures r.None? <==> k !in Keys(es)
    ensures r.Some? ==> Entry(k, r.value) in es
  {
    if es == [] then None
    else if es[0].key == k then Some(es[0].value)
    else Get(es[1..], k)
  }

  /** `o[k] = v`: an existing key keeps its place, a new key goes last. */
  function Put(es: seq<Entry>, k: string, v: Json): (r: seq<Entry>)
    ensures k in Keys(es) ==> Keys(r) == Keys(es)
    ensures k !in Keys(es) ==> Keys(r) == Keys(es) + [k]
  {
    if es == [] then [Entry(k, v)]
    else if es[0].key == k then [Entry(k, v)] + es[1..]
    else [es[0]] + Put(es[1..], k, v)
  }

  lemma {:induction false} PutGet(es: seq<Entry>, k: string, v: Json, k2: string)
    ensures Get(Put(es, k, v), k2) == if k2 == k then Some(v) else Get(es, k2)
  {
    if es != [] && es[0].key != k {
      PutGet(es[1..], k, v, k2);
    }
  }

  lemma {:induction false} PutDistinct(es: seq<Entry>, k: string, v: Json)
    requires DistinctKeys(es)
    ensures DistinctKeys(Put(es, k, v))
  {
    var r := Put(es, k, v);
    assert Keys(r) == Keys(es) || Keys(r) == Keys(es) + [k];
    forall i, j | 0 <= i < j < |r|
      ensures r[i].key != r[j].key
    {
      assert Keys(r)[i] == r[i].key && Keys(r)[j] == r[j].key;
      if j == |es| {
        assert k !in Keys(es);
        assert Keys(es)[i] == es[i].key;
      } else {
        assert Keys(es)[i] == es[i].key && Keys(es)[j] == es[j].key;
      }
    }
  }
}
