/**
  JSON values as `json.load` hands them to Python: objects keep their
  members in the order written.  As for a Python `dict` built from the
  parsed pairs, a key written twice keeps its first position and its last
  value.
*/
module Json {
  import opened Wrappers
  import opened Counting

  datatype Json =
    | JNull
    | JBool(b: bool)
    | JInt(i: int)
    | JFloat(r: real)
    | JStr(s: string)
    | JList(items: seq<Json>)
    | JObject(fields: seq<(string, Json)>)

  /** The names of the members, as written (repeats included). */
  function Names(fields: seq<(string, Json)>): (ns: seq<string>)
    ensures |ns| == |fields| && forall k :: 0 <= k < |ns| ==> ns[k] == fields[k].0
  {
    if fields == [] then [] else Names(fields[..|fields| - 1]) + [fields[|fields| - 1].0]
  }

  /** `d.get(key)`: the value written last for `key`. */
  function Lookup(fields: seq<(string, Json)>, key: string): (r: Option<Json>)
    ensures r.None? <==> key !in Names(fields)
    ensures r.Some? ==> exists k :: 0 <= k < |fields| && fields[k] == (key, r.value)
  {
    if fields == [] then None
    else if fields[|fields| - 1].0 == key then Some(fields[|fields| - 1].1)
    else
      assert Names(fields) == Names(fields[..|fields| - 1]) + [fields[|fields| - 1].0];
      var r := Lookup(fields[..|fields| - 1], key);
      assert r.Some? ==> exists k :: 0 <= k < |fields| - 1 && fields[k] == (key, r.value);
      r
  }

  /** `list(d.keys())`: each key once, in order of first appearance. */
  function KeyList(fields: seq<(string, Json)>): (ks: seq<string>)
    ensures NoDuplicates(ks)
    ensures forall k :: 0 <= k < |fields| ==> fields[k].0 in ks
    ensures forall k :: 0 <= k < |ks| ==> Lookup(fields, ks[k]).Some?
  {
    Distinct(Names(fields))
  }

  /** With no key written twice, a key's value is the one written with it. */
  lemma {:induction false} LookupUnique(fields: seq<(string, Json)>, k: nat)
    requires NoDuplicates(Names(fields)) && k < |fields|
    ensures Lookup(fields, fields[k].0) == Some(fields[k].1)
  {
    var n := |fields| - 1;
    if k < n {
      var p := fields[..n];
      assert Names(fields) == Names(p) + [fields[n].0];
      assert fields[n].0 != fields[k].0 by { assert Names(fields)[k] == fields[k].0; }
      assert NoDuplicates(Names(p)) by {
        forall i, j | 0 <= i < j < |p| ensures Names(p)[i] != Names(p)[j] {
          assert Names(p)[i] == Names(fields)[i] && Names(p)[j] == Names(fields)[j];
        }
      }
      LookupUnique(p, k);
      assert p[k] == fields[k];
    }
  }

  /** With no key written twice, the keys are the names as written. */
  lemma KeyListUnique(fields: seq<(string, Json)>)
    requires NoDuplicates(Names(fields))
    ensures KeyList(fields) == Names(fields)
  {
    DistinctOfUnique(Names(fields));
  }
}
