/** Python values as the repository's dict-shaped records hold them.
    A nested dict is an insertion-ordered list of fields (Python dicts keep
    insertion order); a top-level record is a map from key to value. */
module Json {
  import opened Common

  datatype Json =
    | JNull
    | JBool(b: bool)
    | JInt(i: int)
    | JStr(s: string)
    | JList(items: seq<Json>)
    | JObj(fields: seq<Field>)

  datatype Field = Field(key: string, value: Json)

  /** A dict record whose keys are strings. */
  type Record = map<string, Json>

  /** Python's bool(v). */
  predicate Truthy(v: Json)
  {
    match v
    case JNull => false
    case JBool(b) => b
    case JInt(i) => i != 0
    case JStr(s) => s != ""
    case JList(xs) => xs != []
    case JObj(fs) => fs != []
  }

  /** r.get(k, default) when the stored value is a string; default otherwise. */
  function StrField(r: Record, k: string, default: string): string
  {
    if k in r && r[k].JStr? then r[k].s else default
  }

  /** Python's str(v) for scalars. Containers render as "" here. */
  function PyStr(v: Json): string
  {
    match v
    case JNull => "None"
    case JBool(b) => if b then "True" else "False"
    case JInt(i) => IntToString(i)
    case JStr(s) => s
    case _ => ""
  }

  // ---------------------------------------------------------------------
  // Nested dicts as field lists

  function KeysOf(fs: seq<Field>): (ks: set<string>)
    ensures forall i :: 0 <= i < |fs| ==> fs[i].key in ks
  {
    if fs == [] then {} else {fs[0].key} + KeysOf(fs[1..])
  }

  /** Position of the first field with key k. */
  function KeyIndex(fs: seq<Field>, k: string): (i: nat)
    requires k in KeysOf(fs)
    ensures i < |fs| && fs[i].key == k
    ensures Lookup(fs, k) == Some(fs[i].value)
  {
    if fs[0].key == k then 0 else 1 + KeyIndex(fs[1..], k)
  }

  predicate DistinctKeys(fs: seq<Field>)
  {
    forall i, j :: 0 <= i < j < |fs| ==> fs[i].key != fs[j].key
  }

  /** In a dict, the first key does not occur again. */
  lemma DistinctHead(fs: seq<Field>)
    requires fs != [] && DistinctKeys(fs)
    ensures fs[0].key !in KeysOf(fs[1..])
  {
    if fs[0].key in KeysOf(fs[1..]) {
      var j := KeyIndex(fs[1..], fs[0].key);
      assert false;
    }
  }

  /** d.get(k) for a nested dict: the value of the first field with key k. */
  function Lookup(fs: seq<Field>, k: string): (r: Option<Json>)
    ensures r.None? <==> k !in KeysOf(fs)
  {
    if fs == [] then None
    else if fs[0].key == k then Some(fs[0].value)
    else Lookup(fs[1..], k)
  }

  /** d[k] = v: overwrites the field in place, or appends a new one. */
  function Assign(fs: seq<Field>, k: string, v: Json): (r: seq<Field>)
    ensures KeysOf(r) == KeysOf(fs) + {k}
    ensures Lookup(r, k) == Some(v)
    ensures forall k' :: k' != k ==> Lookup(r, k') == Lookup(fs, k')
  {
    if fs == [] then [Field(k, v)]
    else if fs[0].key == k then [Field(k, v)] + fs[1..]
    else [fs[0]] + Assign(fs[1..], k, v)
  }
}
