/** An insertion-ordered table: the Python dict that each repository keeps at
    module level, keyed by record id. Re-assigning an existing key keeps its
    position; a new key goes last; deleting a key removes its position. */
module Tables {
  import opened Common

  datatype Table<V> = Table(keys: seq<string>, rows: map<string, V>)
  {
    ghost predicate Valid()
    {
      && (forall i, j :: 0 <= i < j < |keys| ==> keys[i] != keys[j])
      && (forall k :: k in rows <==> k in keys)
    }

    /** dict.get(k) */
    function Get(k: string): (r: Option<V>)
      ensures r.Some? <==> k in rows
      ensures r.Some? ==> r.value == rows[k]
    {
      if k in rows then Some(rows[k]) else None
    }

    /** dict[k] = v */
    function Put(k: string, v: V): (t: Table<V>)
      requires Valid()
      ensures t.Valid()
      ensures t.rows == rows[k := v]
      ensures k in rows ==> t.keys == keys
      ensures k !in rows ==> t.keys == keys + [k]
    {
      if k in rows then Table(keys, rows[k := v]) else Table(keys + [k], rows[k := v])
    }

    /** del dict[k] (no-op for an absent key) */
    function Remove(k: string): (t: Table<V>)
      requires Valid()
      ensures t.Valid()
      ensures t.rows == rows - {k}
      ensures k !in rows ==> t == this
      ensures k in rows ==> t.keys == keys[..IndexOf(keys, k)] + keys[IndexOf(keys, k) + 1..]
    {
      if k in rows then
        var i := IndexOf(keys, k);
        DropAt(keys, i);
        Table(keys[..i] + keys[i + 1..], rows - {k})
      else this
    }

    /** list(dict.values()), in insertion order. */
    function Values(): (vs: seq<V>)
      requires Valid()
      ensures |vs| == |keys|
      ensures forall i :: 0 <= i < |keys| ==> vs[i] == rows[keys[i]]
    {
      seq(|keys|, i requires 0 <= i < |keys| => rows[keys[i]])
    }
  }

  /** Dropping position i of a list without repeats leaves a list without
      repeats that holds every other element. */
  lemma DropAt(keys: seq<string>, i: nat)
    requires i < |keys|
    requires forall a, b :: 0 <= a < b < |keys| ==> keys[a] != keys[b]
    ensures var ks := keys[..i] + keys[i + 1..];
            && (forall a, b :: 0 <= a < b < |ks| ==> ks[a] != ks[b])
            && (forall x :: x in ks <==> x in keys && x != keys[i])
  {
    var ks := keys[..i] + keys[i + 1..];
    assert forall j :: 0 <= j < |ks| ==> ks[j] == if j < i then keys[j] else keys[j + 1];
    forall x | x in keys && x != keys[i] ensures x in ks {
      var m :| 0 <= m < |keys| && keys[m] == x;
      assert ks[if m < i then m else m - 1] == x;
    }
  }

  function Empty<V>(): (t: Table<V>)
    ensures t.Valid() && t.Values() == [] && t.rows == map[]
  {
    Table([], map[])
  }

  /** Storing under a new key appends its value to the value list. */
  lemma PutNewValues<V>(t: Table<V>, k: string, v: V)
    requires t.Valid() && k !in t.rows
    ensures t.Put(k, v).Values() == t.Values() + [v]
  {
    assert k !in t.keys;
  }

  /** Overwriting an existing key replaces its value in place. */
  lemma PutExistingValues<V>(t: Table<V>, k: string, v: V)
    requires t.Valid() && k in t.rows
    ensures t.Put(k, v).Values() == t.Values()[IndexOf(t.keys, k) := v]
  {
    var i := IndexOf(t.keys, k);
    var vs := t.Values();
    var ws := t.Put(k, v).Values();
    forall j | 0 <= j < |ws| ensures ws[j] == vs[i := v][j] {
      if j != i {
        assert t.keys[j] != t.keys[i];
      }
    }
  }
}
