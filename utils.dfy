/** utils.py: string sanitising, list chunking and pagination, nested-dict
    helpers, the retry loop and clamp. */
module Utils {
  import opened Common
  import opened Json

  // ---------------------------------------------------------------------
  // remove_html_tags / sanitize_string

  /** What remove_html_tags keeps of s when the scan starts with the given
      in_tag flag: '<' opens a tag, '>' closes one, and every other character
      is kept exactly when no tag is open. */
  function StripTags(s: string, inTag: bool): string
  {
    if s == [] then []
    else if s[0] == '<' then StripTags(s[1..], true)
    else if s[0] == '>' then StripTags(s[1..], false)
    else if inTag then StripTags(s[1..], true)
    else [s[0]] + StripTags(s[1..], false)
  }

  /** remove_html_tags: the character loop with its in_tag flag. */
  method RemoveHtmlTags(value: string) returns (r: string)
    ensures r == StripTags(value, false)
  {
    var result: string := [];
    var inTag := false;
    var i := 0;
    while i < |value|
      invariant 0 <= i <= |value|
      invariant result + StripTags(value[i..], inTag) == StripTags(value, false)
    {
      var c := value[i];
      assert value[i..][1..] == value[i + 1..];
      if c == '<' {
        inTag := true;
      } else if c == '>' {
        inTag := false;
      } else if !inTag {
        result := result + [c];
      }
      i := i + 1;
    }
    assert value[i..] == [];
    r := result;
  }

  /** The output has no angle brackets and is no longer than the input. */
  lemma {:induction false} StripTagsClean(s: string, inTag: bool)
    ensures '<' !in StripTags(s, inTag) && '>' !in StripTags(s, inTag)
    ensures |StripTags(s, inTag)| <= |s|
  {
    if s != [] {
      StripTagsClean(s[1..], s[0] == '<' || (s[0] != '>' && inTag));
    }
  }

  /** Text without angle brackets passes through unchanged. */
  lemma {:induction false} StripTagsPlain(s: string)
    requires '<' !in s && '>' !in s
    ensures StripTags(s, false) == s
  {
    if s != [] {
      StripTagsPlain(s[1..]);
    }
  }

  /** remove_html_tags is idempotent. */
  lemma StripTagsIdempotent(s: string)
    ensures StripTags(StripTags(s, false), false) == StripTags(s, false)
  {
    StripTagsClean(s, false);
    StripTagsPlain(StripTags(s, false));
  }

  /** A tag is dropped as a whole and the text around it is kept in order. */
  lemma {:induction false} StripTagsDropsTag(a: string, tag: string, b: string)
    requires '<' !in a && '>' !in a && '>' !in tag
    ensures StripTags(a + ['<'] + tag + ['>'] + b, false) == a + StripTags(b, false)
  {
    if a == [] {
      InsideTag(tag, b);
      var t := ['<'] + tag + ['>'] + b;
      assert a + ['<'] + tag + ['>'] + b == t;
      assert t[0] == '<' && t[1..] == tag + ['>'] + b;
    } else {
      assert (a + ['<'] + tag + ['>'] + b)[1..] == a[1..] + ['<'] + tag + ['>'] + b;
      StripTagsDropsTag(a[1..], tag, b);
    }
  }

  lemma {:induction false} InsideTag(tag: string, b: string)
    requires '>' !in tag
    ensures StripTags(tag + ['>'] + b, true) == StripTags(b, false)
  {
    if tag == [] {
      assert (['>'] + b)[1..] == b;
    } else {
      assert (tag + ['>'] + b)[1..] == tag[1..] + ['>'] + b;
      InsideTag(tag[1..], b);
    }
  }

  /** What sanitize_string returns: surrounding whitespace stripped, then
      tags removed. */
  function Sanitized(value: string): (r: string)
    ensures '<' !in r && '>' !in r && |r| <= |value|
  {
    StripTagsClean(Strip(value), false);
    StripTags(Strip(value), false)
  }

  /** sanitize_string */
  method SanitizeString(value: string) returns (r: string)
    ensures r == Sanitized(value)
  {
    r := RemoveHtmlTags(Strip(value));
  }

  // ---------------------------------------------------------------------
  // chunk_list / paginate

  /** The slices items[i:i + n] for i in range(0, len(items), n), n > 0. */
  function Chunks<T>(s: seq<T>, n: nat): (cs: seq<seq<T>>)
    requires n > 0
    decreases |s|
  {
    if s == [] then []
    else if |s| <= n then [s]
    else [s[..n]] + Chunks(s[n..], n)
  }

  function Flatten<T>(cs: seq<seq<T>>): seq<T>
  {
    if cs == [] then [] else cs[0] + Flatten(cs[1..])
  }

  /** chunk_list: a negative size gives an empty range and no chunks; a zero
      size makes Python's range raise, so callers must not pass it. */
  method ChunkList<T>(items: seq<T>, chunkSize: int) returns (chunks: seq<seq<T>>)
    requires chunkSize != 0
    ensures chunkSize < 0 ==> chunks == []
    ensures chunkSize > 0 ==> chunks == Chunks(items, chunkSize)
  {
    chunks := [];
    if chunkSize < 0 {
      return;
    }
    var i := 0;
    while i < |items|
      invariant 0 <= i <= |items|
      invariant chunks + Chunks(items[i..], chunkSize) == Chunks(items, chunkSize)
      decreases |items| - i
    {
      var j := if i + chunkSize <= |items| then i + chunkSize else |items|;
      var rest := items[i..];
      assert Chunks(rest, chunkSize) == [items[i..j]] + Chunks(items[j..], chunkSize) by {
        if |rest| > chunkSize {
          assert rest[..chunkSize] == items[i..j];
          assert rest[chunkSize..] == items[j..];
        } else {
          assert rest == items[i..j];
          assert items[j..] == [];
        }
      }
      chunks := chunks + [items[i..j]];
      i := j;
    }
    assert items[i..] == [];
  }

  /** The chunks concatenate back to the input. */
  lemma {:induction false} ChunksFlatten<T>(s: seq<T>, n: nat)
    requires n > 0
    ensures Flatten(Chunks(s, n)) == s
    decreases |s|
  {
    if |s| > n {
      ChunksFlatten(s[n..], n);
      var cs := Chunks(s, n);
      assert cs[0] == s[..n] && cs[1..] == Chunks(s[n..], n);
      assert s == s[..n] + s[n..];
    } else if s != [] {
      assert Chunks(s, n)[1..] == [];
    }
  }

  /** No chunk is empty, and every chunk but the last has exactly n items. */
  lemma {:induction false} ChunksSizes<T>(s: seq<T>, n: nat)
    requires n > 0
    ensures forall i :: 0 <= i < |Chunks(s, n)| ==> 0 < |Chunks(s, n)[i]| <= n
    ensures forall i :: 0 <= i < |Chunks(s, n)| - 1 ==> |Chunks(s, n)[i]| == n
    decreases |s|
  {
    if |s| > n {
      ChunksSizes(s[n..], n);
      var cs := Chunks(s, n);
      assert forall i :: 1 <= i < |cs| ==> cs[i] == Chunks(s[n..], n)[i - 1];
    }
  }

  /** There are ceil(|s| / n) chunks: the fewest whose n-item windows
      cover s. */
  lemma {:induction false} ChunksCount<T>(s: seq<T>, n: nat)
    requires n > 0
    ensures s == [] ==> |Chunks(s, n)| == 0
    ensures s != [] ==> (|Chunks(s, n)| - 1) * n < |s| <= |Chunks(s, n)| * n
    decreases |s|
  {
    if |s| > n {
      ChunksCount(s[n..], n);
      var c := |Chunks(s[n..], n)|;
      assert |Chunks(s, n)| == c + 1;
      assert (c + 1) * n == c * n + n;
    }
  }

  /** The k-th chunk is the k-th window of n items. */
  lemma {:induction false} ChunkAt<T>(s: seq<T>, n: nat, k: nat)
    requires n > 0 && k < |Chunks(s, n)|
    ensures k * n < |s|
    ensures Chunks(s, n)[k] == s[k * n .. if (k + 1) * n <= |s| then (k + 1) * n else |s|]
    decreases |s|
  {
    if k > 0 {
      ChunkAt(s[n..], n, k - 1);
      assert Chunks(s, n)[k] == Chunks(s[n..], n)[k - 1];
      assert (k - 1) * n + n == k * n;
    }
  }

  datatype Page<T> = Page(items: seq<T>, page: int, totalPages: nat)

  /** paginate: the page-th chunk (1-based), or no items for a page outside
      1 .. total_pages. A negative page size yields zero pages. */
  function Paginate<T>(items: seq<T>, page: int, pageSize: int): (r: Page<T>)
    requires pageSize != 0
    ensures r.page == page
    ensures pageSize > 0 && items == [] ==> r.totalPages == 0
    ensures pageSize > 0 && items != [] ==>
              (r.totalPages - 1) * pageSize < |items| <= r.totalPages * pageSize
    ensures pageSize < 0 ==> r.totalPages == 0
    ensures page < 1 || page > r.totalPages ==> r.items == []
    ensures 1 <= page <= r.totalPages ==>
              pageSize > 0 &&
              var lo := (page - 1) * pageSize;
              var hi := if page * pageSize <= |items| then page * pageSize else |items|;
              lo < |items| && r.items == items[lo..hi]
  {
    if pageSize < 0 then Page([], page, 0)
    else
      var chunks := Chunks(items, pageSize);
      PageWindow(items, page, pageSize);
      if page < 1 || page > |chunks| then Page([], page, |chunks|)
      else Page(chunks[page - 1], page, |chunks|)
  }

  lemma PageWindow<T>(items: seq<T>, page: int, pageSize: int)
    requires pageSize > 0
    ensures items == [] ==> |Chunks(items, pageSize)| == 0
    ensures items != [] ==>
              (|Chunks(items, pageSize)| - 1) * pageSize < |items| <= |Chunks(items, pageSize)| * pageSize
    ensures 1 <= page <= |Chunks(items, pageSize)| ==>
              var lo := (page - 1) * pageSize;
              var hi := if page * pageSize <= |items| then page * pageSize else |items|;
              lo < |items| && Chunks(items, pageSize)[page - 1] == items[lo..hi]
  {
    ChunksCount(items, pageSize);
    if 1 <= page <= |Chunks(items, pageSize)| {
      ChunkAt(items, pageSize, page - 1);
      assert (page - 1 + 1) * pageSize == page * pageSize;
    }
  }

  // ---------------------------------------------------------------------
  // deep_copy / merge_dicts

  /** deep_copy rebuilds every dict and list. */
  function DeepCopy(obj: Json): (r: Json)
    ensures r == obj
    decreases obj, 1
  {
    match obj
    case JObj(fs) => JObj(DeepCopyFields(fs))
    case JList(xs) => JList(DeepCopyItems(xs))
    case _ => obj
  }

  function DeepCopyFields(fs: seq<Field>): (r: seq<Field>)
    ensures r == fs
    decreases fs, 0
  {
    if fs == [] then []
    else [Field(fs[0].key, DeepCopy(fs[0].value))] + DeepCopyFields(fs[1..])
  }

  function DeepCopyItems(xs: seq<Json>): (r: seq<Json>)
    ensures r == xs
    decreases xs, 0
  {
    if xs == [] then [] else [DeepCopy(xs[0])] + DeepCopyItems(xs[1..])
  }

  /** The loop of merge_dicts: each override field in turn is merged into the
      result when both sides hold a dict, and assigned otherwise. */
  function MergeInto(result: seq<Field>, override: seq<Field>): (r: seq<Field>)
    ensures KeysOf(r) == KeysOf(result) + KeysOf(override)
    ensures forall k :: k !in KeysOf(override) ==> Lookup(r, k) == Lookup(result, k)
    decreases override, 1
  {
    if override == [] then result
    else
      var f := override[0];
      assert f in override;
      MergeInto(Assign(result, f.key, MergedValue(Lookup(result, f.key), f.value)), override[1..])
  }

  /** The value merge_dicts stores for an override key: the override value
      itself, unless both sides hold a dict, which are merged recursively. */
  function MergedValue(prev: Option<Json>, v: Json): Json
    decreases v, 0
  {
    match (prev, v)
    case (Some(JObj(a)), JObj(b)) => JObj(MergeInto(a, b))
    case _ => v
  }

  /** merge_dicts: a deep copy of base with override merged into it. */
  function MergeDicts(base: seq<Field>, override: seq<Field>): (r: seq<Field>)
    ensures KeysOf(r) == KeysOf(base) + KeysOf(override)
    ensures forall k :: k !in KeysOf(override) ==> Lookup(r, k) == Lookup(base, k)
  {
    MergeInto(DeepCopyFields(base), override)
  }

  /** For a key of the override dict (which has distinct keys, as a dict
      does), the result holds the merged value. */
  lemma {:induction false} MergeIntoOverride(result: seq<Field>, override: seq<Field>, k: string)
    requires DistinctKeys(override)
    requires k in KeysOf(override)
    decreases override
    ensures Lookup(MergeInto(result, override), k) ==
              Some(MergedValue(Lookup(result, k), Lookup(override, k).value))
  {
    var f := override[0];
    var next := Assign(result, f.key, MergedValue(Lookup(result, f.key), f.value));
    assert MergeInto(result, override) == MergeInto(next, override[1..]);
    if f.key == k {
      DistinctHead(override);
    } else {
      assert DistinctKeys(override[1..]) by {
        forall i, j | 0 <= i < j < |override[1..]| ensures override[1..][i].key != override[1..][j].key {
          assert override[1..][i] == override[i + 1] && override[1..][j] == override[j + 1];
        }
      }
      MergeIntoOverride(next, override[1..], k);
    }
  }

  // ---------------------------------------------------------------------
  // flatten_dict

  predicate NoDictValues(fs: seq<Field>)
  {
    forall i :: 0 <= i < |fs| ==> !fs[i].value.JObj?
  }

  function NewKey(prefix: string, k: string): string
  {
    if prefix != "" then prefix + "." + k else k
  }

  /** items.update(sub): assigns sub's fields in order. */
  function UpdateWith(items: seq<Field>, sub: seq<Field>): (r: seq<Field>)
    ensures NoDictValues(items) && NoDictValues(sub) ==> NoDictValues(r)
    decreases sub
  {
    if sub == [] then items
    else
      AssignNoDict(items, sub[0].key, sub[0].value);
      UpdateWith(Assign(items, sub[0].key, sub[0].value), sub[1..])
  }

  /** The loop of flatten_dict over d's fields, accumulating into items:
      nested dicts are flattened under the dotted key, other values are
      stored under it. The result holds no dict values. */
  function FlattenInto(items: seq<Field>, d: seq<Field>, prefix: string): (r: seq<Field>)
    ensures NoDictValues(items) ==> NoDictValues(r)
    decreases d
  {
    if d == [] then items
    else
      var f := d[0];
      assert f in d;
      var key := NewKey(prefix, f.key);
      var next := if f.value.JObj? then UpdateWith(items, FlattenInto([], f.value.fields, key))
                  else (AssignNoDict(items, key, f.value); Assign(items, key, f.value));
      FlattenInto(next, d[1..], prefix)
  }

  /** flatten_dict(d, prefix) */
  function FlattenDict(d: seq<Field>, prefix: string): (r: seq<Field>)
    ensures NoDictValues(r)
  {
    FlattenInto([], d, prefix)
  }

  lemma {:induction false} AssignNoDict(fs: seq<Field>, k: string, v: Json)
    ensures NoDictValues(fs) && !v.JObj? ==> NoDictValues(Assign(fs, k, v))
  {
    if fs != [] && fs[0].key != k {
      AssignNoDict(fs[1..], k, v);
    }
  }

  /** One level of nesting: {"a": {"b": v}} flattens to {"a.b": v}. */
  lemma FlattenNested(a: string, b: string, v: Json)
    requires a != "" && !v.JObj?
    ensures FlattenDict([Field(a, JObj([Field(b, v)]))], "") == [Field(a + "." + b, v)]
  {
    var inner := [Field(b, v)];
    var flat := [Field(a + "." + b, v)];
    assert inner[1..] == [];
    assert FlattenInto([], inner, a) == FlattenInto(Assign([], a + "." + b, v), [], a);
    assert FlattenInto([], inner, a) == flat;
    assert flat[1..] == [];
    assert UpdateWith([], flat) == UpdateWith(Assign([], a + "." + b, v), []);
    assert UpdateWith([], flat) == flat;
    var d := [Field(a, JObj(inner))];
    assert d[1..] == [];
    assert FlattenInto([], d, "") == FlattenInto(UpdateWith([], FlattenInto([], inner, a)), [], "");
  }

  /** The key flatten_dict gives the value at path ks below a dict
      flattened under prefix: each step applies the new_key rule. */
  function PathKey(prefix: string, ks: seq<string>): string
    decreases |ks|
  {
    if ks == [] then prefix else PathKey(NewKey(prefix, ks[0]), ks[1..])
  }

  /** With a non-empty first key, the flattened key is the keys joined
      with ".". */
  lemma {:induction false} PathKeyDotted(ks: seq<string>)
    requires ks != [] && ks[0] != ""
    ensures PathKey("", ks) == JoinChar(ks, '.')
  {
    if |ks| > 1 {
      PathKeyUnder(ks[0], ks[1..]);
    }
  }

  lemma {:induction false} PathKeyUnder(p: string, ks: seq<string>)
    requires p != "" && ks != []
    ensures PathKey(p, ks) == p + "." + JoinChar(ks, '.')
    decreases |ks|
  {
    if |ks| > 1 {
      PathKeyUnder(p + "." + ks[0], ks[1..]);
      assert (p + "." + ks[0]) + "." + JoinChar(ks[1..], '.') == p + "." + (ks[0] + ['.'] + JoinChar(ks[1..], '.'));
    }
  }

  lemma {:induction false} PathKeySnoc(prefix: string, ks: seq<string>, k: string)
    ensures PathKey(prefix, ks + [k]) == NewKey(PathKey(prefix, ks), k)
    decreases |ks|
  {
    if ks == [] {
      assert [k][1..] == [];
    } else {
      assert (ks + [k])[0] == ks[0];
      assert (ks + [k])[1..] == ks[1..] + [k];
      PathKeySnoc(NewKey(prefix, ks[0]), ks[1..], k);
    }
  }

  /** A Python dict, at every level: no key occurs twice. */
  predicate DistinctDeep(fs: seq<Field>)
    decreases fs
  {
    DistinctKeys(fs) && forall f :: f in fs && f.value.JObj? ==> DistinctDeep(f.value.fields)
  }

  lemma {:induction false} LookupField(fs: seq<Field>, f: Field)
    requires f in fs && DistinctKeys(fs)
    ensures Lookup(fs, f.key) == Some(f.value)
  {
    var i :| 0 <= i < |fs| && fs[i] == f;
    var j := KeyIndex(fs, f.key);
    assert fs[j] == f;
  }

  /** Field f of a flattened dict holds the value at some key path whose
      flattened key is f's key. */
  ghost predicate AtPath(root: Json, f: Field)
  {
    exists ks :: PathKey("", ks) == f.key && Reach(root, ks) == Some(f.value)
  }

  ghost predicate AllAtPaths(root: Json, fs: seq<Field>)
  {
    forall i :: 0 <= i < |fs| ==> AtPath(root, fs[i])
  }

  lemma {:induction false} AssignAtPaths(root: Json, fs: seq<Field>, k: string, v: Json)
    requires AllAtPaths(root, fs) && AtPath(root, Field(k, v))
    ensures AllAtPaths(root, Assign(fs, k, v))
  {
    if fs != [] {
      assert AllAtPaths(root, fs[1..]) by {
        forall i | 0 <= i < |fs[1..]| ensures AtPath(root, fs[1..][i]) {
          assert fs[1..][i] == fs[i + 1];
        }
      }
      if fs[0].key != k {
        AssignAtPaths(root, fs[1..], k, v);
        var r := Assign(fs, k, v);
        forall i | 0 <= i < |r| ensures AtPath(root, r[i]) {
          if i > 0 {
            assert r[i] == Assign(fs[1..], k, v)[i - 1];
          }
        }
      }
    }
  }

  lemma {:induction false} UpdateWithAtPaths(root: Json, items: seq<Field>, sub: seq<Field>)
    requires AllAtPaths(root, items) && AllAtPaths(root, sub)
    ensures AllAtPaths(root, UpdateWith(items, sub))
    decreases sub
  {
    if sub != [] {
      AssignAtPaths(root, items, sub[0].key, sub[0].value);
      assert AllAtPaths(root, sub[1..]) by {
        forall i | 0 <= i < |sub[1..]| ensures AtPath(root, sub[1..][i]) {
          assert sub[1..][i] == sub[i + 1];
        }
      }
      UpdateWithAtPaths(root, Assign(items, sub[0].key, sub[0].value), sub[1..]);
    }
  }

  /** FlattenInto over fields found at path pre below root adds only fields
      found at key paths below root. */
  lemma {:induction false} FlattenIntoAtPaths(root: Json, items: seq<Field>, d: seq<Field>, pre: seq<string>)
    requires AllAtPaths(root, items)
    requires forall f :: f in d ==> Reach(root, pre + [f.key]) == Some(f.value)
    requires forall f :: f in d && f.value.JObj? ==> DistinctDeep(f.value.fields)
    ensures AllAtPaths(root, FlattenInto(items, d, PathKey("", pre)))
    decreases d
  {
    if d != [] {
      var f := d[0];
      assert f in d;
      var pre' := pre + [f.key];
      var key := NewKey(PathKey("", pre), f.key);
      PathKeySnoc("", pre, f.key);
      var next := if f.value.JObj? then UpdateWith(items, FlattenInto([], f.value.fields, key))
                  else Assign(items, key, f.value);
      if f.value.JObj? {
        var fields := f.value.fields;
        forall g | g in fields ensures Reach(root, pre' + [g.key]) == Some(g.value) {
          ReachSnoc(root, pre', g.key);
          LookupField(fields, g);
        }
        FlattenIntoAtPaths(root, [], fields, pre');
        UpdateWithAtPaths(root, items, FlattenInto([], fields, key));
      } else {
        assert AtPath(root, Field(key, f.value)) by {
          assert PathKey("", pre') == key && Reach(root, pre') == Some(f.value);
        }
        AssignAtPaths(root, items, key, f.value);
      }
      assert FlattenInto(items, d, PathKey("", pre)) == FlattenInto(next, d[1..], PathKey("", pre));
      FlattenIntoAtPaths(root, next, d[1..], pre);
    }
  }

  /** Every field of flatten_dict(d) is the value at a key path of d, under
      that path's flattened key (AtPath). */
  lemma {:induction false} FlattenDictFromPaths(d: seq<Field>)
    requires DistinctDeep(d)
    ensures AllAtPaths(JObj(d), FlattenDict(d, ""))
  {
    forall f | f in d ensures Reach(JObj(d), [] + [f.key]) == Some(f.value) {
      assert [] + [f.key] == [f.key];
      assert [f.key][1..] == [];
      LookupField(d, f);
    }
    FlattenIntoAtPaths(JObj(d), [], d, []);
    assert PathKey("", []) == "";
  }

  lemma {:induction false} UpdateWithKeys(items: seq<Field>, sub: seq<Field>)
    ensures KeysOf(UpdateWith(items, sub)) == KeysOf(items) + KeysOf(sub)
    decreases sub
  {
    if sub != [] {
      UpdateWithKeys(Assign(items, sub[0].key, sub[0].value), sub[1..]);
    }
  }

  lemma {:induction false} FlattenIntoKeepsKeys(items: seq<Field>, d: seq<Field>, prefix: string)
    ensures KeysOf(items) <= KeysOf(FlattenInto(items, d, prefix))
    decreases d
  {
    if d != [] {
      var f := d[0];
      var key := NewKey(prefix, f.key);
      if f.value.JObj? {
        UpdateWithKeys(items, FlattenInto([], f.value.fields, key));
        FlattenIntoKeepsKeys(UpdateWith(items, FlattenInto([], f.value.fields, key)), d[1..], prefix);
      } else {
        FlattenIntoKeepsKeys(Assign(items, key, f.value), d[1..], prefix);
      }
    }
  }

  /** Every non-dict value below a field of d gets its flattened key. */
  lemma {:induction false} FlattenIntoHasLeaf(items: seq<Field>, d: seq<Field>, prefix: string, f: Field, rest: seq<string>, v: Json)
    requires f in d && Reach(f.value, rest) == Some(v) && !v.JObj?
    ensures PathKey(NewKey(prefix, f.key), rest) in KeysOf(FlattenInto(items, d, prefix))
    decreases d, |rest|
  {
    var g := d[0];
    assert g in d;
    var key := NewKey(prefix, g.key);
    var next := if g.value.JObj? then UpdateWith(items, FlattenInto([], g.value.fields, key))
                else Assign(items, key, g.value);
    assert FlattenInto(items, d, prefix) == FlattenInto(next, d[1..], prefix);
    if f == d[0] {
      if g.value.JObj? {
        var fields := g.value.fields;
        var j := KeyIndex(fields, rest[0]);
        assert fields[j] in fields;
        FlattenIntoHasLeaf([], fields, key, fields[j], rest[1..], v);
        UpdateWithKeys(items, FlattenInto([], fields, key));
      }
      FlattenIntoKeepsKeys(next, d[1..], prefix);
    } else {
      assert f in d[1..] by {
        var i :| 0 <= i < |d| && d[i] == f;
        assert d[1..][i - 1] == f;
      }
      FlattenIntoHasLeaf(next, d[1..], prefix, f, rest, v);
    }
  }

  /** Conversely, every non-dict value at a key path of d gets that path's
      flattened key in flatten_dict(d). */
  lemma {:induction false} FlattenDictHasLeaf(d: seq<Field>, ks: seq<string>, v: Json)
    requires Reach(JObj(d), ks) == Some(v) && !v.JObj?
    ensures PathKey("", ks) in KeysOf(FlattenDict(d, ""))
  {
    var j := KeyIndex(d, ks[0]);
    assert d[j] in d;
    FlattenIntoHasLeaf([], d, "", d[j], ks[1..], v);
  }

  /** Every key, at every level, is non-empty and holds no ".". */
  predicate PlainKeysDeep(fs: seq<Field>)
    decreases fs
  {
    forall f :: f in fs ==> f.key != "" && '.' !in f.key && (f.value.JObj? ==> PlainKeysDeep(f.value.fields))
  }

  lemma {:induction false} ReachPlainKeys(fs: seq<Field>, ks: seq<string>, v: Json)
    requires PlainKeysDeep(fs) && Reach(JObj(fs), ks) == Some(v)
    ensures forall j :: 0 <= j < |ks| ==> ks[j] != "" && '.' !in ks[j]
    decreases |ks|
  {
    if ks != [] {
      var i := KeyIndex(fs, ks[0]);
      assert fs[i] in fs;
      if ks[1..] != [] {
        ReachPlainKeys(fs[i].value.fields, ks[1..], v);
      }
      forall j | 0 < j < |ks| ensures ks[j] != "" && '.' !in ks[j] {
        assert ks[j] == ks[1..][j - 1];
      }
    }
  }

  /** Over plain keys, distinct key paths have distinct flattened keys. */
  lemma PathKeyInjective(ks: seq<string>, ks': seq<string>)
    requires ks != [] && forall j :: 0 <= j < |ks| ==> ks[j] != "" && '.' !in ks[j]
    requires ks' != [] && forall j :: 0 <= j < |ks'| ==> ks'[j] != "" && '.' !in ks'[j]
    requires PathKey("", ks) == PathKey("", ks')
    ensures ks == ks'
  {
    PathKeyDotted(ks);
    PathKeyDotted(ks');
    JoinSplit(ks, '.');
    JoinSplit(ks', '.');
  }

  /** For a dict whose keys are non-empty and free of ".", flatten_dict
      stores every non-dict value at a key path under the keys joined
      with ".". */
  lemma FlattenDictLeafValue(d: seq<Field>, ks: seq<string>, v: Json)
    requires DistinctDeep(d) && PlainKeysDeep(d)
    requires Reach(JObj(d), ks) == Some(v) && !v.JObj?
    ensures Lookup(FlattenDict(d, ""), JoinChar(ks, '.')) == Some(v)
  {
    FlattenDictHasLeaf(d, ks, v);
    var r := FlattenDict(d, "");
    var i := KeyIndex(r, PathKey("", ks));
    FlattenDictFromPaths(d);
    assert AtPath(JObj(d), r[i]);
    var ks' :| PathKey("", ks') == r[i].key && Reach(JObj(d), ks') == Some(r[i].value);
    ReachPlainKeys(d, ks, v);
    ReachPlainKeys(d, ks', r[i].value);
    PathKeyInjective(ks, ks');
    PathKeyDotted(ks);
  }

  // ---------------------------------------------------------------------
  // safe_get

  /** Following keys from current: None once a key is missing or a non-dict
      is reached. */
  function Reach(current: Json, keys: seq<string>): Option<Json>
    decreases |keys|
  {
    if keys == [] then Some(current)
    else match current
      case JObj(fs) =>
        (match Lookup(fs, keys[0])
         case Some(v) => Reach(v, keys[1..])
         case None => None)
      case _ => None
  }

  /** One more key extends a reached value by a single dict lookup. */
  lemma {:induction false} ReachSnoc(current: Json, keys: seq<string>, k: string)
    ensures Reach(current, keys + [k]) ==
              match Reach(current, keys)
              case Some(JObj(fs)) => Lookup(fs, k)
              case _ => None
    decreases |keys|
  {
    if keys != [] {
      assert (keys + [k])[0] == keys[0];
      assert (keys + [k])[1..] == keys[1..] + [k];
      if current.JObj? && Lookup(current.fields, keys[0]).Some? {
        ReachSnoc(Lookup(current.fields, keys[0]).value, keys[1..], k);
      }
    } else {
      assert [k][1..] == [];
    }
  }

  /** ReachSnoc for the prefixes of one key list. */
  lemma ReachStep(root: Json, keys: seq<string>, i: nat)
    requires i < |keys|
    ensures Reach(root, keys[..i + 1]) ==
              match Reach(root, keys[..i])
              case Some(JObj(fs)) => Lookup(fs, keys[i])
              case _ => None
  {
    assert keys[..i + 1] == keys[..i] + [keys[i]];
    ReachSnoc(root, keys[..i], keys[i]);
  }

  /** safe_get: walks the dotted path, returning default on a miss. */
  method SafeGet(d: seq<Field>, path: string, default: Json) returns (r: Json)
    ensures r == match Reach(JObj(d), Split(path, '.')) case Some(v) => v case None => default
  {
    var keys := Split(path, '.');
    var current := JObj(d);
    var i := 0;
    while i < |keys|
      invariant 0 <= i <= |keys|
      invariant Reach(JObj(d), keys[..i]) == Some(current)
    {
      ReachStep(JObj(d), keys, i);
      if current.JObj? && Lookup(current.fields, keys[i]).Some? {
        current := Lookup(current.fields, keys[i]).value;
      } else {
        ReachStuck(JObj(d), keys[..i + 1], keys[i + 1..]);
        assert keys[..i + 1] + keys[i + 1..] == keys;
        return default;
      }
      i := i + 1;
    }
    assert keys[..i] == keys;
    r := current;
  }

  /** Once the walk has stopped, further keys do not restart it. */
  lemma {:induction false} ReachStuck(current: Json, ks: seq<string>, rest: seq<string>)
    requires Reach(current, ks) == None
    ensures Reach(current, ks + rest) == None
    decreases |ks|
  {
    assert ks != [];
    assert (ks + rest)[0] == ks[0];
    assert (ks + rest)[1..] == ks[1..] + rest;
    if current.JObj? && Lookup(current.fields, ks[0]).Some? {
      ReachStuck(Lookup(current.fields, ks[0]).value, ks[1..], rest);
    }
  }

  // ---------------------------------------------------------------------
  // retry_operation / clamp

  /** The dict simulate_attempt returns. */
  datatype Attempt = Attempt(success: bool, func: string, attempt: int)

  datatype RetryResult = Succeeded(result: Attempt) | GaveUp(attempts: int)

  function SimulateAttempt(funcName: string, attempt: int): (r: Attempt)
    ensures r.success <==> attempt >= 0
  {
    Attempt(attempt >= 0, funcName, attempt)
  }

  /** The outcome of retrying from attempt number `from` on: the first
      successful attempt below maxRetries, or giving up. */
  function RetryFrom(funcName: string, maxRetries: int, attempt: (string, int) -> Attempt, from: int): RetryResult
    decreases maxRetries - from
  {
    if from >= maxRetries then GaveUp(maxRetries)
    else if attempt(funcName, from).success then Succeeded(attempt(funcName, from))
    else RetryFrom(funcName, maxRetries, attempt, from + 1)
  }

  /** The loop of retry_operation over range(max_retries), with the attempt
      function as a parameter. */
  method RetryWith(funcName: string, maxRetries: int, attempt: (string, int) -> Attempt) returns (r: RetryResult)
    ensures r == RetryFrom(funcName, maxRetries, attempt, 0)
  {
    var n := 0;
    while n < maxRetries
      invariant n >= 0
      invariant RetryFrom(funcName, maxRetries, attempt, n) == RetryFrom(funcName, maxRetries, attempt, 0)
      decreases maxRetries - n
    {
      var result := attempt(funcName, n);
      if result.success {
        return Succeeded(result);
      }
      n := n + 1;
    }
    r := GaveUp(maxRetries);
  }

  /** retry_operation with simulate_attempt, which succeeds for every
      attempt number >= 0: attempt 0 succeeds whenever there is one. */
  method RetryOperation(funcName: string, maxRetries: int) returns (r: RetryResult)
    ensures maxRetries >= 1 ==> r == Succeeded(Attempt(true, funcName, 0))
    ensures maxRetries <= 0 ==> r == GaveUp(maxRetries)
  {
    r := RetryWith(funcName, maxRetries, SimulateAttempt);
  }

  /** verify_password: accepts any password against a stored hash of 64
      characters (the length of a SHA-256 hex digest), and nothing else. */
  predicate VerifyPassword(password: string, storedHash: string)
  {
    |storedHash| == 64
  }

  /** clamp(value, lo, hi) = max(lo, min(value, hi)), on integer amounts. */
  function Clamp(value: int, lo: int, hi: int): (r: int)
    ensures lo <= hi ==> lo <= r <= hi
    ensures lo <= value <= hi ==> r == value
    ensures value > hi ==> r == (if lo > hi then lo else hi)
    ensures value < lo ==> r == lo
  {
    var m := if value < hi then value else hi;
    if lo > m then lo else m
  }
}
