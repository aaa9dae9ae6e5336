/**
 * The combined catalog: remote and local lists merged into one list without
 * duplicate keys, the library sections of both sides without duplicate
 * library keys, and the library start page composed from fixed entries,
 * the chapters in progress and the recently listened books.
 *
 * The merge puts every item into an insertion-ordered map under a key that
 * depends on its kind and returns the map's values: a key keeps the place
 * of its first occurrence and the value of its last one, so a local item
 * replaces a remote one with the same key.
 */
module CatalogMerge {
  import opened Types

  /** The key an item is merged under; items of any other kind are dropped. */
  function MergeKey(item: PlexItem): Option<string>
  {
    match item
    case MediaTypeItem(_, _, mediaKey, _, _, _) => Some(mediaKey)
    case AuthorItem(_, ratingKey, _, _, _, _, _) => Some(ratingKey)
    case BookItem(_, ratingKey, _, _, _, _) => Some(ratingKey)
    case TrackItem(t) => Some(t.ratingKey)
    case HeaderItem(title) => Some(title)
    case LibraryItem(lib) => Some(lib.uuid)
    case OtherItem(_) => None
  }

  /** An insertion-ordered map: the keys in insertion order and the current values. */
  datatype LinkedMap = LinkedMap(keys: seq<string>, values: map<string, PlexItem>)

  const Empty: LinkedMap := LinkedMap([], map[])

  /**
   * The order lists each key of the map exactly once, and every value is
   * stored under its own merge key.
   */
  ghost predicate Wf(m: LinkedMap)
  {
    (forall i :: 0 <= i < |m.keys| ==> m.keys[i] in m.values) &&
    (forall k :: k in m.values ==> k in m.keys) &&
    (forall i, j :: 0 <= i < j < |m.keys| ==> m.keys[i] != m.keys[j]) &&
    (forall k :: k in m.values ==> MergeKey(m.values[k]) == Some(k))
  }

  /** A put: a new key goes to the end, an existing key keeps its place and takes the new value. */
  function Put(m: LinkedMap, k: string, v: PlexItem): LinkedMap
  {
    LinkedMap(if k in m.values then m.keys else m.keys + [k], m.values[k := v])
  }

  /** One step of the merge loop: the item under its key, or nothing for an unkeyed item. */
  function PutItem(m: LinkedMap, item: PlexItem): LinkedMap
  {
    match MergeKey(item)
    case None => m
    case Some(k) => Put(m, k, item)
  }

  /** The map after putting every item in order. */
  function PutAll(m: LinkedMap, items: seq<PlexItem>): LinkedMap
    decreases |items|
  {
    if items == [] then m
    else PutItem(PutAll(m, items[..|items| - 1]), items[|items| - 1])
  }

  /** The map's values in key order. */
  function ValuesOf(m: LinkedMap): seq<PlexItem>
    requires forall i :: 0 <= i < |m.keys| ==> m.keys[i] in m.values
  {
    seq(|m.keys|, i requires 0 <= i < |m.keys| => m.values[m.keys[i]])
  }

  /** mergeRemoteAndLocal: the values of the map after putting the remote items, then the local ones. */
  function Merge(remote: seq<PlexItem>, local: seq<PlexItem>): seq<PlexItem>
  {
    PutAllWf(remote + local);
    ValuesOf(PutAll(Empty, remote + local))
  }

  /** The merge loop over both lists, building the insertion-ordered map. */
  method MergeRemoteAndLocal(remote: seq<PlexItem>, local: seq<PlexItem>) returns (r: seq<PlexItem>)
    ensures r == Merge(remote, local)
  {
    var noDup := Empty;
    for i := 0 to |remote|
      invariant noDup == PutAll(Empty, remote[..i])
    {
      assert remote[..i + 1][..i] == remote[..i];
      noDup := PutItem(noDup, remote[i]);
    }
    assert remote[..|remote|] == remote + local[..0];
    for i := 0 to |local|
      invariant noDup == PutAll(Empty, remote + local[..i])
    {
      assert (remote + local[..i + 1])[..|remote| + i] == remote + local[..i];
      noDup := PutItem(noDup, local[i]);
    }
    assert local[..|local|] == local;
    PutAllWf(remote + local);
    r := ValuesOf(noDup);
  }

  /** Building from the empty map keeps it well formed, with no more keys than items. */
  lemma {:induction false} PutAllWf(items: seq<PlexItem>)
    decreases |items|
    ensures Wf(PutAll(Empty, items))
    ensures |PutAll(Empty, items).keys| <= |items|
  {
    if items != [] {
      var n := |items| - 1;
      PutAllWf(items[..n]);
      var m := PutAll(Empty, items[..n]);
      var k := MergeKey(items[n]);
      if k.Some? && k.value !in m.values {
        var m' := PutAll(Empty, items);
        assert m'.keys == m.keys + [k.value];
        forall i, j | 0 <= i < j < |m'.keys|
          ensures m'.keys[i] != m'.keys[j]
        {
          if j == |m.keys| {
            assert m.keys[i] in m.values;
          }
        }
      }
    }
  }

  /** Some item carries the key. */
  ghost predicate Carries(items: seq<PlexItem>, k: Option<string>)
  {
    exists j :: 0 <= j < |items| && MergeKey(items[j]) == k
  }

  /** Item v occurs in the list and no item after that occurrence carries key k. */
  ghost predicate LastWith(items: seq<PlexItem>, v: PlexItem, k: Option<string>)
  {
    exists j :: 0 <= j < |items| && items[j] == v &&
      forall j' :: j < j' < |items| ==> MergeKey(items[j']) != k
  }

  /** Some item carrying key k comes before every item carrying key k'. */
  ghost predicate ComesFirst(items: seq<PlexItem>, k: Option<string>, k': Option<string>)
  {
    exists j :: 0 <= j < |items| && MergeKey(items[j]) == k &&
      forall j' :: 0 <= j' <= j ==> MergeKey(items[j']) != k'
  }

  /** A key is carried by a list iff it is carried by the list without its last item or by that item. */
  lemma CarriesSnoc(items: seq<PlexItem>, k: Option<string>)
    requires items != []
    ensures Carries(items, k) <==> Carries(items[..|items| - 1], k) || MergeKey(items[|items| - 1]) == k
  {
    var n := |items| - 1;
    if Carries(items, k) {
      var j :| 0 <= j < |items| && MergeKey(items[j]) == k;
      if j < n {
        assert items[..n][j] == items[j];
      }
    }
    if Carries(items[..n], k) {
      var j :| 0 <= j < n && MergeKey(items[..n][j]) == k;
      assert items[j] == items[..n][j];
    }
  }

  /** The map holds exactly the keys of the items. */
  lemma {:induction false} PutAllDomain(items: seq<PlexItem>)
    decreases |items|
    ensures forall k :: k in PutAll(Empty, items).values <==> Carries(items, Some(k))
  {
    if items != [] {
      var n := |items| - 1;
      PutAllDomain(items[..n]);
      forall k
        ensures k in PutAll(Empty, items).values <==> Carries(items, Some(k))
      {
        CarriesSnoc(items, Some(k));
      }
    }
  }

  /** A last occurrence stays last when an item with another key is appended. */
  lemma LastWithSnoc(items: seq<PlexItem>, v: PlexItem, k: Option<string>)
    requires items != [] && LastWith(items[..|items| - 1], v, k) && MergeKey(items[|items| - 1]) != k
    ensures LastWith(items, v, k)
  {
    var n := |items| - 1;
    var j :| 0 <= j < n && items[..n][j] == v &&
             forall j' :: j < j' < n ==> MergeKey(items[..n][j']) != k;
    assert items[j] == v;
    forall j' | j < j' < |items|
      ensures MergeKey(items[j']) != k
    {
      if j' < n {
        assert items[..n][j'] == items[j'];
      }
    }
  }

  /** Every value is an item carrying its key, and no later item carries that key. */
  lemma {:induction false} PutAllLastWins(items: seq<PlexItem>)
    decreases |items|
    ensures var m := PutAll(Empty, items);
            forall k :: k in m.values ==> LastWith(items, m.values[k], Some(k))
  {
    if items != [] {
      var n := |items| - 1;
      PutAllLastWins(items[..n]);
      var m := PutAll(Empty, items[..n]);
      var m' := PutAll(Empty, items);
      forall k | k in m'.values
        ensures LastWith(items, m'.values[k], Some(k))
      {
        if MergeKey(items[n]) == Some(k) {
          assert items[n] == m'.values[k];
        } else {
          assert k in m.values && m'.values[k] == m.values[k];
          LastWithSnoc(items, m.values[k], Some(k));
        }
      }
    }
  }

  /** An order between two keys survives appending items. */
  lemma ComesFirstSnoc(items: seq<PlexItem>, k: Option<string>, k': Option<string>)
    requires items != [] && ComesFirst(items[..|items| - 1], k, k')
    ensures ComesFirst(items, k, k')
  {
    var n := |items| - 1;
    var j :| 0 <= j < n && MergeKey(items[..n][j]) == k &&
             forall j' :: 0 <= j' <= j ==> MergeKey(items[..n][j']) != k';
    assert MergeKey(items[j]) == k;
    forall j' | 0 <= j' <= j
      ensures MergeKey(items[j']) != k'
    {
      assert items[..n][j'] == items[j'];
    }
  }

  /** A key carried before the last item comes before a key that only the last item carries. */
  lemma ComesFirstOfNew(items: seq<PlexItem>, k: Option<string>, k': Option<string>)
    requires items != [] && Carries(items[..|items| - 1], k) && !Carries(items[..|items| - 1], k')
    ensures ComesFirst(items, k, k')
  {
    var n := |items| - 1;
    var j :| 0 <= j < n && MergeKey(items[..n][j]) == k;
    assert MergeKey(items[j]) == k;
    forall j' | 0 <= j' <= j
      ensures MergeKey(items[j']) != k'
    {
      assert items[..n][j'] == items[j'];
    }
  }

  /**
   * Keys are in order of first occurrence: for two keys of the map, some
   * item with the earlier key comes before every item with the later one.
   */
  lemma {:induction false} PutAllFirstOrder(items: seq<PlexItem>)
    decreases |items|
    ensures var m := PutAll(Empty, items);
            forall i, i' :: 0 <= i < i' < |m.keys| ==> ComesFirst(items, Some(m.keys[i]), Some(m.keys[i']))
  {
    if items != [] {
      var n := |items| - 1;
      PutAllFirstOrder(items[..n]);
      PutAllWf(items[..n]);
      PutAllDomain(items[..n]);
      var m := PutAll(Empty, items[..n]);
      var m' := PutAll(Empty, items);
      forall i, i' | 0 <= i < i' < |m'.keys|
        ensures ComesFirst(items, Some(m'.keys[i]), Some(m'.keys[i']))
      {
        if i' < |m.keys| {
          assert m'.keys[i] == m.keys[i] && m'.keys[i'] == m.keys[i'];
          ComesFirstSnoc(items, Some(m.keys[i]), Some(m.keys[i']));
        } else {
          assert m'.keys[i'] !in m.values;
          assert m'.keys[i] == m.keys[i] && m.keys[i] in m.values;
          ComesFirstOfNew(items, Some(m.keys[i]), Some(m'.keys[i']));
        }
      }
    }
  }

  /** Every item carries a key, and no two items carry the same one. */
  ghost predicate DistinctlyKeyed(r: seq<PlexItem>)
  {
    (forall i :: 0 <= i < |r| ==> MergeKey(r[i]).Some?) &&
    (forall i, i' :: 0 <= i < i' < |r| ==> MergeKey(r[i]) != MergeKey(r[i']))
  }

  /** Every key some input item carries is carried by an output item. */
  ghost predicate CoversKeys(items: seq<PlexItem>, r: seq<PlexItem>)
  {
    forall j :: 0 <= j < |items| && MergeKey(items[j]).Some? ==> Carries(r, MergeKey(items[j]))
  }

  /** Every output item is an input item that no later input item shares its key with. */
  ghost predicate LastOccurrences(items: seq<PlexItem>, r: seq<PlexItem>)
  {
    forall i :: 0 <= i < |r| ==> LastWith(items, r[i], MergeKey(r[i]))
  }

  /**
   * Output keys follow first occurrence: for two output items, some input
   * item with the first one's key comes before every input item with the
   * second one's key.
   */
  ghost predicate FirstOccurrenceOrder(items: seq<PlexItem>, r: seq<PlexItem>)
  {
    forall i, i' :: 0 <= i < i' < |r| ==> ComesFirst(items, MergeKey(r[i]), MergeKey(r[i']))
  }

  /** The merged list is the map's key order, each key with its value. */
  lemma MergeLayout(remote: seq<PlexItem>, local: seq<PlexItem>)
    ensures var m := PutAll(Empty, remote + local);
            var r := Merge(remote, local);
            Wf(m) && |r| == |m.keys| && |m.keys| <= |remote| + |local| &&
            forall i :: 0 <= i < |r| ==> r[i] == m.values[m.keys[i]] && MergeKey(r[i]) == Some(m.keys[i])
  {
    PutAllWf(remote + local);
  }

  /** The merged list carries pairwise-distinct keys and is no longer than both lists together. */
  lemma MergeDistinct(remote: seq<PlexItem>, local: seq<PlexItem>)
    ensures DistinctlyKeyed(Merge(remote, local))
    ensures |Merge(remote, local)| <= |remote| + |local|
  {
    MergeLayout(remote, local);
  }

  /** Every key of either list is in the merged list; unkeyed items are the only ones dropped. */
  lemma MergeCoversKeys(remote: seq<PlexItem>, local: seq<PlexItem>)
    ensures CoversKeys(remote + local, Merge(remote, local))
  {
    var items := remote + local;
    var m := PutAll(Empty, items);
    var r := Merge(remote, local);
    MergeLayout(remote, local);
    PutAllDomain(items);
    forall j | 0 <= j < |items| && MergeKey(items[j]).Some?
      ensures Carries(r, MergeKey(items[j]))
    {
      var k := MergeKey(items[j]).value;
      assert Carries(items, Some(k));
      assert k in m.keys;
      var i :| 0 <= i < |m.keys| && m.keys[i] == k;
      assert MergeKey(r[i]) == Some(k);
    }
  }

  /** Each merged item is the last item with its key, so a local item replaces a remote one. */
  lemma MergeLastWins(remote: seq<PlexItem>, local: seq<PlexItem>)
    ensures LastOccurrences(remote + local, Merge(remote, local))
  {
    var items := remote + local;
    var m := PutAll(Empty, items);
    var r := Merge(remote, local);
    MergeLayout(remote, local);
    PutAllLastWins(items);
    forall i | 0 <= i < |r|
      ensures LastWith(items, r[i], MergeKey(r[i]))
    {
      assert m.keys[i] in m.values;
      assert r[i] == m.values[m.keys[i]] && MergeKey(r[i]) == Some(m.keys[i]);
    }
  }

  /** The merged keys come in order of first occurrence: re-putting a key does not move it. */
  lemma MergeFirstOrder(remote: seq<PlexItem>, local: seq<PlexItem>)
    ensures FirstOccurrenceOrder(remote + local, Merge(remote, local))
  {
    var items := remote + local;
    var m := PutAll(Empty, items);
    var r := Merge(remote, local);
    MergeLayout(remote, local);
    PutAllFirstOrder(items);
    forall i, i' | 0 <= i < i' < |r|
      ensures ComesFirst(items, MergeKey(r[i]), MergeKey(r[i']))
    {
      assert MergeKey(r[i]) == Some(m.keys[i]) && MergeKey(r[i']) == Some(m.keys[i']);
    }
  }

  /** The list with one more item at the end is put by one more step. */
  lemma PutAllSnoc(m: LinkedMap, s: seq<PlexItem>, x: PlexItem)
    ensures PutAll(m, s + [x]) == PutItem(PutAll(m, s), x)
  {
    assert (s + [x])[..|s|] == s;
  }

  /** Putting items one by one: a list split in two is put part by part. */
  lemma {:induction false} PutAllAppend(m: LinkedMap, a: seq<PlexItem>, b: seq<PlexItem>)
    decreases |b|
    ensures PutAll(m, a + b) == PutAll(PutAll(m, a), b)
  {
    if b == [] {
      assert a + b == a;
    } else {
      var n := |b| - 1;
      PutAllAppend(m, a, b[..n]);
      assert a + b == (a + b[..n]) + [b[n]];
      PutAllSnoc(m, a + b[..n], b[n]);
      assert b == b[..n] + [b[n]];
      PutAllSnoc(PutAll(m, a), b[..n], b[n]);
    }
  }

  /** The map without its last key. */
  function DropLast(m: LinkedMap): LinkedMap
    requires |m.keys| > 0
  {
    LinkedMap(m.keys[..|m.keys| - 1], m.values - {m.keys[|m.keys| - 1]})
  }

  /** Dropping the last key keeps the map well formed and drops the last value. */
  lemma DropLastSpec(m: LinkedMap)
    requires Wf(m) && |m.keys| > 0
    ensures Wf(DropLast(m))
    ensures ValuesOf(m) == ValuesOf(DropLast(m)) + [m.values[m.keys[|m.keys| - 1]]]
  {
    DropLastWf(m);
    DropLastValues(m);
  }

  /** Removing the newest key of a well-formed map leaves it well formed. */
  lemma DropLastWf(m: LinkedMap)
    requires Wf(m) && |m.keys| > 0
    ensures Wf(DropLast(m))
  {
    var n := |m.keys| - 1;
    var k := m.keys[n];
    var front := DropLast(m);
    forall k' | k' in front.values
      ensures k' in front.keys
    {
      assert k' in m.keys;
      var i :| 0 <= i < |m.keys| && m.keys[i] == k';
      assert front.keys[i] == k';
    }
    forall i | 0 <= i < |front.keys|
      ensures front.keys[i] in front.values
    {
      assert m.keys[i] != k;
    }
  }

  /** The values of a map are those of the map without its newest key, then that key's value. */
  lemma DropLastValues(m: LinkedMap)
    requires Wf(m) && |m.keys| > 0
    ensures forall i :: 0 <= i < |DropLast(m).keys| ==> DropLast(m).keys[i] in DropLast(m).values
    ensures ValuesOf(m) == ValuesOf(DropLast(m)) + [m.values[m.keys[|m.keys| - 1]]]
  {
    var n := |m.keys| - 1;
    var front := DropLast(m);
    forall i | 0 <= i < |front.keys|
      ensures front.keys[i] in front.values && front.values[front.keys[i]] == m.values[m.keys[i]]
    {
      assert m.keys[i] != m.keys[n];
    }
  }

  /** Putting the values of a well-formed map, in order, rebuilds that map. */
  lemma {:induction false} PutAllOfValues(m: LinkedMap)
    requires Wf(m)
    decreases |m.keys|
    ensures PutAll(Empty, ValuesOf(m)) == m
  {
    if m.keys == [] {
      assert forall k :: k !in m.values;
      assert m.values == map[];
    } else {
      DropLastSpec(m);
      PutAllOfValues(DropLast(m));
      assert m.keys[|m.keys| - 1] in m.values;
      PutBackLast(m);
    }
  }

  /** If the values without the last one rebuild the map without its last key, all of them rebuild the map. */
  lemma PutBackLast(m: LinkedMap)
    requires |m.keys| > 0 && m.keys[|m.keys| - 1] in m.values
    requires MergeKey(m.values[m.keys[|m.keys| - 1]]) == Some(m.keys[|m.keys| - 1])
    requires forall i :: 0 <= i < |m.keys| ==> m.keys[i] in m.values
    requires forall i :: 0 <= i < |DropLast(m).keys| ==> DropLast(m).keys[i] in DropLast(m).values
    requires PutAll(Empty, ValuesOf(DropLast(m))) == DropLast(m)
    requires ValuesOf(m) == ValuesOf(DropLast(m)) + [m.values[m.keys[|m.keys| - 1]]]
    ensures PutAll(Empty, ValuesOf(m)) == m
  {
    var k := m.keys[|m.keys| - 1];
    var v := m.values[k];
    PutAllSnoc(Empty, ValuesOf(DropLast(m)), v);
    PutNewKey(DropLast(m), k, v);
    RestoreLast(m);
  }

  /** Putting an item under a new key appends the key. */
  lemma PutNewKey(m: LinkedMap, k: string, v: PlexItem)
    requires k !in m.values && MergeKey(v) == Some(k)
    ensures PutItem(m, v) == LinkedMap(m.keys + [k], m.values[k := v])
  {
  }

  /** Putting the last value back under its key undoes DropLast. */
  lemma RestoreLast(m: LinkedMap)
    requires |m.keys| > 0 && m.keys[|m.keys| - 1] in m.values
    ensures var k := m.keys[|m.keys| - 1];
            k !in DropLast(m).values &&
            LinkedMap(DropLast(m).keys + [k], DropLast(m).values[k := m.values[k]]) == m
  {
    var k := m.keys[|m.keys| - 1];
    assert DropLast(m).keys + [k] == m.keys;
    assert DropLast(m).values[k := m.values[k]] == m.values;
  }

  /** Merging a merged list with a third list is merging the two joined lists with it. */
  lemma MergeFlattens(a: seq<PlexItem>, b: seq<PlexItem>, c: seq<PlexItem>)
    ensures Merge(Merge(a, b), c) == Merge(a + b, c)
  {
    var mab := PutAll(Empty, a + b);
    PutAllWf(a + b);
    PutAllOfValues(mab);
    PutAllAppend(Empty, Merge(a, b), c);
    PutAllAppend(Empty, a + b, c);
  }

  /** Merging a merged list again changes nothing. */
  lemma MergeIdempotent(a: seq<PlexItem>, b: seq<PlexItem>)
    ensures Merge(Merge(a, b), []) == Merge(a, b)
  {
    PutAllWf(a + b);
    PutAllOfValues(PutAll(Empty, a + b));
    assert Merge(a, b) + [] == Merge(a, b);
  }

  /** Putting more items never moves or removes keys already in place. */
  lemma {:induction false} KeysPrefix(p: seq<PlexItem>, s: seq<PlexItem>)
    decreases |s|
    ensures var mp := PutAll(Empty, p);
            var m := PutAll(Empty, p + s);
            |mp.keys| <= |m.keys| && m.keys[..|mp.keys|] == mp.keys
  {
    if s == [] {
      assert p + s == p;
    } else {
      var n := |s| - 1;
      KeysPrefix(p, s[..n]);
      assert p + s == (p + s[..n]) + [s[n]];
      PutAllSnoc(Empty, p + s[..n], s[n]);
    }
  }

  /** The fixed start of the library page: its header and the two browsable media types. */
  function MediaTypes(lib: Library): seq<PlexItem>
  {
    [HeaderItem("Browse Library"),
     MediaTypeItem("Authors", Artist, "8", lib.key, lib.uuid, lib.uri),
     MediaTypeItem("Books", Album, "9", lib.key, lib.uuid, lib.uri)]
  }

  /** The chapters in progress of both sides, merged. */
  function ChaptersInProgress(remote: seq<PlexItem>, local: seq<PlexItem>): seq<PlexItem>
  {
    Merge(remote, local)
  }

  /** The chapters in progress behind their header. */
  function ChaptersInProgressImpl(remote: seq<PlexItem>, local: seq<PlexItem>): seq<PlexItem>
  {
    Merge([HeaderItem("Chapters In Progress")], ChaptersInProgress(remote, local))
  }

  /** browseLibrary: the media types, then the chapters in progress, then the recent books. */
  function BrowseLibrary(lib: Library, remoteChapters: seq<PlexItem>, localChapters: seq<PlexItem>,
                         recentBooks: seq<PlexItem>): seq<PlexItem>
  {
    Merge(Merge(MediaTypes(lib), ChaptersInProgressImpl(remoteChapters, localChapters)), recentBooks)
  }

  /** The keys of the three fixed entries, in order. */
  lemma MediaTypeKeys(lib: Library)
    ensures PutAll(Empty, MediaTypes(lib)).keys == ["Browse Library", "8", "9"]
  {
    var mt := MediaTypes(lib);
    assert mt == [] + [mt[0]] + [mt[1]] + [mt[2]];
    PutAllSnoc(Empty, [], mt[0]);
    PutAllSnoc(Empty, [mt[0]], mt[1]);
    PutAllSnoc(Empty, [mt[0], mt[1]], mt[2]);
    assert [] + [mt[0]] == [mt[0]];
    assert [mt[0]] + [mt[1]] == [mt[0], mt[1]];
  }

  /** The keys the first list puts lead the merged list, in their order. */
  lemma MergeLeadingKeys(p: seq<PlexItem>, s: seq<PlexItem>)
    ensures var lead := PutAll(Empty, p).keys;
            |Merge(p, s)| >= |lead| &&
            forall i :: 0 <= i < |lead| ==> MergeKey(Merge(p, s)[i]) == Some(lead[i])
  {
    KeysPrefix(p, s);
    MergeLayout(p, s);
  }

  /** A key carried by an item of the first list is carried by the merged list. */
  lemma MergeKeepsKey(p: seq<PlexItem>, s: seq<PlexItem>, j: int)
    requires 0 <= j < |p| && MergeKey(p[j]).Some?
    ensures exists i :: 0 <= i < |Merge(p, s)| && MergeKey(Merge(p, s)[i]) == MergeKey(p[j])
  {
    MergeCoversKeys(p, s);
    assert (p + s)[j] == p[j];
  }

  /** The chapters-in-progress list starts with its header's key. */
  lemma ChaptersHeaderFirst(remote: seq<PlexItem>, local: seq<PlexItem>)
    ensures var cip := ChaptersInProgressImpl(remote, local);
            |cip| > 0 && MergeKey(cip[0]) == Some("Chapters In Progress")
  {
    var h := HeaderItem("Chapters In Progress");
    PutAllSnoc(Empty, [], h);
    assert [] + [h] == [h];
    MergeLeadingKeys([h], ChaptersInProgress(remote, local));
  }

  /**
   * The library page begins with the keys of the three fixed entries, in
   * order, and lists the chapters-in-progress header; whatever follows
   * cannot move them.
   */
  lemma BrowseLibraryLeads(lib: Library, remoteChapters: seq<PlexItem>, localChapters: seq<PlexItem>,
                           recentBooks: seq<PlexItem>)
    ensures var r := BrowseLibrary(lib, remoteChapters, localChapters, recentBooks);
            |r| >= 3 &&
            MergeKey(r[0]) == Some("Browse Library") &&
            MergeKey(r[1]) == Some("8") &&
            MergeKey(r[2]) == Some("9") &&
            exists i :: 0 <= i < |r| && MergeKey(r[i]) == Some("Chapters In Progress")
  {
    var mt := MediaTypes(lib);
    var cip := ChaptersInProgressImpl(remoteChapters, localChapters);
    MergeFlattens(mt, cip, recentBooks);
    assert (mt + cip) + recentBooks == mt + (cip + recentBooks);
    assert Merge(mt + cip, recentBooks) == Merge(mt, cip + recentBooks);
    MediaTypeKeys(lib);
    MergeLeadingKeys(mt, cip + recentBooks);
    ChaptersHeaderFirst(remoteChapters, localChapters);
    assert (mt + cip)[|mt|] == cip[0];
    MergeKeepsKey(mt + cip, recentBooks, |mt|);
  }

  /**
   * Only the keys of the fixed entries are kept: a chapter whose rating key
   * is "8" takes the place of the Authors entry, since the two share one key
   * space.
   */
  lemma MediaTypeKeyShared(lib: Library, t: Track)
    requires t.ratingKey == "8"
    ensures var r := BrowseLibrary(lib, [TrackItem(t)], [], []);
            |r| > 1 && r[1] == TrackItem(t)
  {
    var x := TrackItem(t);
    var h := HeaderItem("Chapters In Progress");
    OneChapterPage(t);
    PageOfOneChapter(lib, t);
    HeaderKeepsMediaKeys(lib, h);
    KeyReplaced(MediaTypes(lib) + [h], x, 1);
  }

  /** The chapters-in-progress list of one chapter keyed "8" is the header and the chapter. */
  lemma OneChapterPage(t: Track)
    requires t.ratingKey == "8"
    ensures ChaptersInProgressImpl([TrackItem(t)], []) == [HeaderItem("Chapters In Progress"), TrackItem(t)]
  {
    SingleMerge(TrackItem(t));
    HeaderMerge(HeaderItem("Chapters In Progress"), TrackItem(t));
  }

  /** The library page of that one chapter is one merge of the fixed entries, the header and the chapter. */
  lemma PageOfOneChapter(lib: Library, t: Track)
    requires ChaptersInProgressImpl([TrackItem(t)], []) == [HeaderItem("Chapters In Progress"), TrackItem(t)]
    ensures BrowseLibrary(lib, [TrackItem(t)], [], []) ==
            Merge(MediaTypes(lib) + [HeaderItem("Chapters In Progress")] + [TrackItem(t)], [])
  {
    var mt := MediaTypes(lib);
    var h := HeaderItem("Chapters In Progress");
    var x := TrackItem(t);
    MergeFlattens(mt, [h, x], []);
    assert mt + [h, x] + [] == (mt + [h]) + [x] + [];
  }

  /** Putting the header after the fixed entries leaves "8" as the second key. */
  lemma HeaderKeepsMediaKeys(lib: Library, h: PlexItem)
    ensures 1 < |PutAll(Empty, MediaTypes(lib) + [h]).keys|
    ensures PutAll(Empty, MediaTypes(lib) + [h]).keys[1] == "8"
  {
    MediaTypeKeys(lib);
    KeysPrefix(MediaTypes(lib), [h]);
  }

  /** An item put last takes the place held by its key. */
  lemma KeyReplaced(p: seq<PlexItem>, x: PlexItem, i: int)
    requires 0 <= i < |PutAll(Empty, p).keys| && MergeKey(x) == Some(PutAll(Empty, p).keys[i])
    ensures |Merge(p + [x], [])| > i && Merge(p + [x], [])[i] == x
  {
    PutAllWf(p);
    PutAllSnoc(Empty, p, x);
    assert p + [x] + [] == p + [x];
    MergeLayout(p + [x], []);
  }

  /** A single keyed item merged with nothing is itself. */
  lemma SingleMerge(x: PlexItem)
    requires MergeKey(x).Some?
    ensures Merge([x], []) == [x]
  {
    assert [x] + [] == [] + [x];
    PutAllSnoc(Empty, [], x);
  }

  /** The header merged before one chapter with another key. */
  lemma HeaderMerge(h: PlexItem, x: PlexItem)
    requires h == HeaderItem("Chapters In Progress") && x.TrackItem? && x.track.ratingKey == "8"
    ensures Merge([h], [x]) == [h, x]
  {
    assert [h] + [x] == [] + [h] + [x];
    PutAllSnoc(Empty, [], h);
    PutAllSnoc(Empty, [h], x);
  }

  /**
   * sections: the remote libraries, then the local ones, each library key
   * kept once; here the first occurrence wins.
   */
  function Sections(remote: seq<Library>, local: seq<Library>): seq<Library>
  {
    DistinctByKey(remote + local, {})
  }

  /** The libraries whose key is not yet seen, each key once, the first occurrence kept. */
  function DistinctByKey(libs: seq<Library>, seen: set<string>): seq<Library>
    decreases |libs|
  {
    if libs == [] then []
    else if libs[0].key in seen then DistinctByKey(libs[1..], seen)
    else [libs[0]] + DistinctByKey(libs[1..], seen + {libs[0].key})
  }

  /** No two libraries share a key. */
  ghost predicate DistinctLibraryKeys(r: seq<Library>)
  {
    forall i, i' :: 0 <= i < i' < |r| ==> r[i].key != r[i'].key
  }

  /** Some library of the list has the key. */
  ghost predicate HasLibraryKey(r: seq<Library>, key: string)
  {
    exists i :: 0 <= i < |r| && r[i].key == key
  }

  /** Every input key outside `seen` is the key of some output library. */
  ghost predicate CoversLibraryKeys(libs: seq<Library>, seen: set<string>, r: seq<Library>)
  {
    forall j :: 0 <= j < |libs| && libs[j].key !in seen ==> HasLibraryKey(r, libs[j].key)
  }

  /** The library occurs in the list and no earlier library has its key. */
  ghost predicate FirstWithKey(libs: seq<Library>, lib: Library)
  {
    exists j :: 0 <= j < |libs| && libs[j] == lib &&
      forall j' :: 0 <= j' < j ==> libs[j'].key != lib.key
  }

  /** Every output library is an input library that no earlier input library shares its key with. */
  ghost predicate FirstLibraries(libs: seq<Library>, r: seq<Library>)
  {
    forall i :: 0 <= i < |r| ==> FirstWithKey(libs, r[i])
  }

  /**
   * The earlier output library i sits in the input at a place no earlier
   * than where the key of the later output library i' first appears.
   */
  ghost predicate PlacedBefore(libs: seq<Library>, r: seq<Library>, i: int, i': int)
    requires 0 <= i < |r| && 0 <= i' < |r|
  {
    exists j :: 0 <= j < |libs| && libs[j] == r[i] &&
      forall j' :: 0 <= j' <= j ==> libs[j'].key != r[i'].key
  }

  /** Output order is input order. */
  ghost predicate LibraryOrder(libs: seq<Library>, r: seq<Library>)
  {
    forall i, i' :: 0 <= i < i' < |r| ==> PlacedBefore(libs, r, i, i')
  }

  /** The filter outputs no seen key, each key once, and no more libraries than it gets. */
  lemma {:induction false} DistinctByKeyBasics(libs: seq<Library>, seen: set<string>)
    decreases |libs|
    ensures var r := DistinctByKey(libs, seen);
            |r| <= |libs| && DistinctLibraryKeys(r) &&
            forall i :: 0 <= i < |r| ==> r[i].key !in seen
  {
    if libs != [] {
      var kept := libs[0].key !in seen;
      var seen' := if kept then seen + {libs[0].key} else seen;
      DistinctByKeyBasics(libs[1..], seen');
    }
  }

  /** Each output library is the first input library with its key. */
  lemma {:induction false} DistinctByKeyFirst(libs: seq<Library>, seen: set<string>)
    decreases |libs|
    ensures FirstLibraries(libs, DistinctByKey(libs, seen))
  {
    if libs != [] {
      var tail := libs[1..];
      var kept := libs[0].key !in seen;
      var seen' := if kept then seen + {libs[0].key} else seen;
      DistinctByKeyFirst(tail, seen');
      DistinctByKeyBasics(tail, seen');
      var rest := DistinctByKey(tail, seen');
      assert libs[0].key in seen';
      if kept {
        assert DistinctByKey(libs, seen) == [libs[0]] + rest;
        FirstKept(libs, rest);
      } else {
        assert DistinctByKey(libs, seen) == rest;
        FirstSkipped(libs, rest);
      }
    }
  }

  /** A kept head is first with its key, and the tail's output keeps its first libraries. */
  lemma FirstKept(libs: seq<Library>, rest: seq<Library>)
    requires |libs| > 0 && FirstLibraries(libs[1..], rest)
    requires forall i :: 0 <= i < |rest| ==> rest[i].key != libs[0].key
    ensures FirstLibraries(libs, [libs[0]] + rest)
  {
    var r := [libs[0]] + rest;
    forall i | 0 <= i < |r|
      ensures FirstWithKey(libs, r[i])
    {
      if i == 0 {
        assert libs[0] == r[0];
      } else {
        assert r[i] == rest[i - 1];
        FirstWithKeyCons(libs, rest[i - 1]);
      }
    }
  }

  /** A dropped head leaves the tail's output first with its keys. */
  lemma FirstSkipped(libs: seq<Library>, rest: seq<Library>)
    requires |libs| > 0 && FirstLibraries(libs[1..], rest)
    requires forall i :: 0 <= i < |rest| ==> rest[i].key != libs[0].key
    ensures FirstLibraries(libs, rest)
  {
    forall i | 0 <= i < |rest|
      ensures FirstWithKey(libs, rest[i])
    {
      FirstWithKeyCons(libs, rest[i]);
    }
  }

  /** A library first with its key in the tail is first in the list when the head has another key. */
  lemma FirstWithKeyCons(libs: seq<Library>, lib: Library)
    requires |libs| > 0 && FirstWithKey(libs[1..], lib) && lib.key != libs[0].key
    ensures FirstWithKey(libs, lib)
  {
    var tail := libs[1..];
    var j :| 0 <= j < |tail| && tail[j] == lib && forall j' :: 0 <= j' < j ==> tail[j'].key != lib.key;
    assert libs[j + 1] == lib;
    forall j' | 0 <= j' < j + 1
      ensures libs[j'].key != lib.key
    {
      if j' > 0 {
        assert libs[j'] == tail[j' - 1];
      }
    }
  }

  /** Every input key not seen before reaches the output. */
  lemma {:induction false} DistinctByKeyCovers(libs: seq<Library>, seen: set<string>)
    decreases |libs|
    ensures CoversLibraryKeys(libs, seen, DistinctByKey(libs, seen))
  {
    if libs != [] {
      var tail := libs[1..];
      var kept := libs[0].key !in seen;
      var seen' := if kept then seen + {libs[0].key} else seen;
      DistinctByKeyCovers(tail, seen');
      var rest := DistinctByKey(tail, seen');
      var front := if kept then [libs[0]] else [];
      var r := front + rest;
      assert DistinctByKey(libs, seen) == r;
      forall j | 0 <= j < |libs| && libs[j].key !in seen
        ensures HasLibraryKey(r, libs[j].key)
      {
        if kept && libs[j].key == libs[0].key {
          assert r[0].key == libs[j].key;
        } else {
          assert tail[j - 1] == libs[j];
          assert HasLibraryKey(rest, tail[j - 1].key);
          HasLibraryKeyAfter(front, rest, libs[j].key);
        }
      }
    }
  }

  /** A key in the second list is in the two lists joined. */
  lemma HasLibraryKeyAfter(front: seq<Library>, rest: seq<Library>, key: string)
    requires HasLibraryKey(rest, key)
    ensures HasLibraryKey(front + rest, key)
  {
    var i :| 0 <= i < |rest| && rest[i].key == key;
    assert (front + rest)[|front| + i] == rest[i];
  }

  /** The filter keeps input order. */
  lemma {:induction false} DistinctByKeyOrder(libs: seq<Library>, seen: set<string>)
    decreases |libs|
    ensures LibraryOrder(libs, DistinctByKey(libs, seen))
  {
    if libs != [] {
      var tail := libs[1..];
      var kept := libs[0].key !in seen;
      var seen' := if kept then seen + {libs[0].key} else seen;
      DistinctByKeyOrder(tail, seen');
      DistinctByKeyBasics(tail, seen');
      var rest := DistinctByKey(tail, seen');
      assert libs[0].key in seen';
      if kept {
        assert DistinctByKey(libs, seen) == [libs[0]] + rest;
        OrderKept(libs, rest);
      } else {
        assert DistinctByKey(libs, seen) == rest;
        OrderSkipped(libs, rest);
      }
    }
  }

  /** A kept head goes before the tail's output, which holds no library with its key. */
  lemma OrderKept(libs: seq<Library>, rest: seq<Library>)
    requires |libs| > 0 && LibraryOrder(libs[1..], rest)
    requires forall i :: 0 <= i < |rest| ==> rest[i].key != libs[0].key
    ensures LibraryOrder(libs, [libs[0]] + rest)
  {
    var r := [libs[0]] + rest;
    forall i, i' | 0 <= i < i' < |r|
      ensures PlacedBefore(libs, r, i, i')
    {
      assert r[i'] == rest[i' - 1];
      if i == 0 {
        assert libs[0] == r[i];
        assert forall j' :: 0 <= j' <= 0 ==> libs[j'].key != r[i'].key;
      } else {
        assert r[i] == rest[i - 1];
        OrderStep(libs, rest, i - 1, i' - 1);
      }
    }
  }

  /** A dropped head leaves the tail's output in order. */
  lemma OrderSkipped(libs: seq<Library>, rest: seq<Library>)
    requires |libs| > 0 && LibraryOrder(libs[1..], rest)
    requires forall i :: 0 <= i < |rest| ==> rest[i].key != libs[0].key
    ensures LibraryOrder(libs, rest)
  {
    forall i, i' | 0 <= i < i' < |rest|
      ensures PlacedBefore(libs, rest, i, i')
    {
      OrderStep(libs, rest, i, i');
    }
  }

  /** The order step: a pair ordered in the tail stays ordered behind a head with another key. */
  lemma OrderStep(libs: seq<Library>, rest: seq<Library>, i: int, i': int)
    requires |libs| > 0 && LibraryOrder(libs[1..], rest)
    requires 0 <= i < i' < |rest| && rest[i'].key != libs[0].key
    ensures PlacedBefore(libs, rest, i, i')
  {
    var tail := libs[1..];
    assert PlacedBefore(tail, rest, i, i');
    var j :| 0 <= j < |tail| && tail[j] == rest[i] &&
             forall j' :: 0 <= j' <= j ==> tail[j'].key != rest[i'].key;
    assert libs[j + 1] == rest[i];
    forall j' | 0 <= j' <= j + 1
      ensures libs[j'].key != rest[i'].key
    {
      if j' > 0 {
        assert libs[j'] == tail[j' - 1];
      }
    }
  }

  /**
   * The section list: library keys pairwise distinct, every library of
   * either side represented by its key, each listed library the first with
   * its key (a remote library shadows a local one), input order kept.
   */
  lemma SectionsSpec(remote: seq<Library>, local: seq<Library>)
    ensures var libs := remote + local;
            var r := Sections(remote, local);
            |r| <= |libs| && DistinctLibraryKeys(r) && FirstLibraries(libs, r) && LibraryOrder(libs, r) &&
            CoversLibraryKeys(libs, {}, r)
  {
    DistinctByKeyBasics(remote + local, {});
    DistinctByKeyFirst(remote + local, {});
    DistinctByKeyCovers(remote + local, {});
    DistinctByKeyOrder(remote + local, {});
  }
}
