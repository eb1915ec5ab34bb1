/** The feature registry and its five secondary indexes
    (crates/pete-core/src/lib.rs). */
module FeatureRegistry {
  import opened Machine

  type FeatureId = nat
  type Key = string

  /** The part of a feature the registry looks at; `provenanceKey` is the JSON text
      of its provenance. */
  datatype Feature = Feature(
    id: FeatureId,
    modality: Key,
    createdAtMs: nat,
    sourceFrame: Option<Key>,
    sourceSensor: Option<Key>,
    vectorIds: seq<Key>,
    provenanceKey: Key)

  type Index = map<Key, set<FeatureId>>
  type Features = map<FeatureId, Feature>

  // ---------------------------------------------------------------- what an index means

  function Present(o: Option<Key>): seq<Key> { if o.Some? then [o.value] else [] }

  /** The keys a feature has in each of the five dimensions, as they are walked. */
  datatype Dimension = ByModality | BySourceFrame | BySourceSensor | ByVectorId | ByProvenance

  function KeysOf(dim: Dimension, f: Feature): seq<Key> {
    match dim
    case ByModality => [f.modality]
    case BySourceFrame => Present(f.sourceFrame)
    case BySourceSensor => Present(f.sourceSensor)
    case ByVectorId => f.vectorIds
    case ByProvenance => [f.provenanceKey]
  }

  function Elements(keys: seq<Key>): set<Key> { set k | k in keys }

  /** `index` files every id under exactly the keys `keys` gives it, and has no
      empty bucket. */
  ghost predicate Files(index: Index, keys: map<FeatureId, set<Key>>) {
    && (forall k :: k in index ==> index[k] != {})
    && (forall k, id :: InBucket(index, k, id) <==> Keyed(keys, id, k))
  }

  predicate InBucket(index: Index, k: Key, id: FeatureId) { k in index && id in index[k] }

  predicate Keyed(keys: map<FeatureId, set<Key>>, id: FeatureId, k: Key) { id in keys && k in keys[id] }

  function AllKeys(dim: Dimension, features: Features): map<FeatureId, set<Key>> {
    map id | id in features :: Elements(KeysOf(dim, features[id]))
  }

  function KeysIn(keys: map<FeatureId, set<Key>>, id: FeatureId): set<Key> {
    if id in keys then keys[id] else {}
  }

  // ---------------------------------------------------------------- one entry

  /** `entry(key).or_default().insert(id)`. */
  function Filed(index: Index, key: Key, id: FeatureId): Index {
    index[key := (if key in index then index[key] else {}) + {id}]
  }

  /** `remove_indexed_id`: an emptied bucket goes away. */
  function Unfiled(index: Index, key: Key, id: FeatureId): Index {
    if key !in index then index
    else if index[key] - {id} == {} then index - {key}
    else index[key := index[key] - {id}]
  }

  lemma FiledFiles(index: Index, keys: map<FeatureId, set<Key>>, key: Key, id: FeatureId)
    requires Files(index, keys)
    ensures Files(Filed(index, key, id), keys[id := KeysIn(keys, id) + {key}])
  {
    var index', keys' := Filed(index, key, id), keys[id := KeysIn(keys, id) + {key}];
    forall k, other ensures InBucket(index', k, other) <==> Keyed(keys', other, k) {
      assert InBucket(index, k, other) <==> Keyed(keys, other, k);
    }
  }

  lemma UnfiledFiles(index: Index, keys: map<FeatureId, set<Key>>, key: Key, id: FeatureId)
    requires Files(index, keys)
    ensures Files(Unfiled(index, key, id), keys[id := KeysIn(keys, id) - {key}])
  {
    var index', keys' := Unfiled(index, key, id), keys[id := KeysIn(keys, id) - {key}];
    forall k, other ensures InBucket(index', k, other) <==> Keyed(keys', other, k) {
      assert InBucket(index, k, other) <==> Keyed(keys, other, k);
      if k == key && k in index && other in index[k] && other != id {
        assert other in index[k] - {id};
      }
    }
  }

  // ---------------------------------------------------------------- all entries of a feature

  function FiledAll(index: Index, ks: seq<Key>, id: FeatureId): Index {
    if ks == [] then index else Filed(FiledAll(index, ks[..|ks| - 1], id), ks[|ks| - 1], id)
  }

  function UnfiledAll(index: Index, ks: seq<Key>, id: FeatureId): Index {
    if ks == [] then index else Unfiled(UnfiledAll(index, ks[..|ks| - 1], id), ks[|ks| - 1], id)
  }

  lemma {:induction false} FiledAllFiles(index: Index, keys: map<FeatureId, set<Key>>, ks: seq<Key>, id: FeatureId)
    requires Files(index, keys)
    ensures Files(FiledAll(index, ks, id), keys[id := KeysIn(keys, id) + Elements(ks)])
  {
    if ks == [] {
      assert KeysIn(keys, id) + Elements(ks) == KeysIn(keys, id);
    } else {
      var init, last := ks[..|ks| - 1], ks[|ks| - 1];
      FiledAllFiles(index, keys, init, id);
      var keys' := keys[id := KeysIn(keys, id) + Elements(init)];
      FiledFiles(FiledAll(index, init, id), keys', last, id);
      assert ks == init + [last];
      assert KeysIn(keys', id) + {last} == KeysIn(keys, id) + Elements(ks);
      assert keys'[id := KeysIn(keys, id) + Elements(ks)] == keys[id := KeysIn(keys, id) + Elements(ks)];
    }
  }

  lemma AtMostOneFiled(index: Index, ks: seq<Key>, id: FeatureId)
    requires |ks| <= 1
    ensures FiledAll(index, ks, id) == if ks == [] then index else Filed(index, ks[0], id)
  {
    if ks != [] {
      assert ks[..0] == [];
    }
  }

  lemma AtMostOneUnfiled(index: Index, ks: seq<Key>, id: FeatureId)
    requires |ks| <= 1
    ensures UnfiledAll(index, ks, id) == if ks == [] then index else Unfiled(index, ks[0], id)
  {
    if ks != [] {
      assert ks[..0] == [];
    }
  }

  /** Duplicates in the walked keys make no difference to what is left. */
  lemma {:induction false} UnfiledAllFiles(index: Index, keys: map<FeatureId, set<Key>>, ks: seq<Key>, id: FeatureId)
    requires Files(index, keys)
    ensures Files(UnfiledAll(index, ks, id), keys[id := KeysIn(keys, id) - Elements(ks)])
  {
    if ks == [] {
      assert KeysIn(keys, id) - Elements(ks) == KeysIn(keys, id);
    } else {
      var init, last := ks[..|ks| - 1], ks[|ks| - 1];
      UnfiledAllFiles(index, keys, init, id);
      var keys' := keys[id := KeysIn(keys, id) - Elements(init)];
      UnfiledFiles(UnfiledAll(index, init, id), keys', last, id);
      assert ks == init + [last];
      assert KeysIn(keys', id) - {last} == KeysIn(keys, id) - Elements(ks);
      assert keys'[id := KeysIn(keys, id) - Elements(ks)] == keys[id := KeysIn(keys, id) - Elements(ks)];
    }
  }

  /** Taking the previous version of a feature out of an index and putting the new
      one in leaves the index of the updated features. */
  lemma ReplacingFiles(dim: Dimension, index: Index, features: Features, f: Feature)
    requires Files(index, AllKeys(dim, features))
    ensures var gone := if f.id in features then UnfiledAll(index, KeysOf(dim, features[f.id]), f.id) else index;
            Files(FiledAll(gone, KeysOf(dim, f), f.id), AllKeys(dim, features[f.id := f]))
  {
    var keys := AllKeys(dim, features);
    var gone, keys' := index, keys;
    if f.id in features {
      UnfiledAllFiles(index, keys, KeysOf(dim, features[f.id]), f.id);
      gone, keys' := UnfiledAll(index, KeysOf(dim, features[f.id]), f.id), keys[f.id := {}];
      assert KeysIn(keys, f.id) - Elements(KeysOf(dim, features[f.id])) == {};
    }
    FiledAllFiles(gone, keys', KeysOf(dim, f), f.id);
    assert KeysIn(keys', f.id) + Elements(KeysOf(dim, f)) == Elements(KeysOf(dim, f));
    assert keys'[f.id := Elements(KeysOf(dim, f))] == AllKeys(dim, features[f.id := f]);
  }

  /** An index is determined by the features: how they got there leaves no trace. */
  lemma IndexIsUnique(dim: Dimension, features: Features, index: Index, index': Index)
    requires Files(index, AllKeys(dim, features)) && Files(index', AllKeys(dim, features))
    ensures index == index'
  {
    var keys := AllKeys(dim, features);
    forall k, id ensures InBucket(index, k, id) <==> InBucket(index', k, id) {
      assert InBucket(index, k, id) <==> Keyed(keys, id, k);
    }
    SameBuckets(index, index');
    SameBuckets(index', index);
  }

  lemma SameBuckets(index: Index, index': Index)
    requires forall k :: k in index ==> index[k] != {}
    requires forall k, id :: InBucket(index, k, id) <==> InBucket(index', k, id)
    ensures forall k :: k in index ==> k in index' && index[k] == index'[k]
  {
    forall k | k in index ensures k in index' && index[k] == index'[k] {
      var id :| id in index[k];
      assert InBucket(index, k, id) && InBucket(index', k, id);
      forall x ensures x in index[k] <==> x in index'[k] {
        assert InBucket(index, k, x) <==> InBucket(index', k, x);
      }
    }
  }

  // ---------------------------------------------------------------- scans

  /** `r` is the scan of the primary map that keeps the features satisfying `p`,
      in order of id. */
  ghost predicate IsScan(r: seq<Feature>, features: Features, p: Feature -> bool) {
    && (forall i, j :: 0 <= i < j < |r| ==> r[i].id < r[j].id)
    && (forall i :: 0 <= i < |r| ==> r[i].id in features && features[r[i].id] == r[i] && p(r[i]))
    && (forall id :: id in features && p(features[id]) ==> features[id] in r)
  }

  /** There is only one such scan. */
  lemma ScanIsUnique(r: seq<Feature>, s: seq<Feature>, features: Features, p: Feature -> bool)
    requires IsScan(r, features, p) && IsScan(s, features, p)
    ensures r == s
  {
    if r != [] {
      SamePosition(r, s, features, p, |r| - 1);
    }
    if s != [] {
      SamePosition(s, r, features, p, |s| - 1);
    }
    forall i | 0 <= i < |r| ensures r[i] == s[i] {
      SamePosition(r, s, features, p, i);
    }
  }

  lemma {:induction false} SamePosition(r: seq<Feature>, s: seq<Feature>, features: Features, p: Feature -> bool,
                                        i: nat)
    requires IsScan(r, features, p) && IsScan(s, features, p) && i < |r|
    ensures i < |s| && r[i] == s[i]
    decreases i
  {
    forall j: nat | j < i ensures j < |s| && r[j] == s[j] {
      SamePosition(r, s, features, p, j);
    }
    assert features[r[i].id] in s;
    var a :| 0 <= a < |s| && s[a] == r[i];
    assert a >= i;
    assert features[s[i].id] in r;
    var b :| 0 <= b < |r| && r[b] == s[i];
    assert b >= i;
  }

  predicate Has(dim: Dimension, key: Key, f: Feature) { key in KeysOf(dim, f) }

  /** The keys, dimension by dimension; a feature has one per vector. */
  lemma HasIff(key: Key, f: Feature)
    ensures Has(ByModality, key, f) <==> f.modality == key
    ensures Has(BySourceFrame, key, f) <==> f.sourceFrame == Some(key)
    ensures Has(BySourceSensor, key, f) <==> f.sourceSensor == Some(key)
    ensures Has(ByVectorId, key, f) <==> exists i :: 0 <= i < |f.vectorIds| && f.vectorIds[i] == key
    ensures Has(ByProvenance, key, f) <==> f.provenanceKey == key
  {
  }

  lemma {:induction false} Smallest(ids: set<FeatureId>) returns (m: FeatureId)
    requires ids != {}
    ensures m in ids && forall x :: x in ids ==> m <= x
  {
    var x :| x in ids;
    var rest := ids - {x};
    m := x;
    if rest == {} {
    } else {
      var least := Smallest(rest);
      if least < x {
        m := least;
      }
    }
    assert forall y :: y in ids ==> y == x || y in rest;
  }

  // ---------------------------------------------------------------- the registry in place

  class FeatureRegistry {
    var features: Features
    var byModality: Index
    var bySourceFrame: Index
    var bySourceSensor: Index
    var byVectorId: Index
    var byProvenance: Index

    function IndexBy(dim: Dimension): Index
      reads this
    {
      match dim
      case ByModality => byModality
      case BySourceFrame => bySourceFrame
      case BySourceSensor => bySourceSensor
      case ByVectorId => byVectorId
      case ByProvenance => byProvenance
    }

    /** Each index files exactly the ids whose current feature has the key, with
        no empty bucket and no dangling id. */
    ghost predicate Valid()
      reads this
    {
      && (forall id :: id in features ==> features[id].id == id)
      && (forall dim: Dimension :: Files(IndexBy(dim), AllKeys(dim, features)))
    }

    constructor ()
      ensures Valid() && features == map[]
    {
      features := map[];
      byModality, bySourceFrame, bySourceSensor, byVectorId, byProvenance := map[], map[], map[], map[], map[];
    }

    method FileVectors(f: Feature)
      modifies this`byVectorId
      ensures byVectorId == FiledAll(old(byVectorId), f.vectorIds, f.id)
    {
      for i := 0 to |f.vectorIds|
        invariant byVectorId == FiledAll(old(byVectorId), f.vectorIds[..i], f.id)
      {
        assert f.vectorIds[..i + 1][..i] == f.vectorIds[..i];
        byVectorId := Filed(byVectorId, f.vectorIds[i], f.id);
      }
      assert f.vectorIds[..|f.vectorIds|] == f.vectorIds;
    }

    method FileSources(f: Feature)
      modifies this`bySourceFrame, this`bySourceSensor
      ensures bySourceFrame == FiledAll(old(bySourceFrame), Present(f.sourceFrame), f.id)
      ensures bySourceSensor == FiledAll(old(bySourceSensor), Present(f.sourceSensor), f.id)
    {
      AtMostOneFiled(bySourceFrame, Present(f.sourceFrame), f.id);
      AtMostOneFiled(bySourceSensor, Present(f.sourceSensor), f.id);
      if f.sourceFrame.Some? {
        bySourceFrame := Filed(bySourceFrame, f.sourceFrame.value, f.id);
      }
      if f.sourceSensor.Some? {
        bySourceSensor := Filed(bySourceSensor, f.sourceSensor.value, f.id);
      }
    }

    method AddToIndexes(f: Feature)
      modifies this
      ensures forall dim: Dimension :: IndexBy(dim) == FiledAll(old(IndexBy(dim)), KeysOf(dim, f), f.id)
      ensures features == old(features)
    {
      AtMostOneFiled(byModality, [f.modality], f.id);
      AtMostOneFiled(byProvenance, [f.provenanceKey], f.id);
      byModality := Filed(byModality, f.modality, f.id);
      FileSources(f);
      FileVectors(f);
      byProvenance := Filed(byProvenance, f.provenanceKey, f.id);
    }

    method UnfileVectors(f: Feature)
      modifies this`byVectorId
      ensures byVectorId == UnfiledAll(old(byVectorId), f.vectorIds, f.id)
    {
      for i := 0 to |f.vectorIds|
        invariant byVectorId == UnfiledAll(old(byVectorId), f.vectorIds[..i], f.id)
      {
        assert f.vectorIds[..i + 1][..i] == f.vectorIds[..i];
        byVectorId := Unfiled(byVectorId, f.vectorIds[i], f.id);
      }
      assert f.vectorIds[..|f.vectorIds|] == f.vectorIds;
    }

    method UnfileSources(f: Feature)
      modifies this`bySourceFrame, this`bySourceSensor
      ensures bySourceFrame == UnfiledAll(old(bySourceFrame), Present(f.sourceFrame), f.id)
      ensures bySourceSensor == UnfiledAll(old(bySourceSensor), Present(f.sourceSensor), f.id)
    {
      AtMostOneUnfiled(bySourceFrame, Present(f.sourceFrame), f.id);
      AtMostOneUnfiled(bySourceSensor, Present(f.sourceSensor), f.id);
      if f.sourceFrame.Some? {
        bySourceFrame := Unfiled(bySourceFrame, f.sourceFrame.value, f.id);
      }
      if f.sourceSensor.Some? {
        bySourceSensor := Unfiled(bySourceSensor, f.sourceSensor.value, f.id);
      }
    }

    method RemoveFromIndexes(f: Feature)
      modifies this
      ensures forall dim: Dimension :: IndexBy(dim) == UnfiledAll(old(IndexBy(dim)), KeysOf(dim, f), f.id)
      ensures features == old(features)
    {
      AtMostOneUnfiled(byModality, [f.modality], f.id);
      AtMostOneUnfiled(byProvenance, [f.provenanceKey], f.id);
      byModality := Unfiled(byModality, f.modality, f.id);
      UnfileSources(f);
      UnfileVectors(f);
      byProvenance := Unfiled(byProvenance, f.provenanceKey, f.id);
    }

    method Insert(f: Feature) returns (replaced: Option<Feature>)
      requires Valid()
      modifies this
      ensures Valid()
      ensures features == old(features)[f.id := f]
      ensures replaced == if f.id in old(features) then Some(old(features)[f.id]) else None
    {
      replaced := None;
      if f.id in features {
        replaced := Some(features[f.id]);
        RemoveFromIndexes(features[f.id]);
      }
      AddToIndexes(f);
      features := features[f.id := f];
      forall dim: Dimension ensures Files(IndexBy(dim), AllKeys(dim, features)) {
        ReplacingFiles(dim, old(IndexBy(dim)), old(features), f);
      }
    }

    method Extend(fs: seq<Feature>)
      requires Valid()
      modifies this
      ensures Valid()
      ensures features == Inserted(old(features), fs)
    {
      for i := 0 to |fs|
        invariant Valid() && features == Inserted(old(features), fs[..i])
      {
        assert fs[..i + 1][..i] == fs[..i];
        var _ := Insert(fs[i]);
      }
      assert fs[..|fs|] == fs;
    }

    /** The features of a bucket, walked in id order. */
    method Lookup(bucket: set<FeatureId>) returns (found: seq<Feature>)
      requires Valid() && forall id :: id in bucket ==> id in features
      ensures IsScan(found, features, (f: Feature) => f.id in bucket)
    {
      found := [];
      var rest := bucket;
      while rest != {}
        invariant rest <= bucket
        invariant forall i, j :: 0 <= i < j < |found| ==> found[i].id < found[j].id
        invariant forall i :: 0 <= i < |found| ==>
                    found[i].id in bucket && features[found[i].id] == found[i]
        invariant forall i, id :: 0 <= i < |found| && id in rest ==> found[i].id < id
        invariant forall id :: id in bucket && id !in rest ==> features[id] in found
        decreases rest
      {
        ghost var least := Smallest(rest);
        var id :| id in rest && forall x :: x in rest ==> id <= x;
        found, rest := found + [features[id]], rest - {id};
      }
    }

    /** Every indexed lookup is the filtered scan of the primary map. */
    method By(dim: Dimension, key: Key) returns (found: seq<Feature>)
      requires Valid()
      ensures IsScan(found, features, (f: Feature) => Has(dim, key, f))
    {
      var index := IndexBy(dim);
      var bucket := if key in index then index[key] else {};
      assert Files(index, AllKeys(dim, features));
      forall id ensures id in bucket <==> id in features && Has(dim, key, features[id]) {
        assert InBucket(index, key, id) <==> Keyed(AllKeys(dim, features), id, key);
      }
      found := Lookup(bucket);
    }

    method ByTimeWindow(startMs: nat, endMs: nat) returns (found: seq<Feature>)
      requires Valid()
      ensures IsScan(found, features, (f: Feature) => startMs <= f.createdAtMs <= endMs)
    {
      var inWindow := set id | id in features && startMs <= features[id].createdAtMs <= endMs;
      found := Lookup(inWindow);
    }
  }

  function Inserted(features: Features, fs: seq<Feature>): Features {
    if fs == [] then features
    else var earlier, f := Inserted(features, fs[..|fs| - 1]), fs[|fs| - 1]; earlier[f.id := f]
  }

  /** After extending, an id has the last of the features given under it, or, when
      there is none, what it had before. */
  lemma LastInsertedWins(features: Features, earlier: seq<Feature>, f: Feature, later: seq<Feature>, id: FeatureId)
    requires forall i :: 0 <= i < |later| ==> later[i].id != id
    ensures id in Inserted(features, later) <==> id in features
    ensures id in features ==> Inserted(features, later)[id] == features[id]
    ensures var all := Inserted(features, earlier + [f] + later); f.id == id ==> id in all && all[id] == f
  {
    Untouched(features, [], later, id);
    Untouched(features, earlier + [f], later, id);
    assert [] + later == later && (earlier + [f])[..|earlier|] == earlier;
  }

  lemma {:induction false} Untouched(features: Features, earlier: seq<Feature>, later: seq<Feature>, id: FeatureId)
    requires forall i :: 0 <= i < |later| ==> later[i].id != id
    ensures var before, after := Inserted(features, earlier), Inserted(features, earlier + later);
            (id in after <==> id in before) && (id in before ==> after[id] == before[id])
  {
    if later == [] {
      assert earlier + later == earlier;
    } else {
      var n := |later| - 1;
      Untouched(features, earlier, later[..n], id);
      assert (earlier + later)[..|earlier| + n] == earlier + later[..n];
      assert (earlier + later)[|earlier| + n] == later[n];
    }
  }
}
