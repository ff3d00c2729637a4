/** Feature vectors: `get_tag_counts` and `create_features_dict` of
    whiskies/command_functions.py. A whiskey's vector has one entry per tag of
    a fixed, ordered vocabulary: that whiskey's normalised count for the tag,
    or 0 when no tracker joins the two. */
module Features {
  import opened Common
  import opened Models

  /** Every tracker of whiskey `w` in the snapshot has a normalised count
      (a null one would be carried into the vector unchanged). */
  predicate Counted(rows: seq<TrackerRow>, w: WhiskeyId)
  {
    forall i :: 0 <= i < |rows| && rows[i].whiskey == w ==> rows[i].normalizedCount.Some?
  }

  /** Row `i` is the last row of the snapshot joining `w` to its tag. */
  predicate LastFor(rows: seq<TrackerRow>, w: WhiskeyId, i: nat)
    requires i < |rows|
  {
    rows[i].whiskey == w &&
    forall j :: i < j < |rows| ==> !(rows[j].whiskey == w && rows[j].tag == rows[i].tag)
  }

  /** Some tracker of the snapshot joins `w` to `tag`. */
  predicate Joins(rows: seq<TrackerRow>, w: WhiskeyId, tag: TagId)
  {
    exists i :: 0 <= i < |rows| && rows[i].whiskey == w && rows[i].tag == tag
  }

  /** The dictionary `{tag_id: normalized_count}` built from the trackers of
      `w`, in snapshot order (a later row overwrites an earlier one). */
  function CountDict(rows: seq<TrackerRow>, w: WhiskeyId): (d: map<TagId, int>)
    requires Counted(rows, w)
  {
    if rows == [] then map[]
    else
      var n := |rows| - 1;
      assert Counted(rows[..n], w) by {
        forall i | 0 <= i < n && rows[..n][i].whiskey == w ensures rows[..n][i].normalizedCount.Some? {
          assert rows[..n][i] == rows[i];
        }
      }
      var prefix := CountDict(rows[..n], w);
      if rows[n].whiskey == w then prefix[rows[n].tag := rows[n].normalizedCount.value] else prefix
  }

  /** The dictionary has a key for exactly the tags some tracker joins to `w`. */
  lemma {:induction false} CountDictKeys(rows: seq<TrackerRow>, w: WhiskeyId, tag: TagId)
    requires Counted(rows, w)
    ensures tag in CountDict(rows, w) <==> Joins(rows, w, tag)
  {
    if rows != [] {
      var n := |rows| - 1;
      assert Counted(rows[..n], w) by {
        forall i | 0 <= i < n && rows[..n][i].whiskey == w ensures rows[..n][i].normalizedCount.Some? {
          assert rows[..n][i] == rows[i];
        }
      }
      CountDictKeys(rows[..n], w, tag);
      if Joins(rows, w, tag) && !(rows[n].whiskey == w && rows[n].tag == tag) {
        var i :| 0 <= i < |rows| && rows[i].whiskey == w && rows[i].tag == tag;
        assert rows[..n][i] == rows[i];
      }
      if Joins(rows[..n], w, tag) {
        var i :| 0 <= i < n && rows[..n][i].whiskey == w && rows[..n][i].tag == tag;
        assert rows[i] == rows[..n][i];
      }
    }
  }

  /** The value kept for a tag is the normalised count of the last tracker
      joining `w` to it. */
  lemma {:induction false} CountDictLast(rows: seq<TrackerRow>, w: WhiskeyId, i: nat)
    requires Counted(rows, w)
    requires i < |rows| && LastFor(rows, w, i)
    ensures rows[i].tag in CountDict(rows, w)
    ensures CountDict(rows, w)[rows[i].tag] == rows[i].normalizedCount.value
  {
    var n := |rows| - 1;
    assert Counted(rows[..n], w) by {
      forall j | 0 <= j < n && rows[..n][j].whiskey == w ensures rows[..n][j].normalizedCount.Some? {
        assert rows[..n][j] == rows[j];
      }
    }
    if i < n {
      assert rows[..n][i] == rows[i];
      assert LastFor(rows[..n], w, i) by {
        forall j | i < j < n ensures !(rows[..n][j].whiskey == w && rows[..n][j].tag == rows[..n][i].tag) {
          assert rows[..n][j] == rows[j];
        }
      }
      CountDictLast(rows[..n], w, i);
    }
  }

  /** Entry of the vector for `tag`: `count_dict.get(tag, 0)`. */
  function TagValue(rows: seq<TrackerRow>, w: WhiskeyId, tag: TagId): int
    requires Counted(rows, w)
  {
    var d := CountDict(rows, w);
    if tag in d then d[tag] else 0
  }

  /** The feature vector of `w` over the vocabulary `tags`. */
  function FeatureVector(rows: seq<TrackerRow>, w: WhiskeyId, tags: seq<TagId>): (v: seq<int>)
    requires Counted(rows, w)
    ensures |v| == |tags|
  {
    seq(|tags|, i requires 0 <= i < |tags| => TagValue(rows, w, tags[i]))
  }

  /** Entry `i` is the normalised count of the tracker joining `w` to tag
      `tags[i]` (the last one, were there several) ... */
  lemma TrackedEntry(rows: seq<TrackerRow>, w: WhiskeyId, tags: seq<TagId>, i: nat, k: nat)
    requires Counted(rows, w)
    requires i < |tags| && k < |rows|
    requires LastFor(rows, w, k) && rows[k].tag == tags[i]
    ensures FeatureVector(rows, w, tags)[i] == rows[k].normalizedCount.value
  {
    CountDictLast(rows, w, k);
  }

  /** ... and 0 when no tracker joins `w` to that tag. */
  lemma UntrackedEntry(rows: seq<TrackerRow>, w: WhiskeyId, tags: seq<TagId>, i: nat)
    requires Counted(rows, w)
    requires i < |tags|
    requires forall k :: 0 <= k < |rows| ==> !(rows[k].whiskey == w && rows[k].tag == tags[i])
    ensures FeatureVector(rows, w, tags)[i] == 0
  {
    CountDictKeys(rows, w, tags[i]);
  }

  /** A whiskey without trackers has the zero vector. */
  lemma NoTrackersZeroVector(rows: seq<TrackerRow>, w: WhiskeyId, tags: seq<TagId>)
    requires forall k :: 0 <= k < |rows| ==> rows[k].whiskey != w
    ensures Counted(rows, w)
    ensures FeatureVector(rows, w, tags) == seq(|tags|, i => 0)
  {
    var v := FeatureVector(rows, w, tags);
    forall i | 0 <= i < |tags| ensures v[i] == 0 {
      UntrackedEntry(rows, w, tags, i);
    }
  }

  /** `get_tag_counts(whiskey, tags)`: build the dictionary of the whiskey's
      trackers, then look every vocabulary tag up in order. */
  method GetTagCounts(rows: seq<TrackerRow>, w: WhiskeyId, tags: seq<TagId>) returns (counts: seq<int>)
    requires Counted(rows, w)
    ensures counts == FeatureVector(rows, w, tags)
  {
    var countDict := CountDict(rows, w);
    counts := [];
    for i := 0 to |tags|
      invariant |counts| == i
      invariant forall j :: 0 <= j < i ==> counts[j] == TagValue(rows, w, tags[j])
    {
      var count := if tags[i] in countDict then countDict[tags[i]] else 0;
      counts := counts + [count];
    }
  }

  /** The features of every whiskey of a cohort: `{id: vector}`. */
  function FeaturesOf(rows: seq<TrackerRow>, ids: seq<WhiskeyId>, tags: seq<TagId>): (f: map<WhiskeyId, seq<int>>)
    requires forall id :: id in ids ==> Counted(rows, id)
    ensures f.Keys == set id | id in ids
    ensures forall id :: id in f ==> |f[id]| == |tags|
  {
    map id | id in ids :: FeatureVector(rows, id, tags)
  }

  /** `create_features_dict(whiskies, tags)`: one vector per whiskey of the
      cohort, keyed by its id. */
  method CreateFeaturesDict(whiskies: seq<Whiskey>, rows: seq<TrackerRow>, tags: seq<TagId>)
    returns (features: map<WhiskeyId, seq<int>>)
    requires forall i :: 0 <= i < |whiskies| ==> Counted(rows, whiskies[i].id)
    ensures features.Keys == set i | 0 <= i < |whiskies| :: whiskies[i].id
    ensures forall i :: 0 <= i < |whiskies| ==> features[whiskies[i].id] == FeatureVector(rows, whiskies[i].id, tags)
  {
    features := map[];
    for i := 0 to |whiskies|
      invariant features.Keys == set j | 0 <= j < i :: whiskies[j].id
      invariant forall j :: 0 <= j < i ==> features[whiskies[j].id] == FeatureVector(rows, whiskies[j].id, tags)
    {
      var counts := GetTagCounts(rows, whiskies[i].id, tags);
      features := features[whiskies[i].id := counts];
    }
  }
}
