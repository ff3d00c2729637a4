/** The worked example of the similarity job: whiskies 1, 2 and 3 tagged
    (t1 x2, t2 x3), (t1 x2) and (t1 x3) over the vocabulary [t1, t2]. */
module Scenario {
  import opened Common
  import opened Models
  import opened Distance
  import opened Ranking
  import opened Comparables
  import Features

  const T1: TagId := 10
  const T2: TagId := 20

  function ExampleRows(): seq<TrackerRow>
  {
    [ TrackerRow(1, T1, 2, Some(2)), TrackerRow(1, T2, 3, Some(3)),
      TrackerRow(2, T1, 2, Some(2)), TrackerRow(3, T1, 3, Some(3)) ]
  }

  /** The vectors are [2, 3], [2, 0] and [3, 0]. */
  lemma ExampleFeatures()
    ensures forall id :: id in [1, 2, 3] ==> Features.Counted(ExampleRows(), id)
    ensures Features.FeaturesOf(ExampleRows(), [1, 2, 3], [T1, T2]) == ExampleFeatureMap()
  {
    var rows := ExampleRows();
    var f := Features.FeaturesOf(rows, [1, 2, 3], [T1, T2]);
    Features.TrackedEntry(rows, 1, [T1, T2], 0, 0);
    Features.TrackedEntry(rows, 1, [T1, T2], 1, 1);
    Features.TrackedEntry(rows, 2, [T1, T2], 0, 2);
    Features.UntrackedEntry(rows, 2, [T1, T2], 1);
    Features.TrackedEntry(rows, 3, [T1, T2], 0, 3);
    Features.UntrackedEntry(rows, 3, [T1, T2], 1);
    assert f[1] == [2, 3] && f[2] == [2, 0] && f[3] == [3, 0];
  }

  function ExampleFeatureMap(): map<WhiskeyId, seq<int>>
  {
    map[1 := [2, 3], 2 := [2, 0], 3 := [3, 0]]
  }

  /** In a cohort of three, the single comparable of `w` is the other
      whiskey `near` when it is strictly closer to `w` than the third, `far`. */
  lemma SingleComparable(f: map<WhiskeyId, seq<int>>, ids: seq<WhiskeyId>, dim: nat,
                         w: WhiskeyId, near: WhiskeyId, far: WhiskeyId)
    requires Uniform(f, ids, dim) && Distinct(ids) && |ids| == 3
    requires w in ids && near in ids && far in ids
    requires w != near && w != far && near != far
    requires SquaredDistance(f[w], f[near]) < SquaredDistance(f[w], f[far])
    ensures CompsFor(f, ids, w, 1, dim) == {near}
  {
    var c := CompsFor(f, ids, w, 1, dim);
    CompsCount(f, ids, w, 1, dim);
    var s :| s in c;
    assert c == {s} by {
      assert |c - {s}| == 0;
    }
    if s != near {
      assert s != w;
      assert s == far by {
        var i :| 0 <= i < 3 && ids[i] == s;
        var a :| 0 <= a < 3 && ids[a] == w;
        var b :| 0 <= b < 3 && ids[b] == near;
        var d :| 0 <= d < 3 && ids[d] == far;
      }
      CompsNearest(f, ids, w, 1, dim, s, near);
    }
  }

  /** Squared distances of the example: 9 between 1 and 2, 10 between 1
      and 3, 1 between 2 and 3. */
  lemma ExampleDistances()
    ensures var f := ExampleFeatureMap();
      && SquaredDistance(f[1], f[2]) == 9 && SquaredDistance(f[1], f[3]) == 10
      && SquaredDistance(f[2], f[1]) == 9 && SquaredDistance(f[2], f[3]) == 1
      && SquaredDistance(f[3], f[1]) == 10 && SquaredDistance(f[3], f[2]) == 1
  {
    assert SquaredDistance([2, 3], [2, 0]) == 9;
    assert SquaredDistance([2, 3], [3, 0]) == 10;
    assert SquaredDistance([2, 0], [2, 3]) == 9;
    assert SquaredDistance([2, 0], [3, 0]) == 1;
    assert SquaredDistance([3, 0], [2, 3]) == 10;
    assert SquaredDistance([3, 0], [2, 0]) == 1;
  }

  /** With one comparable each: 1 gets 2 (closer than 3), 2 gets 3 (closer
      than 1) and 3 gets 2 (closer than 1). */
  lemma ExampleComparables(f: map<WhiskeyId, seq<int>>, ids: seq<WhiskeyId>)
    requires f == ExampleFeatureMap() && ids == [1, 2, 3]
    ensures Uniform(f, ids, 2)
    ensures CompsFor(f, ids, 1, 1, 2) == {2}
    ensures CompsFor(f, ids, 2, 1, 2) == {3}
    ensures CompsFor(f, ids, 3, 1, 2) == {2}
  {
    ExampleDistances();
    assert Uniform(f, ids, 2) && Distinct(ids);
    SingleComparable(f, ids, 2, 1, 2, 3);
    SingleComparable(f, ids, 2, 2, 3, 1);
    SingleComparable(f, ids, 2, 3, 2, 1);
  }

  /** The cohort of the example: three whiskies with 100 reviews each. */
  function ExampleWhiskies(): seq<Whiskey>
  {
    [Whiskey(1, Some(100)), Whiskey(2, Some(100)), Whiskey(3, Some(100))]
  }

  /** The example meets what the job demands of its input. */
  lemma ExampleCohort(whiskies: seq<Whiskey>, rows: seq<TrackerRow>)
    requires whiskies == ExampleWhiskies() && rows == ExampleRows()
    ensures IdsOf(whiskies) == [1, 2, 3]
    ensures Distinct(IdsOf(whiskies))
    ensures forall i :: 0 <= i < |whiskies| ==> Features.Counted(rows, whiskies[i].id)
  {
    var ids := IdsOf(whiskies);
    assert ids == [1, 2, 3];
    ExampleFeatures();
    forall i | 0 <= i < |whiskies| ensures Features.Counted(rows, whiskies[i].id) {
      assert whiskies[i].id == ids[i] && ids[i] in [1, 2, 3];
    }
  }

  /** The whole job on the example with `number_comps = 1`, starting from a
      stored relation in which 1 had the stale comparable 3 and 2 had 1 and 3:
      afterwards 1 has exactly 2, 2 exactly 3, and 3 exactly 2. */
  method ExampleRun() returns (c1: set<WhiskeyId>, c2: set<WhiskeyId>, c3: set<WhiskeyId>)
    ensures c1 == {2} && c2 == {3} && c3 == {2}
  {
    var store := new Store(map[1 := {3}, 2 := {1, 3}]);
    var whiskies := ExampleWhiskies();
    var rows := ExampleRows();
    var tags := [T1, T2];
    ExampleCohort(whiskies, rows);
    store.UpdateWhiskeyComps(whiskies, rows, tags, 1);
    var ids := IdsOf(whiskies);
    ExampleFeatures();
    ExampleComparables(Features.FeaturesOf(rows, ids, tags), ids);
    c1, c2, c3 := store.Comparables(ids[0]), store.Comparables(ids[1]), store.Comparables(ids[2]);
  }
}
