/** The comparables relation and `update_whiskey_comps` of
    whiskies/command_functions.py: for every whiskey of the cohort, sort its
    column of the distance table, clear its stored comparables and add the
    first `number_comps` ids. The relation is one directed map from a whiskey
    to the set of whiskies stored as its comparables. */
module Comparables {
  import opened Common
  import opened Models
  import opened Distance
  import opened Ranking
  import Features

  /** The column of the table for whiskey `w`: for each whiskey `c` of the
      cohort, the cell (`c`, `w`). */
  function ColumnEntries(features: map<WhiskeyId, seq<int>>, ids: seq<WhiskeyId>, w: WhiskeyId, dim: nat): (col: seq<Entry>)
    requires Uniform(features, ids, dim) && w in ids
    ensures |col| == |ids|
  {
    seq(|ids|, c requires 0 <= c < |ids| => Entry(ids[c], Cell(features, ids[c], w)))
  }

  /** The comparables a run assigns to `w`: the ids of the first `k` entries
      of its sorted column. */
  function CompsFor(features: map<WhiskeyId, seq<int>>, ids: seq<WhiskeyId>, w: WhiskeyId, k: int, dim: nat): set<WhiskeyId>
    requires Uniform(features, ids, dim) && w in ids
  {
    TopIds(SortEntries(ColumnEntries(features, ids, w, dim)), k)
  }

  lemma ColumnShape(features: map<WhiskeyId, seq<int>>, ids: seq<WhiskeyId>, w: WhiskeyId, dim: nat)
    requires Uniform(features, ids, dim) && w in ids && Distinct(ids)
    ensures ColumnOf(ColumnEntries(features, ids, w, dim), ids, w)
  {
  }

  /** For `0 <= k < N`: `w` gets exactly `k` comparables, all from the
      cohort, never itself. */
  lemma CompsCount(features: map<WhiskeyId, seq<int>>, ids: seq<WhiskeyId>, w: WhiskeyId, k: int, dim: nat)
    requires Uniform(features, ids, dim) && w in ids && Distinct(ids)
    requires 0 <= k < |ids|
    ensures |CompsFor(features, ids, w, k, dim)| == k
    ensures w !in CompsFor(features, ids, w, k, dim)
    ensures forall v :: v in CompsFor(features, ids, w, k, dim) ==> v in ids
  {
    ColumnShape(features, ids, w, dim);
    SelectionSize(ColumnEntries(features, ids, w, dim), ids, w, k);
  }

  /** For `0 <= k < N`: every comparable of `w` is at most as far from `w`
      as every other whiskey of the cohort that was not selected. */
  lemma CompsNearest(features: map<WhiskeyId, seq<int>>, ids: seq<WhiskeyId>, w: WhiskeyId, k: int, dim: nat,
                     s: WhiskeyId, u: WhiskeyId)
    requires Uniform(features, ids, dim) && w in ids && Distinct(ids)
    requires 0 <= k < |ids|
    requires s in ids && s in CompsFor(features, ids, w, k, dim)
    requires u in ids && u != w && u !in CompsFor(features, ids, w, k, dim)
    ensures SquaredDistance(features[w], features[s]) <= SquaredDistance(features[w], features[u])
  {
    var col := ColumnEntries(features, ids, w, dim);
    ColumnShape(features, ids, w, dim);
    var a :| 0 <= a < |ids| && ids[a] == s;
    var b :| 0 <= b < |ids| && ids[b] == u;
    SelectionOrdered(col, ids, w, k, a, b);
    assert s != w;
    assert col[a].score == Dist(SquaredDistance(features[s], features[w]));
    assert col[b].score == Dist(SquaredDistance(features[u], features[w]));
    DistanceSymmetric(features[s], features[w]);
    DistanceSymmetric(features[u], features[w]);
  }

  /** For `k >= N` the slice reaches the sentinel: `w` is given the whole
      cohort, itself included. */
  lemma CompsWholeCohort(features: map<WhiskeyId, seq<int>>, ids: seq<WhiskeyId>, w: WhiskeyId, k: int, dim: nat)
    requires Uniform(features, ids, dim) && w in ids && Distinct(ids)
    requires k >= |ids|
    ensures CompsFor(features, ids, w, k, dim) == set v | v in ids
    ensures w in CompsFor(features, ids, w, k, dim)
  {
    ColumnShape(features, ids, w, dim);
    SelectionAll(ColumnEntries(features, ids, w, dim), ids, w, k);
  }

  /** `score_df[w]`: the column of `w`, one entry per row of the table. */
  function TableColumn(index: seq<WhiskeyId>, table: seq<map<WhiskeyId, Score>>, w: WhiskeyId): (col: seq<Entry>)
    requires |table| == |index| && forall c :: 0 <= c < |index| ==> w in table[c]
    ensures |col| == |index|
  {
    seq(|index|, c requires 0 <= c < |index| => Entry(index[c], table[c][w]))
  }

  /** A table laid out as `main_scores` lays it out has the columns the
      ranking is specified on. */
  lemma ColumnFromTable(index: seq<WhiskeyId>, table: seq<map<WhiskeyId, Score>>,
                        features: map<WhiskeyId, seq<int>>, dim: nat, w: WhiskeyId)
    requires Uniform(features, index, dim) && w in index && |table| == |index|
    requires forall c, r :: 0 <= c < |index| && 0 <= r < |index| ==>
      index[r] in table[c] && table[c][index[r]] == Cell(features, index[c], index[r])
    ensures forall c :: 0 <= c < |index| ==> w in table[c]
    ensures TableColumn(index, table, w) == ColumnEntries(features, index, w, dim)
  {
    var r :| 0 <= r < |index| && index[r] == w;
    assert forall c :: 0 <= c < |index| ==> index[r] in table[c];
  }

  /** The comparables a stored relation gives `w`: none when `w` has no entry. */
  function Lookup(comps: map<WhiskeyId, set<WhiskeyId>>, w: WhiskeyId): set<WhiskeyId>
  {
    if w in comps then comps[w] else {}
  }

  /** The stored comparables relation. */
  class Store {
    var comps: map<WhiskeyId, set<WhiskeyId>>

    constructor (comps: map<WhiskeyId, set<WhiskeyId>>)
      ensures this.comps == comps
    {
      this.comps := comps;
    }

    /** `whiskey.comparables.all()`: a whiskey without an entry has none. */
    function Comparables(w: WhiskeyId): set<WhiskeyId>
      reads this
    {
      Lookup(comps, w)
    }

    /** `clear_saved(whiskey)`: remove the stored comparables of `w` one by
        one; every other whiskey's entry stays as it was. */
    method ClearSaved(w: WhiskeyId)
      modifies this
      ensures comps == if w in old(comps) then old(comps)[w := {}] else old(comps)
      ensures Comparables(w) == {}
    {
      ghost var before := comps;
      var saved := Comparables(w);
      while saved != {}
        invariant comps == if w in before then before[w := saved] else before
        invariant w !in before ==> saved == {}
        decreases saved
      {
        var comp :| comp in saved;
        comps := comps[w := comps[w] - {comp}];
        saved := saved - {comp};
      }
    }

    /** The body of the `update_whiskey_comps` loop for one whiskey: clear
        its comparables, then add the ids of the first `numberComps` entries
        of its sorted column. Nothing of the old assignment of `w` survives
        unless selected again, and no other whiskey's entry changes. */
    method ReplaceComparables(w: WhiskeyId, sorted: seq<Entry>, numberComps: int)
      modifies this
      ensures Comparables(w) == TopIds(sorted, numberComps)
      ensures forall v :: v != w ==> Comparables(v) == old(Comparables(v))
    {
      ClearSaved(w);
      var stop := SliceStop(numberComps, |sorted|);
      for j := 0 to stop
        invariant Comparables(w) == IdSet(sorted[..j])
        invariant forall v :: v != w ==> Comparables(v) == old(Comparables(v))
      {
        assert sorted[..j + 1] == sorted[..j] + [sorted[j]];
        IdSetSnoc(sorted[..j], sorted[j]);
        comps := comps[w := Comparables(w) + {sorted[j].id}];
      }
    }

    /** One pass of the `update_whiskey_comps` loop: rank the column of
        `index[i]` and store its first `numberComps` ids, which are `expected[i]`. */
    method UpdateOne(index: seq<WhiskeyId>, table: seq<map<WhiskeyId, Score>>,
                     ghost features: map<WhiskeyId, seq<int>>, ghost dim: nat,
                     i: nat, numberComps: int, ghost expected: seq<set<WhiskeyId>>)
      modifies this
      requires Uniform(features, index, dim) && i < |index| && |table| == |index|
      requires forall c, r :: 0 <= c < |index| && 0 <= r < |index| ==>
        index[r] in table[c] && table[c][index[r]] == Cell(features, index[c], index[r])
      requires |expected| == |index|
      requires forall j {:trigger CompsFor(features, index, index[j], numberComps, dim)} :: 0 <= j < |index| ==>
        expected[j] == CompsFor(features, index, index[j], numberComps, dim)
      ensures Lookup(comps, index[i]) == expected[i]
      ensures forall v :: v != index[i] ==> Lookup(comps, v) == Lookup(old(comps), v)
    {
      var w := index[i];
      ColumnFromTable(index, table, features, dim, w);
      var scores := TableColumn(index, table, w);
      var sorted := SortEntries(scores);
      ReplaceComparables(w, sorted, numberComps);
      forall v | v != w ensures Lookup(comps, v) == Lookup(old(comps), v) {
        assert Comparables(v) == old(Comparables(v));
      }
      assert expected[i] == CompsFor(features, index, w, numberComps, dim);
    }

    /** `update_whiskey_comps(whiskies, tags, number_comps=12)`: every
        whiskey of the cohort ends up with exactly the comparables the
        ranking of its column selects, whatever it had before; whiskies
        outside the cohort keep theirs. */
    method UpdateWhiskeyComps(whiskies: seq<Whiskey>, rows: seq<TrackerRow>, tags: seq<TagId>, numberComps: int := 12)
      modifies this
      requires Distinct(IdsOf(whiskies))
      requires forall i :: 0 <= i < |whiskies| ==> Features.Counted(rows, whiskies[i].id)
      ensures var ids := IdsOf(whiskies);
        var features := Features.FeaturesOf(rows, ids, tags);
        Uniform(features, ids, |tags|) &&
        forall i :: 0 <= i < |whiskies| ==>
          Comparables(whiskies[i].id) == CompsFor(features, ids, whiskies[i].id, numberComps, |tags|)
      ensures forall v :: v !in IdsOf(whiskies) ==> Comparables(v) == old(Comparables(v))
    {
      var index, table := MainScores(whiskies, rows, tags);
      ghost var features := Features.FeaturesOf(rows, index, tags);
      ghost var expected := seq(|index|, j requires 0 <= j < |index| =>
        CompsFor(features, index, index[j], numberComps, |tags|));
      UpdateAll(index, table, features, |tags|, numberComps, expected);
      forall i | 0 <= i < |whiskies|
        ensures Comparables(whiskies[i].id) == CompsFor(features, index, whiskies[i].id, numberComps, |tags|)
      {
        assert expected[i] == CompsFor(features, index, index[i], numberComps, |tags|);
      }
    }

    /** The `update_whiskey_comps` loop over the whole table: each whiskey
        `index[j]` in turn receives `expected[j]`, the selection of its
        ranked column. */
    method UpdateAll(index: seq<WhiskeyId>, table: seq<map<WhiskeyId, Score>>,
                     ghost features: map<WhiskeyId, seq<int>>, ghost dim: nat, numberComps: int,
                     ghost expected: seq<set<WhiskeyId>>)
      modifies this
      requires Uniform(features, index, dim) && Distinct(index) && |table| == |index|
      requires forall c, r :: 0 <= c < |index| && 0 <= r < |index| ==>
        index[r] in table[c] && table[c][index[r]] == Cell(features, index[c], index[r])
      requires |expected| == |index|
      requires forall j {:trigger CompsFor(features, index, index[j], numberComps, dim)} :: 0 <= j < |index| ==>
        expected[j] == CompsFor(features, index, index[j], numberComps, dim)
      ensures forall j {:trigger expected[j]} :: 0 <= j < |index| ==> Lookup(comps, index[j]) == expected[j]
      ensures forall v :: v !in index ==> Lookup(comps, v) == Lookup(old(comps), v)
    {
      ghost var start := comps;
      for i := 0 to |index|
        invariant forall j {:trigger expected[j]} :: 0 <= j < i ==> Lookup(comps, index[j]) == expected[j]
        invariant forall v :: v !in index ==> Lookup(comps, v) == Lookup(start, v)
      {
        ghost var before := comps;
        UpdateOne(index, table, features, dim, i, numberComps, expected);
        assert forall j :: 0 <= j < i ==> Lookup(comps, index[j]) == Lookup(before, index[j]);
      }
    }
  }

  /** The assignment does not depend on what was stored before: two stores
      holding different relations agree on the cohort after one run each. */
  method IndependentOfPrior(a: Store, b: Store, whiskies: seq<Whiskey>, rows: seq<TrackerRow>, tags: seq<TagId>, numberComps: int)
    modifies a, b
    requires a != b
    requires Distinct(IdsOf(whiskies))
    requires forall i :: 0 <= i < |whiskies| ==> Features.Counted(rows, whiskies[i].id)
    ensures forall i :: 0 <= i < |whiskies| ==> a.Comparables(whiskies[i].id) == b.Comparables(whiskies[i].id)
  {
    a.UpdateWhiskeyComps(whiskies, rows, tags, numberComps);
    b.UpdateWhiskeyComps(whiskies, rows, tags, numberComps);
  }

  /** Running the job a second time on unchanged data reproduces the
      assignment of the first run; `first` is the relation after it. */
  method RunTwice(store: Store, whiskies: seq<Whiskey>, rows: seq<TrackerRow>, tags: seq<TagId>, numberComps: int)
    returns (first: map<WhiskeyId, set<WhiskeyId>>)
    modifies store
    requires Distinct(IdsOf(whiskies))
    requires forall i :: 0 <= i < |whiskies| ==> Features.Counted(rows, whiskies[i].id)
    ensures forall w :: w in IdsOf(whiskies) ==> store.Comparables(w) == (if w in first then first[w] else {})
  {
    store.UpdateWhiskeyComps(whiskies, rows, tags, numberComps);
    first := store.comps;
    store.UpdateWhiskeyComps(whiskies, rows, tags, numberComps);
  }
}
