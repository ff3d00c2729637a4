/** The distance table: `euclidean_distance`, `create_scores` and
    `main_scores` of whiskies/command_functions.py. Distances are kept
    squared, as integers: the square root is monotone, so every comparison the
    ranking makes has the same outcome. The NaN the table holds on its
    diagonal is the score `Excluded`. */
module Distance {
  import opened Common
  import opened Models
  import Features

  /** The squared Euclidean distance of two vectors of equal length: never
      negative, and zero exactly when the vectors are equal. */
  function SquaredDistance(v1: seq<int>, v2: seq<int>): (d: int)
    requires |v1| == |v2|
    ensures d >= 0
    ensures d == 0 <==> v1 == v2
  {
    if |v1| == 0 then 0
    else
      var rest := SquaredDistance(v1[1..], v2[1..]);
      assert v1 == [v1[0]] + v1[1..] && v2 == [v2[0]] + v2[1..];
      (v1[0] - v2[0]) * (v1[0] - v2[0]) + rest
  }

  /** The distance does not depend on the order of its arguments. */
  lemma {:induction false} DistanceSymmetric(v1: seq<int>, v2: seq<int>)
    requires |v1| == |v2|
    ensures SquaredDistance(v1, v2) == SquaredDistance(v2, v1)
  {
    if |v1| > 0 {
      DistanceSymmetric(v1[1..], v2[1..]);
    }
  }

  /** A cell of the table: NaN on the diagonal, a distance elsewhere. */
  datatype Score = Excluded | Dist(d: int)

  /** Every whiskey of the cohort has a vector of length `dim`. */
  predicate Uniform(features: map<WhiskeyId, seq<int>>, ids: seq<WhiskeyId>, dim: nat)
  {
    forall id :: id in ids ==> id in features && |features[id]| == dim
  }

  /** The cell for the pair (`a`, `b`). */
  function Cell(features: map<WhiskeyId, seq<int>>, a: WhiskeyId, b: WhiskeyId): Score
    requires a in features && b in features && |features[a]| == |features[b]|
  {
    if a == b then Excluded else Dist(SquaredDistance(features[a], features[b]))
  }

  /** The sentinel stands exactly on the diagonal, every other cell holds a
      non-negative distance, and the table is symmetric. */
  lemma CellProperties(features: map<WhiskeyId, seq<int>>, a: WhiskeyId, b: WhiskeyId)
    requires a in features && b in features && |features[a]| == |features[b]|
    ensures Cell(features, a, b).Excluded? <==> a == b
    ensures Cell(features, a, b).Dist? ==> Cell(features, a, b).d >= 0
    ensures Cell(features, a, b) == Cell(features, b, a)
  {
    DistanceSymmetric(features[a], features[b]);
  }

  /** The dict `create_scores` builds for the whiskey `column` (its inner
      loop): keyed by every whiskey of the cohort. */
  method ScoreCell(ids: seq<WhiskeyId>, features: map<WhiskeyId, seq<int>>, ghost dim: nat, column: WhiskeyId)
    returns (cell: map<WhiskeyId, Score>)
    requires Uniform(features, ids, dim) && column in ids
    ensures forall id :: id in cell <==> id in ids
    ensures forall r :: 0 <= r < |ids| ==> ids[r] in cell && cell[ids[r]] == Cell(features, column, ids[r])
  {
    cell := map[];
    for r := 0 to |ids|
      invariant forall id :: id in cell <==> id in ids[..r]
      invariant forall j :: 0 <= j < r ==> ids[j] in cell && cell[ids[j]] == Cell(features, column, ids[j])
    {
      assert ids[..r + 1] == ids[..r] + [ids[r]];
      if column == ids[r] {
        cell := cell[ids[r] := Excluded];
      } else {
        var distance := SquaredDistance(features[column], features[ids[r]]);
        cell := cell[ids[r] := Dist(distance)];
      }
    }
    assert ids[..|ids|] == ids;
  }

  /** `create_scores(whiskey_ids, whiskey_features)`: one dict per whiskey of
      the cohort, keyed by every whiskey of the cohort, holding the sentinel
      for the whiskey itself and the distance to it for every other one. */
  method CreateScores(ids: seq<WhiskeyId>, features: map<WhiskeyId, seq<int>>, ghost dim: nat)
    returns (results: seq<map<WhiskeyId, Score>>)
    requires Uniform(features, ids, dim)
    ensures |results| == |ids|
    ensures forall c, id :: 0 <= c < |ids| ==> (id in results[c] <==> id in ids)
    ensures forall c, r :: 0 <= c < |ids| && 0 <= r < |ids| ==>
      ids[r] in results[c] && results[c][ids[r]] == Cell(features, ids[c], ids[r])
  {
    results := [];
    for c := 0 to |ids|
      invariant |results| == c
      invariant forall x, id :: 0 <= x < c ==> (id in results[x] <==> id in ids)
      invariant forall x, r :: 0 <= x < c && 0 <= r < |ids| ==>
        ids[r] in results[x] && results[x][ids[r]] == Cell(features, ids[x], ids[r])
    {
      var cell := ScoreCell(ids, features, dim, ids[c]);
      ghost var prev := results;
      results := results + [cell];
      assert forall x :: 0 <= x < c ==> results[x] == prev[x];
      assert results[c] == cell;
    }
  }

  /** `main_scores(whiskies, tags)` as a plain table: `index` is the list of
      the cohort's ids and row `c` of `table` the dict of row `index[c]`. */
  method MainScores(whiskies: seq<Whiskey>, rows: seq<TrackerRow>, tags: seq<TagId>)
    returns (index: seq<WhiskeyId>, table: seq<map<WhiskeyId, Score>>)
    requires Distinct(IdsOf(whiskies))
    requires forall i :: 0 <= i < |whiskies| ==> Features.Counted(rows, whiskies[i].id)
    ensures index == IdsOf(whiskies) && |table| == |index|
    ensures forall c, id :: 0 <= c < |index| ==> (id in table[c] <==> id in index)
    ensures var features := Features.FeaturesOf(rows, index, tags);
      Uniform(features, index, |tags|) &&
      forall c, r :: 0 <= c < |index| && 0 <= r < |index| ==>
        index[r] in table[c] && table[c][index[r]] == Cell(features, index[c], index[r])
  {
    var features := Features.CreateFeaturesDict(whiskies, rows, tags);
    index := IdsOf(whiskies);
    assert features == Features.FeaturesOf(rows, index, tags) by {
      assert (set i | 0 <= i < |whiskies| :: whiskies[i].id) == set id | id in index;
    }
    table := CreateScores(index, features, |tags|);
  }
}
