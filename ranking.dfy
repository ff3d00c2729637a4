/** Ranking one column of the distance table: `scores.sort_values()` puts the
    distances in ascending order with NaN last, and `scores.index[:k]` takes
    the ids of the first `k` entries (whiskies/command_functions.py). The sort
    is modelled as an insertion sort; pandas' default quicksort is not stable,
    so nothing below depends on the order of ties. */
module Ranking {
  import opened Common
  import opened Distance

  /** One entry of a column: a whiskey and its score. */
  datatype Entry = Entry(id: WhiskeyId, score: Score)

  /** Ascending order on scores, NaN after every distance. */
  predicate ScoreLe(a: Score, b: Score)
  {
    match (a, b)
    case (Dist(x), Dist(y)) => x <= y
    case (Dist(_), Excluded) => true
    case (Excluded, Dist(_)) => false
    case (Excluded, Excluded) => true
  }

  predicate Sorted(s: seq<Entry>)
  {
    forall i, j :: 0 <= i < j < |s| ==> ScoreLe(s[i].score, s[j].score)
  }

  /** No whiskey appears twice. */
  predicate NoDupIds(s: seq<Entry>)
  {
    forall i, j :: 0 <= i < j < |s| ==> s[i].id != s[j].id
  }

  /** Insert `e` in front of the first entry it does not exceed. */
  function Insert(e: Entry, s: seq<Entry>): (r: seq<Entry>)
    ensures |r| == |s| + 1
    ensures multiset(r) == multiset(s) + multiset{e}
  {
    if s == [] then [e]
    else if ScoreLe(e.score, s[0].score) then [e] + s
    else
      assert s == [s[0]] + s[1..];
      [s[0]] + Insert(e, s[1..])
  }

  /** Inserting into a sorted column keeps it sorted. */
  lemma {:induction false} InsertSorted(e: Entry, s: seq<Entry>)
    requires Sorted(s)
    ensures Sorted(Insert(e, s))
  {
    if s != [] && !ScoreLe(e.score, s[0].score) {
      InsertSorted(e, s[1..]);
      var tail := Insert(e, s[1..]);
      assert s == [s[0]] + s[1..];
      forall x | x in tail ensures ScoreLe(s[0].score, x.score) {
        assert x in multiset(tail);
      }
    }
  }

  /** Two sequences with the same multiset hold the same entries. */
  lemma SameEntries(a: seq<Entry>, b: seq<Entry>)
    requires multiset(a) == multiset(b)
    ensures forall x :: x in a <==> x in b
  {
    forall x ensures x in a <==> x in b {
      assert x in a <==> x in multiset(a);
      assert x in b <==> x in multiset(b);
    }
  }

  /** Putting a new whiskey in front keeps the ids distinct. */
  lemma ConsNoDup(x: Entry, t: seq<Entry>)
    requires NoDupIds(t) && forall y :: y in t ==> y.id != x.id
    ensures NoDupIds([x] + t)
  {
    var r := [x] + t;
    forall i, j | 0 <= i < j < |r| ensures r[i].id != r[j].id {
      assert r[j] == t[j - 1];
      if i > 0 { assert r[i] == t[i - 1]; }
    }
  }

  /** Inserting a whiskey not yet present keeps the ids distinct. */
  lemma {:induction false} InsertNoDup(e: Entry, s: seq<Entry>)
    requires NoDupIds(s) && forall x :: x in s ==> x.id != e.id
    ensures NoDupIds(Insert(e, s))
  {
    if s == [] {
    } else if ScoreLe(e.score, s[0].score) {
      ConsNoDup(e, s);
    } else {
      assert s == [s[0]] + s[1..];
      InsertNoDup(e, s[1..]);
      var tail := Insert(e, s[1..]);
      SameEntries(tail, s[1..] + [e]);
      forall y | y in tail ensures y.id != s[0].id {
        if y != e {
          assert y in s[1..];
          var i :| 0 <= i < |s[1..]| && s[1..][i] == y;
          assert s[i + 1] == y;
        }
      }
      ConsNoDup(s[0], tail);
    }
  }

  /** `sort_values()`: a permutation of the column in ascending order. */
  function SortEntries(s: seq<Entry>): (r: seq<Entry>)
    ensures |r| == |s|
    ensures multiset(r) == multiset(s)
    ensures Sorted(r)
  {
    if s == [] then []
    else
      var rest := SortEntries(s[1..]);
      assert s == [s[0]] + s[1..];
      InsertSorted(s[0], rest);
      Insert(s[0], rest)
  }

  /** Sorting keeps the ids of a column distinct. */
  lemma {:induction false} SortNoDup(s: seq<Entry>)
    requires NoDupIds(s)
    ensures NoDupIds(SortEntries(s))
  {
    if s != [] {
      var rest := SortEntries(s[1..]);
      SortNoDup(s[1..]);
      assert s == [s[0]] + s[1..];
      forall x | x in rest ensures x.id != s[0].id {
        assert x in multiset(s[1..]);
        var i :| 0 <= i < |s[1..]| && s[1..][i] == x;
        assert s[i + 1] == x;
      }
      InsertNoDup(s[0], rest);
    }
  }

  /** The ids of a run of entries, as a set. */
  function IdSet(s: seq<Entry>): set<WhiskeyId>
  {
    set i | 0 <= i < |s| :: s[i].id
  }

  /** The ids of a run grow by one entry at a time. */
  lemma IdSetSnoc(s: seq<Entry>, x: Entry)
    ensures IdSet(s + [x]) == IdSet(s) + {x.id}
  {
    var t := s + [x];
    forall id | id in IdSet(t) ensures id in IdSet(s) + {x.id} {
      var i :| 0 <= i < |t| && t[i].id == id;
      if i < |s| { assert s[i] == t[i]; }
    }
    forall id | id in IdSet(s) ensures id in IdSet(t) {
      var i :| 0 <= i < |s| && s[i].id == id;
      assert t[i] == s[i];
    }
    assert t[|s|] == x;
  }

  /** Distinct ids: the set has one element per entry. */
  lemma {:induction false} IdSetSize(s: seq<Entry>)
    requires NoDupIds(s)
    ensures |IdSet(s)| == |s|
  {
    if s != [] {
      var n := |s| - 1;
      assert s == s[..n] + [s[n]];
      IdSetSnoc(s[..n], s[n]);
      assert NoDupIds(s[..n]);
      IdSetSize(s[..n]);
      assert s[n].id !in IdSet(s[..n]);
    }
  }

  /** Python's `seq[:k]` stop position for a sequence of length `n`:
      clamped to `n`, and counted from the end when `k` is negative. */
  function SliceStop(k: int, n: nat): (stop: nat)
    ensures stop <= n
    ensures 0 <= k <= n ==> stop == k
    ensures k > n ==> stop == n
    ensures k < 0 ==> stop == (if n + k < 0 then 0 else n + k)
  {
    if k < 0 then (if n + k < 0 then 0 else n + k)
    else if k <= n then k
    else n
  }

  /** The ids `scores.index[:k]` selects from a sorted column. */
  function TopIds(sorted: seq<Entry>, k: int): set<WhiskeyId>
  {
    IdSet(sorted[..SliceStop(k, |sorted|)])
  }

  /** A column of a cohort with distinct ids: entry `c` belongs to `ids[c]`,
      and exactly the entry of `w` holds the sentinel. */
  ghost predicate ColumnOf(col: seq<Entry>, ids: seq<WhiskeyId>, w: WhiskeyId)
  {
    && |col| == |ids|
    && Distinct(ids)
    && (forall c :: 0 <= c < |ids| ==> col[c].id == ids[c])
    && (forall c :: 0 <= c < |ids| ==> (col[c].score.Excluded? <==> ids[c] == w))
  }

  lemma ColumnNoDup(col: seq<Entry>, ids: seq<WhiskeyId>, w: WhiskeyId)
    requires ColumnOf(col, ids, w)
    ensures NoDupIds(col)
  {
  }

  /** In the sorted column the sentinel entry of `w` comes last: every
      position before the last holds a distance. */
  lemma {:induction false} SentinelLast(col: seq<Entry>, ids: seq<WhiskeyId>, w: WhiskeyId, p: nat)
    requires ColumnOf(col, ids, w) && w in ids
    requires p < |col| - 1
    ensures SortEntries(col)[p].score.Dist?
  {
    var srt := SortEntries(col);
    ColumnNoDup(col, ids, w);
    SortNoDup(col);
    SameEntries(srt, col);
    var last := |srt| - 1;
    assert srt[last] in col && srt[p] in col;
    var a :| 0 <= a < |col| && col[a] == srt[p];
    var b :| 0 <= b < |col| && col[b] == srt[last];
    assert srt[p].id != srt[last].id;
    assert a != b;
    assert ScoreLe(srt[p].score, srt[last].score);
  }

  /** With `0 <= k < N` for a cohort of `N` whiskies, exactly `k` whiskies
      are selected, all of the cohort and none of them `w` itself. */
  lemma SelectionSize(col: seq<Entry>, ids: seq<WhiskeyId>, w: WhiskeyId, k: int)
    requires ColumnOf(col, ids, w) && w in ids
    requires 0 <= k < |ids|
    ensures |TopIds(SortEntries(col), k)| == k
    ensures w !in TopIds(SortEntries(col), k)
    ensures TopIds(SortEntries(col), k) <= set id | id in ids
  {
    var srt := SortEntries(col);
    ColumnNoDup(col, ids, w);
    SortNoDup(col);
    SameEntries(srt, col);
    var top := srt[..k];
    assert NoDupIds(top);
    IdSetSize(top);
    var sel := TopIds(srt, k);
    assert sel == IdSet(top);
    forall p | 0 <= p < k ensures top[p].id != w {
      SentinelLast(col, ids, w, p);
      assert srt[p] in col;
      var a :| 0 <= a < |col| && col[a] == srt[p];
    }
    forall id | id in sel ensures id in ids {
      var p :| 0 <= p < k && top[p].id == id;
      assert srt[p] in col;
      var a :| 0 <= a < |col| && col[a] == srt[p];
    }
  }

  /** A selected id stands at some position before the stop. */
  lemma SelectedAt(srt: seq<Entry>, stop: nat, id: WhiskeyId) returns (i: nat)
    requires stop <= |srt| && id in IdSet(srt[..stop])
    ensures i < stop && srt[i].id == id
  {
    var top := srt[..stop];
    i :| 0 <= i < |top| && top[i].id == id;
  }

  /** An entry whose id is not selected stands at or after the stop. */
  lemma UnselectedAt(srt: seq<Entry>, stop: nat, j: nat)
    requires stop <= |srt| && j < |srt| && srt[j].id !in IdSet(srt[..stop])
    ensures j >= stop
  {
  }

  /** In a sorted column, an entry before a distance holds a distance no
      larger. */
  lemma SortedPair(srt: seq<Entry>, i: nat, j: nat)
    requires Sorted(srt) && i < j < |srt| && srt[j].score.Dist?
    ensures srt[i].score.Dist? && srt[i].score.d <= srt[j].score.d
  {
    assert ScoreLe(srt[i].score, srt[j].score);
  }

  /** Where entry `c` of a column ends up once sorted. */
  lemma SortedPosition(col: seq<Entry>, c: nat) returns (j: nat)
    requires c < |col|
    ensures j < |col| && SortEntries(col)[j] == col[c]
  {
    var srt := SortEntries(col);
    SameEntries(srt, col);
    assert col[c] in srt;
    j :| 0 <= j < |srt| && srt[j] == col[c];
  }

  /** Where entry `i` of the sorted column came from. */
  lemma SourcePosition(col: seq<Entry>, i: nat) returns (a: nat)
    requires i < |col|
    ensures a < |col| && col[a] == SortEntries(col)[i]
  {
    var srt := SortEntries(col);
    SameEntries(srt, col);
    assert srt[i] in col;
    a :| 0 <= a < |col| && col[a] == srt[i];
  }

  /** Every selected whiskey scores no worse than every other whiskey of the
      cohort left out (the whiskey itself aside). */
  lemma SelectionOrdered(col: seq<Entry>, ids: seq<WhiskeyId>, w: WhiskeyId, k: int, s: nat, u: nat)
    requires ColumnOf(col, ids, w) && w in ids
    requires 0 <= k < |ids|
    requires s < |ids| && u < |ids|
    requires ids[s] in TopIds(SortEntries(col), k)
    requires ids[u] != w && ids[u] !in TopIds(SortEntries(col), k)
    ensures col[s].score.Dist? && col[u].score.Dist? && col[s].score.d <= col[u].score.d
  {
    var srt := SortEntries(col);
    var stop := SliceStop(k, |srt|);
    var i := SelectedAt(srt, stop, ids[s]);
    var j := SortedPosition(col, u);
    UnselectedAt(srt, stop, j);
    var a := SourcePosition(col, i);
    assert ids[a] == ids[s];
    SortedPair(srt, i, j);
  }

  /** With `k >= N` the slice runs into the sentinel entry: the whole cohort is
      selected, `w` included. */
  lemma SelectionAll(col: seq<Entry>, ids: seq<WhiskeyId>, w: WhiskeyId, k: int)
    requires ColumnOf(col, ids, w)
    requires k >= |ids|
    ensures TopIds(SortEntries(col), k) == set id | id in ids
  {
    var srt := SortEntries(col);
    ColumnNoDup(col, ids, w);
    SortNoDup(col);
    SameEntries(srt, col);
    assert srt[..SliceStop(k, |srt|)] == srt;
    forall id | id in ids ensures id in TopIds(srt, k) {
      var c :| 0 <= c < |ids| && ids[c] == id;
      assert col[c] in srt;
    }
    forall id | id in TopIds(srt, k) ensures id in ids {
      var p :| 0 <= p < |srt| && srt[p].id == id;
      assert srt[p] in col;
    }
  }
}
