/** `update_tagtracker_normalized_counts` of whiskies/command_functions.py:
    for every whiskey and every tracker of it, store the raw count per 100
    reviews, truncated to an integer, in the tracker. */
module Normalize {
  import opened Common
  import opened Models
  import Features

  /** Python's `int(a / b)` for `b > 0`: the quotient truncated toward zero
      (Dafny's `/` rounds toward minus infinity for negative `a`). */
  function TruncDiv(a: int, b: int): (q: int)
    requires b > 0
    ensures a >= 0 ==> q >= 0 && q * b <= a < (q + 1) * b
    ensures a < 0 ==> q <= 0 && (-q) * b <= -a < (-q + 1) * b
  {
    if a >= 0 then DivBounds(a, b); a / b
    else DivBounds(-a, b); -((-a) / b)
  }

  /** Floor division of a non-negative number brackets it between two
      consecutive multiples of the divisor. */
  lemma DivBounds(a: int, b: int)
    requires a >= 0 && b > 0
    ensures a / b >= 0 && (a / b) * b <= a < (a / b + 1) * b
  {
    var q, r := a / b, a % b;
    assert a == q * b + r && 0 <= r < b;
    assert (q + 1) * b == q * b + b;
  }

  /** The normalised count of a tracker: its count per 100 reviews. */
  function NormalizedCount(count: int, reviewCount: int): (n: int)
    requires reviewCount > 0
    ensures count >= 0 ==> n >= 0 && n * reviewCount <= 100 * count < (n + 1) * reviewCount
    ensures count < 0 ==> n <= 0 && (-n) * reviewCount <= -100 * count < (-n + 1) * reviewCount
  {
    TruncDiv(100 * count, reviewCount)
  }

  /** The two worked cases: 5 applications in 20 reviews give 25, and 7
      applications in 3 reviews (a review can carry several tags) give 233. */
  lemma NormalizationExamples()
    ensures NormalizedCount(5, 20) == 25
    ensures NormalizedCount(7, 3) == 233
  {
  }

  /** The review count of a whiskey that has trackers must be present and
      positive: the job divides by it unguarded. */
  predicate Positive(reviewCount: Option<int>)
  {
    reviewCount.Some? && reviewCount.value > 0
  }

  /** Position of `id` in `ids`, or `|ids|` when absent. */
  function IndexOfId(ids: seq<WhiskeyId>, id: WhiskeyId): (p: nat)
    ensures p <= |ids|
    ensures p < |ids| ==> ids[p] == id
    ensures forall j :: 0 <= j < p ==> ids[j] != id
  {
    if ids == [] then 0
    else if ids[0] == id then 0
    else 1 + IndexOfId(ids[1..], id)
  }

  /** The normalised count tracker `t` holds after the job: recomputed when
      its whiskey is in `whiskies`, as before otherwise. */
  function After(whiskies: seq<Whiskey>, whiskey: WhiskeyId, count: int, before: Option<int>): Option<int>
    requires forall p :: 0 <= p < |whiskies| && whiskies[p].id == whiskey ==> Positive(whiskies[p].reviewCount)
  {
    var ids := IdsOf(whiskies);
    var p := IndexOfId(ids, whiskey);
    if p < |whiskies| then
      assert ids[p] == whiskies[p].id == whiskey;
      assert Positive(whiskies[p].reviewCount);
      Some(NormalizedCount(count, whiskies[p].reviewCount.value)) else before
  }

  /** A listed whiskey's trackers all end up with a normalised count: the
      one computed from their own count and the whiskey's review count. */
  lemma AfterListed(whiskies: seq<Whiskey>, p: nat, count: int, before: Option<int>)
    requires Distinct(IdsOf(whiskies))
    requires p < |whiskies| && Positive(whiskies[p].reviewCount)
    ensures forall q :: 0 <= q < |whiskies| && whiskies[q].id == whiskies[p].id ==> Positive(whiskies[q].reviewCount)
    ensures After(whiskies, whiskies[p].id, count, before) == Some(NormalizedCount(count, whiskies[p].reviewCount.value))
  {
    var ids := IdsOf(whiskies);
    forall q | 0 <= q < |whiskies| && whiskies[q].id == whiskies[p].id
      ensures q == p
    {
      assert ids[q] == ids[p];
    }
    var r := IndexOfId(ids, whiskies[p].id);
    assert ids[p] == whiskies[p].id;
    assert r <= p;
    assert ids[r] == whiskies[p].id;
    assert r == p;
  }

  /** The rows `TagTracker.objects.filter(...).values()` returns once the job
      has run: a snapshot of every tracker's current columns. */
  function Snapshot(trackers: seq<TagTracker>): seq<TrackerRow>
    reads set j | 0 <= j < |trackers| :: trackers[j]
  {
    seq(|trackers|, j requires 0 <= j < |trackers| reads set k | 0 <= k < |trackers| :: trackers[k] => trackers[j].Row())
  }

  /** The job over the whiskies and all tracker objects: every tracker of a
      listed whiskey gets `count * 100 / review_count`, truncated; no count and
      no tracker of another whiskey changes. */
  method UpdateNormalizedCounts(whiskies: seq<Whiskey>, trackers: seq<TagTracker>)
    requires Distinct(IdsOf(whiskies))
    requires forall j, k :: 0 <= j < k < |trackers| ==> trackers[j] != trackers[k]
    requires forall p, j :: 0 <= p < |whiskies| && 0 <= j < |trackers| && trackers[j].whiskey == whiskies[p].id ==>
      Positive(whiskies[p].reviewCount)
    modifies set j | 0 <= j < |trackers| :: trackers[j]
    ensures forall j :: 0 <= j < |trackers| ==> trackers[j].count == old(trackers[j].count)
    ensures forall j :: 0 <= j < |trackers| ==>
      trackers[j].normalizedCount == After(whiskies, trackers[j].whiskey, trackers[j].count, old(trackers[j].normalizedCount))
    ensures forall p :: 0 <= p < |whiskies| ==> Features.Counted(Snapshot(trackers), whiskies[p].id)
  {
    ghost var ids := IdsOf(whiskies);
    for i := 0 to |whiskies|
      invariant forall j :: 0 <= j < |trackers| ==> trackers[j].count == old(trackers[j].count)
      invariant forall j :: 0 <= j < |trackers| ==>
        trackers[j].normalizedCount ==
          if IndexOfId(ids, trackers[j].whiskey) < i
          then After(whiskies, trackers[j].whiskey, trackers[j].count, None)
          else old(trackers[j].normalizedCount)
    {
      var whiskey := whiskies[i];
      for j := 0 to |trackers|
        invariant forall k :: 0 <= k < |trackers| ==> trackers[k].count == old(trackers[k].count)
        invariant forall k :: 0 <= k < |trackers| ==>
          trackers[k].normalizedCount ==
            if IndexOfId(ids, trackers[k].whiskey) < i || (trackers[k].whiskey == whiskey.id && k < j)
            then After(whiskies, trackers[k].whiskey, trackers[k].count, None)
            else old(trackers[k].normalizedCount)
      {
        var tracker := trackers[j];
        if tracker.whiskey == whiskey.id {
          assert IndexOfId(ids, tracker.whiskey) == i;
          var adjustedCount := NormalizedCount(tracker.count, whiskey.reviewCount.value);
          tracker.normalizedCount := Some(adjustedCount);
        }
      }
    }
    forall p | 0 <= p < |whiskies|
      ensures Features.Counted(Snapshot(trackers), whiskies[p].id)
    {
      var rows := Snapshot(trackers);
      forall j | 0 <= j < |rows| && rows[j].whiskey == whiskies[p].id
        ensures rows[j].normalizedCount.Some?
      {
        AfterListed(whiskies, p, trackers[j].count, old(trackers[j].normalizedCount));
      }
    }
  }
}
