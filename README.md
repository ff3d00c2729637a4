# Whiskey similarity and profile model

A Dafny model of the logic of the whiskey recommendation API.

The core is the batch job that gives every whiskey its "comparables", the whiskies most similar to it. It runs in four steps:

1. It builds one feature vector per whiskey over an ordered list of tags. Each entry is the whiskey's normalised count for that tag, or 0 when no tag tracker joins the two.
2. It computes the all-pairs distance table. The diagonal is a sentinel.
3. For each whiskey, it sorts that whiskey's column ascending, clears its stored comparables and stores the ids of the first `number_comps` entries.
4. A separate pass rescales each tracker's raw `count` to a count per 100 reviews.

Three small domain operations are also modelled:
- the tracker counter;
- the liked/disliked sets of a user profile;
- the default title of a saved tag search.

Modules:
- `Common`: `Option` and id types.
- `Text`: `str.split` and `str.join`.
- `Models`: the records and classes of `models.py`.
- `Features`, `Distance`, `Ranking`, `Comparables`, `Normalize`: the job.
- `Scenario`: a worked example with three whiskies.

Modelling choices:
- **Squared distances.** Distances are squared Euclidean distances over unbounded integers. In exact arithmetic the square root is monotone, so ranking by squared distance orders the whiskies as ranking by distance does. The source's int64 squares and floating-point square root are not reproduced (see "## Left out").
- **The excluded diagonal.** The NaN on the diagonal of the table is the score `Excluded`. It sorts after every distance, as `sort_values` places NaN last.
- **The stored relation.** The relation is a `Store` object holding a map from a whiskey to the set of its comparables. `clear_saved` and the rebuild loop are methods that update that map.
- **Trackers.** For the normalisation pass, trackers are `TagTracker` objects whose `normalizedCount` field is assigned in place. The feature step reads rows, the `.values()` snapshot of the trackers (`Normalize.Snapshot`, built from `TagTracker.Row`). After the normalisation pass, that snapshot gives every tracker of a listed whiskey a normalised count, which is what the feature step requires (`Features.Counted`).
- **Queries become parameters.** The database queries become inputs:
  - the cohort of whiskies;
  - the tracker rows;
  - the tag vocabulary;
  - the set of existing whiskey keys, which `Whiskey.objects.get` checks.

Three places where the code does something a reader might not expect; the model follows the code:
- Normalisation (whiskies/command_functions.py:110-113) divides by `review_count` without a guard. One might expect whiskies with no reviews to be skipped; they are not. So a positive review count is a precondition for every whiskey that owns trackers.
- The sort (whiskies/command_functions.py:95) is pandas' default quicksort, which is not stable. One might expect ties to keep cohort order; nothing guarantees that. The model sorts by a stable insertion sort, so the exact set it stores when tied whiskies straddle the cut-off is one particular choice (see "## Left out").
- The slice (whiskies/command_functions.py:99) runs over the whole sorted column, sentinel included. One might expect a whiskey never to be its own comparable. But with `number_comps >= N` the slice reaches the sentinel, and the whiskey is stored as its own comparable. `Comparables.CompsWholeCohort` states this.

## Model

| member | source | states |
|---|---|---|
| Distance.SquaredDistance | whiskies/command_functions.py:12-14 | the (squared) distance is never negative and is zero exactly when the two vectors are equal |
| Distance.DistanceSymmetric | whiskies/command_functions.py:12-14 | the distance from v1 to v2 equals the distance from v2 to v1 |
| Features.CountDict | whiskies/command_functions.py:23 | the `{tag_id: normalized_count}` dictionary; CountDictKeys and CountDictLast state its keys and values |
| Features.TagValue | whiskies/command_functions.py:26 | `count_dict.get(tag.id, 0)`; TrackedEntry and UntrackedEntry state both cases |
| Features.CountDictKeys | whiskies/command_functions.py:21-23 | the tag:count dictionary of a whiskey has a key for a tag exactly when some tracker joins that whiskey and tag |
| Features.CountDictLast | whiskies/command_functions.py:21-23 | the value for a tag is the normalised count of the last tracker row for that whiskey and tag (a later row overwrites an earlier one) |
| Features.TrackedEntry | whiskies/command_functions.py:21-28 | entry i of the vector is the normalised count of the last tracker joining the whiskey and tag i |
| Features.UntrackedEntry | whiskies/command_functions.py:24-28 | entry i of the vector is 0 when no tracker joins the whiskey and tag i |
| Features.NoTrackersZeroVector | whiskies/command_functions.py:24-28 | a whiskey without trackers gets the all-zero vector of the vocabulary's length |
| Features.FeatureVector | whiskies/command_functions.py:24-28 | the vector has one entry per tag of the vocabulary |
| Features.GetTagCounts | whiskies/command_functions.py:17-28 | the appending loop returns exactly the feature vector of the whiskey (one entry per tag, count or 0) |
| Features.FeaturesOf | whiskies/command_functions.py:31-40 | the features dictionary has exactly the cohort's ids as keys and vectors of the vocabulary's length |
| Features.CreateFeaturesDict | whiskies/command_functions.py:31-40 | the loop builds a dictionary keyed by every whiskey of the cohort and no other key, mapping each to its feature vector |
| Distance.Cell | whiskies/command_functions.py:54-59 | one cell of the table; CellProperties states when it is the sentinel, that distances are non-negative and that the table is symmetric |
| Distance.CellProperties | whiskies/command_functions.py:53-59 | a cell is the sentinel exactly when row and column are the same whiskey; otherwise it is a non-negative distance, and the table is symmetric |
| Distance.ScoreCell | whiskies/command_functions.py:51-59 | the inner loop builds one row with a cell for exactly the cohort's ids, each the sentinel on the diagonal and the distance elsewhere |
| Distance.CreateScores | whiskies/command_functions.py:43-61 | one row per whiskey, each holding a cell for exactly the cohort's ids, with cell (c, r) the cell of whiskey c against whiskey r |
| Distance.MainScores | whiskies/command_functions.py:64-77 | the table is indexed by the cohort's ids in order, every id has a vector of the vocabulary's length, and cell (c, r) is the cell for those two whiskies' vectors |
| Ranking.Insert | whiskies/command_functions.py:95 | inserting an entry adds exactly that entry to the multiset of entries |
| Ranking.InsertSorted | whiskies/command_functions.py:95 | insertion into a sorted column keeps it sorted |
| Ranking.SortEntries | whiskies/command_functions.py:95 | the sorted column is a permutation of the column, in ascending order with the sentinel after every distance |
| Ranking.SortNoDup | whiskies/command_functions.py:95 | sorting keeps whiskey ids distinct |
| Ranking.IdSetSize | whiskies/command_functions.py:99 | the ids of entries with distinct ids number as many as the entries |
| Ranking.SliceStop | whiskies/command_functions.py:99 | Python's slice `[:k]` keeps min(k, n) items for k >= 0, and for negative k it keeps n + k items, or none when n + k < 0 |
| Ranking.TopIds | whiskies/command_functions.py:99 | the ids of `scores.index[:number_comps]`; IdSetSize, SelectionSize, SelectionOrdered and SelectionAll state what they are |
| Ranking.SentinelLast | whiskies/command_functions.py:95 | in a sorted column of the cohort, every position before the last holds a real distance |
| Ranking.SelectionSize | whiskies/command_functions.py:99-100 | for 0 <= k < N, the first k ids are exactly k whiskies of the cohort and never the whiskey itself |
| Ranking.SelectionOrdered | whiskies/command_functions.py:95-100 | a selected entry's distance is at most that of every unselected entry other than the whiskey itself |
| Ranking.SelectionAll | whiskies/command_functions.py:99 | for k >= N the slice takes the whole cohort |
| Comparables.ColumnEntries | whiskies/command_functions.py:94 | the column of w as entries, one per whiskey of the cohort; ColumnShape and ColumnFromTable state its contents |
| Comparables.CompsFor | whiskies/command_functions.py:94-99 | the ids the job selects for w: sort the column and take the first number_comps; CompsCount, CompsNearest and CompsWholeCohort state what they are, for any order among ties |
| Comparables.CompsCount | whiskies/command_functions.py:94-100 | when 0 <= number_comps < N, each whiskey is assigned exactly number_comps comparables from the cohort and never itself |
| Comparables.CompsNearest | whiskies/command_functions.py:94-100 | every selected whiskey is at most as far from w as every unselected whiskey other than w |
| Comparables.CompsWholeCohort | whiskies/command_functions.py:94-100 | when number_comps >= N, the whole cohort is assigned, w included |
| Comparables.TableColumn | whiskies/command_functions.py:94 | `score_df[w]`, read from the table row by row; ColumnFromTable states that it is the column of w |
| Comparables.ColumnFromTable | whiskies/command_functions.py:73-75 | the column `score_df[w]` of the table holds, row by row, the cell of each whiskey against w |
| Comparables.Store.Comparables | whiskies/command_functions.py:82 | `whiskey.comparables.all()`: none for a whiskey without an entry; the Store methods' contracts state how each one changes it |
| Comparables.Store.ClearSaved | whiskies/command_functions.py:80-83 | removing the comparables one by one leaves w with none and every other entry of the relation as it was |
| Comparables.Store.ReplaceComparables | whiskies/command_functions.py:97-100 | after clearing and adding, w's comparables are exactly the ids of the first number_comps sorted entries; nothing of the old set survives unless reselected, and other whiskies keep theirs |
| Comparables.Store.UpdateOne | whiskies/command_functions.py:94-100 | one pass of the loop gives the whiskey exactly the selection of its ranked column and leaves every other whiskey's entry unchanged |
| Comparables.Store.UpdateAll | whiskies/command_functions.py:93-100 | after the loop every whiskey of the cohort holds its own selection and whiskies outside it keep theirs |
| Comparables.Store.UpdateWhiskeyComps | whiskies/command_functions.py:86-100 | after the job, every whiskey of the cohort has exactly the comparables its ranked column selects (CompsFor, with ties in the model's stable order), whatever it had before, and whiskies outside the cohort are untouched |
| Comparables.IndependentOfPrior | whiskies/command_functions.py:93-100 | two stores with different prior relations agree on the cohort after one run each |
| Comparables.RunTwice | whiskies/command_functions.py:93-100 | a second run on unchanged data reproduces the first run's assignment |
| Normalize.TruncDiv | whiskies/command_functions.py:112-113 | `int(a / b)` for b > 0 truncates toward zero: the quotient brackets a between consecutive multiples of b from the side of zero |
| Normalize.NormalizedCount | whiskies/command_functions.py:112-113 | the normalised count n satisfies n * review_count <= 100 * count < (n + 1) * review_count for non-negative counts |
| Normalize.NormalizationExamples | whiskies/command_functions.py:112-113 | 5 applications in 20 reviews give 25; 7 in 3 reviews give 233 |
| Normalize.After | whiskies/command_functions.py:110-113 | the normalised count a tracker holds after the pass; AfterListed and UpdateNormalizedCounts state its meaning |
| Normalize.AfterListed | whiskies/command_functions.py:110-113 | a tracker of a listed whiskey always ends up with a count, the one computed from its own count and that whiskey's review count |
| Normalize.UpdateNormalizedCounts | whiskies/command_functions.py:108-114 | every tracker of a listed whiskey gets its count per 100 reviews, truncated; other trackers keep their normalised count and no raw count changes; afterwards the trackers' `.values()` snapshot has a normalised count for every tracker of a listed whiskey, as the feature step needs |
| Models.TagTracker.AddCount | whiskies/models.py:176-178 | the count grows by amount (default 1) and nothing else changes |
| Models.Profile.UpdateLikes | whiskies/models.py:67-85 | add/remove of like/dislike inserts into or deletes from the matching set only, with set semantics; an unknown action or opinion changes nothing; a missing whiskey raises and changes nothing |
| Models.ChangeLikesScenario | whiskies/tests.py:104-152 | adding then removing a like (dislike) on a fresh profile gives counts 1 then 0, with repeats being no-ops |
| Models.DefaultTitle | whiskies/models.py:142-146 | the title made from the search string; NoCommaTitle, FewItemsTitle and ManyItemsTitle state its three cases |
| Models.SavedTitle | whiskies/models.py:141 | a present non-empty title is kept; a missing or empty one becomes the default title |
| Models.NoCommaTitle | whiskies/models.py:142-144 | a search string without a comma is its own title |
| Models.FewItemsTitle | whiskies/models.py:142-144 | up to three comma-separated items give those items joined with ", " |
| Models.ManyItemsTitle | whiskies/models.py:145-146 | more than three items give the first three joined with ", " followed by "..." |
| Text.Join | whiskies/models.py:144 | `", ".join(items)`; Split and SplitJoin state that it undoes and is undone by split |
| Text.FirstIndex | whiskies/models.py:142 | the position of the first occurrence of the separator |
| Text.Split | whiskies/models.py:142 | `split(',')` returns at least one piece, no piece holds the separator, and joining the pieces with it gives back the string |
| Text.SplitJoin | whiskies/models.py:142-146 | splitting a join of separator-free items gives back the items |
| Scenario.ExampleFeatures | whiskies/command_functions.py:31-40 | the worked example's vectors are [2, 3], [2, 0] and [3, 0] |
| Scenario.SingleComparable | whiskies/command_functions.py:94-100 | in a cohort of three with number_comps = 1, the nearer of the two others is the only comparable |
| Scenario.ExampleComparables | whiskies/command_functions.py:94-100 | in the worked example, 1 gets {2}, 2 gets {3} and 3 gets {2} |
| Scenario.ExampleRun | whiskies/command_functions.py:86-100 | the whole job on the worked example replaces stale comparables with exactly {2}, {3} and {2} |

## Left out

- Elasticsearch search, Cloudinary upload and the CSV helpers (whiskies/command_functions.py:123-197) are network and file I/O.
- The ORM and web glue are not modelled:
  - `save()` calls;
  - DRF views and serializers;
  - URL configuration and settings;
  - the admin;
  - the token signal;
  - the management commands, which only fetch all rows and call the job.
- Floating point and the square root: distances are squared integers. The source squares the differences in numpy's int64, which wraps around for differences beyond about 3·10^9. It then takes a floating-point square root, which can map two different sums to the same float and so create ties that exact arithmetic does not have.
- Normalize.NormalizedCount: float rounding is not reproduced. The source computes `int((count / review_count) * 100)` in floating point, which can differ from the exact truncated quotient (29 / 100 * 100 gives 28.999…, hence 28). The model states the exact quotient.
- Ranking.SortEntries: pandas' quicksort order among equal distances is not modelled. The model's insertion sort is stable, so it keeps tied entries in cohort order.
- Comparables.Store.UpdateWhiskeyComps: the stored set is stated as `CompsFor`, which takes the stable order's choice among ties at the cut-off. So do Comparables.Store.UpdateOne and Comparables.Store.UpdateAll. The source's quicksort may choose another tied whiskey. For example, with vectors 1:[0], 2:[1], 3:[-1], ids [1, 2, 3] and number_comps = 1, the model stores {2} for whiskey 1; the source may store {3}. Of the properties of the selection, only Comparables.CompsCount, Comparables.CompsNearest and Comparables.CompsWholeCohort hold for any order among ties. Comparables.IndependentOfPrior and Comparables.RunTwice hold for any sort that is deterministic on its input. The worked example in `Scenario` has no ties.
- Normalize.UpdateNormalizedCounts: a listed whiskey that owns trackers must have a present, positive `review_count`. The source raises on None or 0.
- Features.GetTagCounts: every tracker of a whiskey in the cohort must carry a present `normalized_count`. The source would put None into the numpy vector, because the `.get` default applies only to absent keys.
- Comparables.Store.UpdateWhiskeyComps: the cohort's ids must be distinct, as primary keys are. `Whiskey.objects.get` in the comparables loop is assumed to succeed, since every id comes from the cohort.
- Normalize.UpdateNormalizedCounts: the tracker objects must be distinct, one per row of the tracker table.
- The reverse-accessor quirk is not modelled. `comparables` is the reverse accessor of the `comparable` many-to-many field (whiskies/models.py:33-34), so rows land on the other side of the relation. The model keeps a single directed map whose entry for `w` is what `w.comparables.all()` returns.
- Models.Profile.UpdateLikes: `self.save()` persistence and the user/profile link are not modelled.
- A negative `number_comps` is not rejected. It follows Python slicing (`Ranking.SliceStop`); the counting lemmas assume 0 <= number_comps.
