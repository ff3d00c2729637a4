/** The domain records of whiskies/models.py that the similarity job and the
    small model operations touch: whiskies and tag trackers as the job reads
    them, a tag tracker's counter, a user's liked and disliked whiskies, and the
    default title of a saved tag search. */
module Models {
  import opened Common
  import Text

  /** A Whiskey row as the batch jobs read it: its key and its nullable
      review count (title, price, rating and the other columns play no part). */
  datatype Whiskey = Whiskey(id: WhiskeyId, reviewCount: Option<int>)

  /** One row of `TagTracker.objects.filter(...).values()`: a snapshot of a
      tracker's columns. */
  datatype TrackerRow = TrackerRow(whiskey: WhiskeyId, tag: TagId, count: int, normalizedCount: Option<int>)

  /** The keys of a cohort, in queryset order. */
  function IdsOf(whiskies: seq<Whiskey>): (ids: seq<WhiskeyId>)
    ensures |ids| == |whiskies|
    ensures forall i :: 0 <= i < |whiskies| ==> ids[i] == whiskies[i].id
  {
    seq(|whiskies|, i requires 0 <= i < |whiskies| => whiskies[i].id)
  }

  /** The join record between one whiskey and one tag; `count` is how many
      times the tag was applied, `normalizedCount` the same per 100 reviews
      (null until the normalisation job has run). */
  class TagTracker {
    const whiskey: WhiskeyId
    const tag: TagId
    var count: int
    var normalizedCount: Option<int>

    /** A new tracker starts at count 0 with no normalised count. */
    constructor (whiskey: WhiskeyId, tag: TagId)
      ensures this.whiskey == whiskey && this.tag == tag
      ensures count == 0 && normalizedCount == None
    {
      this.whiskey := whiskey;
      this.tag := tag;
      count := 0;
      normalizedCount := None;
    }

    /** The tracker's current columns, as `.values()` would return them. */
    function Row(): (r: TrackerRow)
      reads this
      ensures r.whiskey == whiskey && r.tag == tag
      ensures r.count == count && r.normalizedCount == normalizedCount
    {
      TrackerRow(whiskey, tag, count, normalizedCount)
    }

    /** `add_count(amount=1)`: raise the raw count by `amount`. */
    method AddCount(amount: int := 1)
      modifies this
      ensures count == old(count) + amount
      ensures normalizedCount == old(normalizedCount)
    {
      count := count + amount;
    }
  }

  /** What became of an `update_likes` request. */
  datatype Outcome =
    | Saved               // the profile was saved (possibly unchanged)
    | WhiskeyDoesNotExist // `Whiskey.objects.get` raised before anything changed

  /** A user's profile: the whiskies they like and dislike. */
  class Profile {
    var likedWhiskies: set<WhiskeyId>
    var dislikedWhiskies: set<WhiskeyId>

    /** A profile is created empty for every new user. */
    constructor ()
      ensures likedWhiskies == {} && dislikedWhiskies == {}
    {
      likedWhiskies := {};
      dislikedWhiskies := {};
    }

    /** `update_likes(whiskey_id, opinion, action)`. `catalog` is the set of
        keys present in the Whiskey table: a recognised request for a key not
        in it raises DoesNotExist and changes nothing. An unrecognised action
        or opinion changes nothing and the profile is saved. */
    method UpdateLikes(whiskeyId: WhiskeyId, opinion: string, action: string, catalog: set<WhiskeyId>)
      returns (outcome: Outcome)
      modifies this
      ensures var recognised := (action == "add" || action == "remove") && (opinion == "like" || opinion == "dislike");
        outcome == if recognised && whiskeyId !in catalog then WhiskeyDoesNotExist else Saved
      ensures outcome == Saved && action == "add" && opinion == "like" ==>
        likedWhiskies == old(likedWhiskies) + {whiskeyId}
      ensures outcome == Saved && action == "remove" && opinion == "like" ==>
        likedWhiskies == old(likedWhiskies) - {whiskeyId}
      ensures outcome == Saved && action == "add" && opinion == "dislike" ==>
        dislikedWhiskies == old(dislikedWhiskies) + {whiskeyId}
      ensures outcome == Saved && action == "remove" && opinion == "dislike" ==>
        dislikedWhiskies == old(dislikedWhiskies) - {whiskeyId}
      ensures opinion != "like" || outcome == WhiskeyDoesNotExist ==> likedWhiskies == old(likedWhiskies)
      ensures opinion != "dislike" || outcome == WhiskeyDoesNotExist ==> dislikedWhiskies == old(dislikedWhiskies)
      ensures action != "add" && action != "remove" ==>
        likedWhiskies == old(likedWhiskies) && dislikedWhiskies == old(dislikedWhiskies)
    {
      outcome := Saved;
      if action == "add" {
        if opinion == "like" {
          if whiskeyId !in catalog { return WhiskeyDoesNotExist; }
          likedWhiskies := likedWhiskies + {whiskeyId};
        } else if opinion == "dislike" {
          if whiskeyId !in catalog { return WhiskeyDoesNotExist; }
          dislikedWhiskies := dislikedWhiskies + {whiskeyId};
        }
      } else if action == "remove" {
        if opinion == "like" {
          if whiskeyId !in catalog { return WhiskeyDoesNotExist; }
          likedWhiskies := likedWhiskies - {whiskeyId};
        } else if opinion == "dislike" {
          if whiskeyId !in catalog { return WhiskeyDoesNotExist; }
          dislikedWhiskies := dislikedWhiskies - {whiskeyId};
        }
      }
    }
  }

  /** The add-then-remove round trips of the likes tests on a fresh profile:
      `counts` holds the size of the liked set after adding and after removing
      a like, then the size of the disliked set after adding and after
      removing a dislike; repeating an add or a remove changes nothing. */
  method ChangeLikesScenario(w: WhiskeyId, catalog: set<WhiskeyId>) returns (counts: seq<nat>)
    requires w in catalog
    ensures counts == [1, 0, 1, 0]
  {
    var p := new Profile();
    var o := p.UpdateLikes(w, "like", "add", catalog);
    o := p.UpdateLikes(w, "like", "add", catalog);
    var liked := |p.likedWhiskies|;
    o := p.UpdateLikes(w, "like", "remove", catalog);
    o := p.UpdateLikes(w, "like", "remove", catalog);
    var unliked := |p.likedWhiskies|;
    assert p.dislikedWhiskies == {};
    o := p.UpdateLikes(w, "dislike", "add", catalog);
    var disliked := |p.dislikedWhiskies|;
    assert p.likedWhiskies == {};
    o := p.UpdateLikes(w, "dislike", "remove", catalog);
    var undisliked := |p.dislikedWhiskies|;
    counts := [liked, unliked, disliked, undisliked];
  }

  /** The default title of a tag search: the comma-separated items of the
      search string joined by ", ", cut to three items followed by "..."
      when there are more. */
  function DefaultTitle(searchString: string): string
  {
    var items := Text.Split(searchString, ',');
    if |items| <= 3 then Text.Join(items, ", ")
    else Text.Join(items[..3], ", ") + "..."
  }

  /** The title `TagSearch.save` stores: a present, non-empty title is kept,
      a null or empty one is replaced by the default title. */
  function SavedTitle(title: Option<string>, searchString: string): (t: string)
    ensures title.Some? && title.value != "" ==> t == title.value
    ensures title == None || title == Some("") ==> t == DefaultTitle(searchString)
  {
    if title.None? || title.value == "" then DefaultTitle(searchString) else title.value
  }

  /** A search string without a comma is its own default title. */
  lemma NoCommaTitle(searchString: string)
    requires ',' !in searchString
    ensures DefaultTitle(searchString) == searchString
  {
    assert Text.Split(searchString, ',') == [searchString];
  }

  /** Up to three comma-free items: the title lists them all, separated by ", ". */
  lemma FewItemsTitle(items: seq<string>)
    requires 1 <= |items| <= 3
    requires forall i :: 0 <= i < |items| ==> ',' !in items[i]
    ensures DefaultTitle(Text.Join(items, ",")) == Text.Join(items, ", ")
  {
    Text.SplitJoin(items, ',');
  }

  /** More than three comma-free items: the title lists the first three,
      separated by ", ", followed by "...". */
  lemma ManyItemsTitle(items: seq<string>)
    requires |items| > 3
    requires forall i :: 0 <= i < |items| ==> ',' !in items[i]
    ensures DefaultTitle(Text.Join(items, ",")) == Text.Join(items[..3], ", ") + "..."
  {
    Text.SplitJoin(items, ',');
  }
}
