/**
 * Saved-recipe bookkeeping (src/services/recipeService.js) over an abstract
 * document store: a collection of recipe documents keyed by id, listed in
 * the store's own order, and a collection of user profiles holding the
 * `recipesSaved` and `recipesGenerated` counters.
 *
 * The store's behaviour that the service relies on is modelled after the
 * document database it uses: adding a document always succeeds under a new
 * id, deleting a missing document is not an error, and updating a missing
 * document is. A store that cannot be reached fails every call with its
 * own error message (`fault`).
 */
module RecipeService {
  import opened Wrappers
  import opened Values
  import opened Lists

  const SaveFailedMessage := "Failed to save recipe. Please try again."
  const FetchFailedPrefix := "Failed to fetch saved recipes: "
  const DeleteFailedMessage := "Failed to delete recipe."
  const RatingFailedMessage := "Failed to update rating."
  const ReviewFailedMessage := "Failed to add review."

  // ---------------------------------------------------------------------
  // Records

  /** The document `saveRecipe` stores: the recipe's fields, then `userId`,
      `savedAt`, `rating: 0` and `reviews: []`, which win over any recipe
      field of the same name. */
  function SavedRecord(recipe: Record, userId: string, savedAt: int): (r: Record)
    ensures r.Keys == recipe.Keys + {"userId", "savedAt", "rating", "reviews"}
    ensures r["userId"] == Str(userId) && r["savedAt"] == Stamp(savedAt)
    ensures r["rating"] == Num(0) && r["reviews"] == Arr([])
    ensures forall k :: k in recipe && k !in {"userId", "savedAt", "rating", "reviews"} ==> r[k] == recipe[k]
  {
    recipe + map["userId" := Str(userId), "savedAt" := Stamp(savedAt), "rating" := Num(0), "reviews" := Arr([])]
  }

  /** `{ id, ...data }`: the id comes first, so a field `id` of the data wins. */
  function Tagged(id: string, data: Record): (r: Record)
    ensures r.Keys == data.Keys + {"id"}
    ensures forall k :: k in data ==> r[k] == data[k]
    ensures "id" !in data ==> r["id"] == Str(id)
  {
    map["id" := Str(id)] + data
  }

  /** Firestore's `increment(delta)`: a numeric field grows by `delta`; a missing
      or non-numeric field is set to `delta`. */
  function Incremented(profile: Record, key: string, delta: int): (r: Record)
    ensures r.Keys == profile.Keys + {key}
    ensures forall k :: k in profile && k != key ==> r[k] == profile[k]
    ensures key in profile && profile[key].Num? ==> r[key] == Num(profile[key].n + delta)
    ensures !(key in profile && profile[key].Num?) ==> r[key] == Num(delta)
  {
    profile[key := if key in profile && profile[key].Num? then Num(profile[key].n + delta) else Num(delta)]
  }

  /** The counter `key` of a profile, as a number (a missing field reads as 0). */
  function Counter(profile: Record, key: string): int {
    if key in profile && profile[key].Num? then profile[key].n else 0
  }

  /** Incrementing moves the counter by exactly `delta` and touches no other counter. */
  lemma IncrementedCounter(profile: Record, key: string, other: string, delta: int)
    requires other != key
    ensures Counter(Incremented(profile, key, delta), key) == Counter(profile, key) + delta
    ensures Counter(Incremented(profile, key, delta), other) == Counter(profile, other)
  {
  }

  /** The fields `addRecipeReview` writes before the timestamp: the reviews
      the argument itself carries (`review.reviews || []`, spread into a new
      array) followed by the argument stamped with `createdAt`. Spreading a
      truthy value that is neither an array nor a text raises a TypeError. */
  function ReviewsAfter(review: Record, createdAt: string): (r: Result<seq<Value>, string>)
    ensures r.Success? ==> |r.value| >= 1 && r.value[|r.value| - 1] == Obj(review["createdAt" := Str(createdAt)])
    ensures !HasTruthy(review, "reviews") ==> r == Success([Obj(review["createdAt" := Str(createdAt)])])
    ensures HasTruthy(review, "reviews") && review["reviews"].Arr? ==>
      r == Success(review["reviews"].items + [Obj(review["createdAt" := Str(createdAt)])])
    ensures r.Failure? <==> HasTruthy(review, "reviews") && !review["reviews"].Arr? && !review["reviews"].Str?
  {
    var stamped := Obj(review["createdAt" := Str(createdAt)]);
    if !HasTruthy(review, "reviews") then Success([stamped])
    else match review["reviews"]
      case Arr(items) => Success(items + [stamped])
      case Str(s) => Success(Characters(s) + [stamped])
      case _ => Failure(ReviewFailedMessage)
  }

  /** `[...s]` for a text: its characters as one-character texts. */
  function Characters(s: string): (r: seq<Value>)
    ensures |r| == |s|
    ensures forall i :: 0 <= i < |s| ==> r[i] == Str([s[i]])
  {
    if s == [] then [] else [Str([s[0]])] + Characters(s[1..])
  }

  // ---------------------------------------------------------------------
  // Listing: the user filter and the sort by recency

  /** The document belongs to `userId` (`where('userId', '==', userId)`). */
  predicate Owned(rec: Record, userId: string) {
    "userId" in rec && rec["userId"] == Str(userId)
  }

  /** The ids, in listing order, of the documents that belong to `userId`. */
  function OwnedIds(ids: seq<string>, docs: map<string, Record>, userId: string): (r: seq<string>)
    requires forall i :: 0 <= i < |ids| ==> ids[i] in docs
    ensures |r| <= |ids|
    ensures forall i :: 0 <= i < |r| ==> r[i] in docs
    ensures forall x :: x in r <==> x in ids && Owned(docs[x], userId)
  {
    if ids == [] then []
    else
      var last := ids[|ids| - 1];
      OwnedIds(ids[..|ids| - 1], docs, userId) + (if Owned(docs[last], userId) then [last] else [])
  }

  /** Keeping only some ids preserves their distinctness. */
  lemma {:induction false} OwnedIdsDistinct(ids: seq<string>, docs: map<string, Record>, userId: string)
    requires forall i :: 0 <= i < |ids| ==> ids[i] in docs
    requires Distinct(ids)
    ensures Distinct(OwnedIds(ids, docs, userId))
  {
    if ids != [] {
      var init := ids[..|ids| - 1];
      OwnedIdsDistinct(init, docs, userId);
      var last := ids[|ids| - 1];
      assert last !in init;
      assert last !in OwnedIds(init, docs, userId);
    }
  }

  /** The documents with those ids, each tagged with its id. */
  function Listed(ids: seq<string>, docs: map<string, Record>): (r: seq<Record>)
    requires forall i :: 0 <= i < |ids| ==> ids[i] in docs
    ensures |r| == |ids|
    ensures forall i :: 0 <= i < |ids| ==> r[i] == Tagged(ids[i], docs[ids[i]])
  {
    seq(|ids|, i requires 0 <= i < |ids| => Tagged(ids[i], docs[ids[i]]))
  }

  /** The time a fetched recipe sorts by: `savedAt` when it is a stored
      timestamp, otherwise `new Date(createdAt || 0)`, where `dateOf` stands
      for the conversion of a value to a time. */
  function Recency(rec: Record, dateOf: Value -> int): int {
    if "savedAt" in rec && rec["savedAt"].Stamp? then rec["savedAt"].millis
    else if HasTruthy(rec, "createdAt") then dateOf(rec["createdAt"])
    else 0
  }

  /** Most recent first. */
  predicate RecentFirst(xs: seq<Record>, dateOf: Value -> int) {
    forall i, j :: 0 <= i < j < |xs| ==> Recency(xs[i], dateOf) >= Recency(xs[j], dateOf)
  }

  /** Inserts `x` after every element at least as recent, which keeps the
      sort stable. */
  function InsertByRecency(xs: seq<Record>, x: Record, dateOf: Value -> int): (r: seq<Record>)
    ensures |r| == |xs| + 1
  {
    if xs == [] then [x]
    else if Recency(xs[0], dateOf) >= Recency(x, dateOf) then [xs[0]] + InsertByRecency(xs[1..], x, dateOf)
    else [x] + xs
  }

  /** Insertion adds exactly the one element. */
  lemma {:induction false} InsertByRecencyPermutes(xs: seq<Record>, x: Record, dateOf: Value -> int)
    ensures multiset(InsertByRecency(xs, x, dateOf)) == multiset(xs) + multiset{x}
  {
    if xs != [] && Recency(xs[0], dateOf) >= Recency(x, dateOf) {
      InsertByRecencyPermutes(xs[1..], x, dateOf);
      assert xs == [xs[0]] + xs[1..];
    }
  }

  /** A record at least as recent as every element of a sorted list may go
      in front of it. */
  lemma ConsRecentFirst(y: Record, t: seq<Record>, dateOf: Value -> int)
    requires RecentFirst(t, dateOf)
    requires forall k :: 0 <= k < |t| ==> Recency(t[k], dateOf) <= Recency(y, dateOf)
    ensures RecentFirst([y] + t, dateOf)
  {
    var r := [y] + t;
    forall i, j | 0 <= i < j < |r|
      ensures Recency(r[i], dateOf) >= Recency(r[j], dateOf)
    {
      assert r[j] == t[j - 1];
      if i > 0 {
        assert r[i] == t[i - 1];
      }
    }
  }

  /** Insertion keeps the order. */
  lemma {:induction false} InsertByRecencyOrdered(xs: seq<Record>, x: Record, dateOf: Value -> int)
    requires RecentFirst(xs, dateOf)
    ensures RecentFirst(InsertByRecency(xs, x, dateOf), dateOf)
  {
    if xs != [] {
      var head := Recency(xs[0], dateOf);
      var tail := xs[1..];
      assert forall m :: 0 <= m < |xs| ==> Recency(xs[m], dateOf) <= head;
      assert RecentFirst(tail, dateOf) && forall m :: 0 <= m < |tail| ==> Recency(tail[m], dateOf) <= head by {
        forall m | 0 <= m < |tail|
          ensures tail[m] == xs[m + 1]
        {
        }
      }
      if head >= Recency(x, dateOf) {
        var t := InsertByRecency(tail, x, dateOf);
        assert RecentFirst(t, dateOf) by {
          InsertByRecencyOrdered(tail, x, dateOf);
        }
        assert forall k :: 0 <= k < |t| ==> Recency(t[k], dateOf) <= head by {
          InsertByRecencyPermutes(tail, x, dateOf);
          forall k | 0 <= k < |t|
            ensures Recency(t[k], dateOf) <= head
          {
            assert t[k] in multiset(t);
            if t[k] != x {
              assert t[k] in multiset(tail);
            }
          }
        }
        ConsRecentFirst(xs[0], t, dateOf);
      } else {
        ConsRecentFirst(x, xs, dateOf);
      }
    }
  }

  /** `recipes.sort((a, b) => dateB - dateA)`: a stable sort, most recent first. */
  function ByRecency(xs: seq<Record>, dateOf: Value -> int): (r: seq<Record>)
    ensures |r| == |xs|
  {
    if xs == [] then []
    else InsertByRecency(ByRecency(xs[..|xs| - 1], dateOf), xs[|xs| - 1], dateOf)
  }

  /** The sort orders by recency and neither loses nor invents a recipe. */
  lemma {:induction false} ByRecencyCorrect(xs: seq<Record>, dateOf: Value -> int)
    ensures RecentFirst(ByRecency(xs, dateOf), dateOf)
    ensures multiset(ByRecency(xs, dateOf)) == multiset(xs)
  {
    if xs != [] {
      var init := xs[..|xs| - 1];
      ByRecencyCorrect(init, dateOf);
      InsertByRecencyOrdered(ByRecency(init, dateOf), xs[|xs| - 1], dateOf);
      InsertByRecencyPermutes(ByRecency(init, dateOf), xs[|xs| - 1], dateOf);
      assert xs == init + [xs[|xs| - 1]];
    }
  }

  /** `[x]` when `x` has recency `t`, otherwise nothing. */
  function AtRecencyOne(x: Record, t: int, dateOf: Value -> int): seq<Record> {
    if Recency(x, dateOf) == t then [x] else []
  }

  /** The records of `xs` whose recency is `t`, in their order in `xs`. */
  function AtRecency(xs: seq<Record>, t: int, dateOf: Value -> int): seq<Record> {
    if xs == [] then [] else AtRecencyOne(xs[0], t, dateOf) + AtRecency(xs[1..], t, dateOf)
  }

  /** Selecting at one recency in front of a list. */
  lemma AtRecencyCons(x: Record, xs: seq<Record>, t: int, dateOf: Value -> int)
    ensures AtRecency([x] + xs, t, dateOf) == AtRecencyOne(x, t, dateOf) + AtRecency(xs, t, dateOf)
  {
    assert ([x] + xs)[0] == x && ([x] + xs)[1..] == xs;
  }

  /** Selecting the records at one recency distributes over concatenation. */
  lemma {:induction false} AtRecencyAppend(xs: seq<Record>, ys: seq<Record>, t: int, dateOf: Value -> int)
    ensures AtRecency(xs + ys, t, dateOf) == AtRecency(xs, t, dateOf) + AtRecency(ys, t, dateOf)
  {
    if xs != [] {
      var one := AtRecencyOne(xs[0], t, dateOf);
      assert xs + ys == [xs[0]] + (xs[1..] + ys);
      AtRecencyCons(xs[0], xs[1..] + ys, t, dateOf);
      AtRecencyAppend(xs[1..], ys, t, dateOf);
      assert one + (AtRecency(xs[1..], t, dateOf) + AtRecency(ys, t, dateOf)) ==
        (one + AtRecency(xs[1..], t, dateOf)) + AtRecency(ys, t, dateOf);
    } else {
      assert xs + ys == ys;
    }
  }

  /** A list with no record at recency `t` has nothing to select there. */
  lemma {:induction false} AtRecencyAbsent(xs: seq<Record>, t: int, dateOf: Value -> int)
    requires forall k :: 0 <= k < |xs| ==> Recency(xs[k], dateOf) != t
    ensures AtRecency(xs, t, dateOf) == []
  {
    if xs != [] {
      AtRecencyAbsent(xs[1..], t, dateOf);
    }
  }

  /** The tail of a sorted list is sorted, and its head is the most recent. */
  lemma RecentFirstTail(xs: seq<Record>, dateOf: Value -> int)
    requires xs != [] && RecentFirst(xs, dateOf)
    ensures RecentFirst(xs[1..], dateOf)
    ensures forall k :: 0 <= k < |xs| ==> Recency(xs[k], dateOf) <= Recency(xs[0], dateOf)
  {
    var tail := xs[1..];
    forall i, j | 0 <= i < j < |tail|
      ensures Recency(tail[i], dateOf) >= Recency(tail[j], dateOf)
    {
      assert tail[i] == xs[i + 1] && tail[j] == xs[j + 1];
    }
  }

  /** Insertion passes over a head at least as recent as the new record. */
  lemma InsertByRecencyAtRecencyPast(xs: seq<Record>, x: Record, t: int, dateOf: Value -> int)
    requires xs != [] && Recency(xs[0], dateOf) >= Recency(x, dateOf)
    ensures AtRecency(InsertByRecency(xs, x, dateOf), t, dateOf) ==
      AtRecencyOne(xs[0], t, dateOf) + AtRecency(InsertByRecency(xs[1..], x, dateOf), t, dateOf)
  {
    AtRecencyCons(xs[0], InsertByRecency(xs[1..], x, dateOf), t, dateOf);
  }

  /** A record more recent than every element of a list goes in front of
      it, where no record shares its recency. */
  lemma InsertByRecencyAtRecencyFront(xs: seq<Record>, x: Record, t: int, dateOf: Value -> int)
    requires xs != [] && Recency(xs[0], dateOf) < Recency(x, dateOf)
    requires forall k :: 0 <= k < |xs| ==> Recency(xs[k], dateOf) <= Recency(xs[0], dateOf)
    ensures AtRecency(InsertByRecency(xs, x, dateOf), t, dateOf) ==
      AtRecency(xs, t, dateOf) + AtRecencyOne(x, t, dateOf)
  {
    AtRecencyCons(x, xs, t, dateOf);
    if Recency(x, dateOf) == t {
      AtRecencyAbsent(xs, t, dateOf);
    }
  }

  /** Inserting into a sorted list puts the new record after every record
      of the same recency: the records at each recency keep their order and
      the new one comes last among them. */
  lemma {:induction false} InsertByRecencyAtRecency(xs: seq<Record>, x: Record, t: int, dateOf: Value -> int)
    requires RecentFirst(xs, dateOf)
    ensures AtRecency(InsertByRecency(xs, x, dateOf), t, dateOf) ==
      AtRecency(xs, t, dateOf) + AtRecencyOne(x, t, dateOf)
  {
    if xs == [] {
      AtRecencyCons(x, [], t, dateOf);
    } else if Recency(xs[0], dateOf) >= Recency(x, dateOf) {
      var tail := xs[1..];
      var one := AtRecencyOne(xs[0], t, dateOf);
      assert RecentFirst(tail, dateOf) by {
        RecentFirstTail(xs, dateOf);
      }
      InsertByRecencyAtRecency(tail, x, t, dateOf);
      InsertByRecencyAtRecencyPast(xs, x, t, dateOf);
      assert one + (AtRecency(tail, t, dateOf) + AtRecencyOne(x, t, dateOf)) ==
        (one + AtRecency(tail, t, dateOf)) + AtRecencyOne(x, t, dateOf);
    } else {
      RecentFirstTail(xs, dateOf);
      InsertByRecencyAtRecencyFront(xs, x, t, dateOf);
    }
  }

  /** The sort is stable: the records sharing a recency come out in the
      order they went in. */
  lemma {:induction false} ByRecencyStable(xs: seq<Record>, t: int, dateOf: Value -> int)
    ensures AtRecency(ByRecency(xs, dateOf), t, dateOf) == AtRecency(xs, t, dateOf)
  {
    if xs != [] {
      var init, last := xs[..|xs| - 1], xs[|xs| - 1];
      assert ByRecency(xs, dateOf) == InsertByRecency(ByRecency(init, dateOf), last, dateOf);
      ByRecencyCorrect(init, dateOf);
      InsertByRecencyAtRecency(ByRecency(init, dateOf), last, t, dateOf);
      ByRecencyStable(init, t, dateOf);
      assert xs == init + [last];
      AtRecencyAppend(init, [last], t, dateOf);
      AtRecencyCons(last, [], t, dateOf);
      assert AtRecency([last], t, dateOf) == AtRecencyOne(last, t, dateOf);
    }
  }

  /** What `getSavedRecipes` answers when the store is reachable: exactly the
      user's documents, tagged with their ids, most recent first. */
  function SavedRecipesOf(order: seq<string>, docs: map<string, Record>, userId: string, dateOf: Value -> int): seq<Record>
    requires forall i :: 0 <= i < |order| ==> order[i] in docs
  {
    ByRecency(Listed(OwnedIds(order, docs, userId), docs), dateOf)
  }

  /** The fetched list is sorted, and a record is in it exactly when it is a
      document of the user tagged with its id. */
  lemma SavedRecipesOfExactly(order: seq<string>, docs: map<string, Record>, userId: string, dateOf: Value -> int)
    requires forall i :: 0 <= i < |order| ==> order[i] in docs
    ensures RecentFirst(SavedRecipesOf(order, docs, userId, dateOf), dateOf)
    ensures forall id :: id in order && Owned(docs[id], userId) ==>
      Tagged(id, docs[id]) in SavedRecipesOf(order, docs, userId, dateOf)
    ensures forall rec :: rec in SavedRecipesOf(order, docs, userId, dateOf) ==>
      exists id :: id in order && Owned(docs[id], userId) && rec == Tagged(id, docs[id])
  {
    var ids := OwnedIds(order, docs, userId);
    var listed := Listed(ids, docs);
    var r := SavedRecipesOf(order, docs, userId, dateOf);
    assert RecentFirst(r, dateOf) && multiset(r) == multiset(listed) by {
      ByRecencyCorrect(listed, dateOf);
    }
    forall id | id in order && Owned(docs[id], userId)
      ensures Tagged(id, docs[id]) in r
    {
      var k :| 0 <= k < |ids| && ids[k] == id;
      assert listed[k] in multiset(listed);
    }
    forall rec | rec in r
      ensures exists id :: id in order && Owned(docs[id], userId) && rec == Tagged(id, docs[id])
    {
      assert rec in multiset(listed);
      var k :| 0 <= k < |listed| && listed[k] == rec;
      assert ids[k] in ids;
    }
  }

  // ---------------------------------------------------------------------
  // The store

  /** `order` lists every document of `docs` exactly once. */
  predicate Listing(order: seq<string>, docs: map<string, Record>) {
    && (forall i :: 0 <= i < |order| ==> order[i] in docs)
    && (forall id :: id in docs ==> id in order)
    && Distinct(order)
  }

  /** A new document is listed last. */
  lemma ListingAdd(order: seq<string>, docs: map<string, Record>, id: string, rec: Record)
    requires Listing(order, docs) && id !in docs
    ensures Listing(order + [id], docs[id := rec])
  {
    assert id !in order;
  }

  /** A removed document is no longer listed. */
  lemma ListingRemove(order: seq<string>, docs: map<string, Record>, id: string)
    requires Listing(order, docs)
    ensures Listing(Without(order, id), docs - {id})
  {
    WithoutDistinct(order, id);
  }

  class RecipeStore {
    /** The recipe documents by id. */
    var docs: map<string, Record>
    /** The order in which a query lists the documents. */
    var order: seq<string>
    /** The user profiles by user id. */
    var profiles: map<string, Record>
    /** `Some(message)` when every call to the store fails with that message. */
    var fault: Option<string>

    /** Every document is listed once. */
    predicate Valid()
      reads this
    {
      Listing(order, docs)
    }

    constructor (profiles: map<string, Record>, fault: Option<string>)
      ensures Valid()
      ensures docs == map[] && order == [] && this.profiles == profiles && this.fault == fault
    {
      docs := map[];
      order := [];
      this.profiles := profiles;
      this.fault := fault;
    }

    /** `saveRecipe(userId, recipe)`; `id` is the new document's id and
        `now` the server time. The document is added before the profile is
        updated, so a user without a profile gets the document and an error. */
    method SaveRecipe(userId: string, recipe: Record, id: string, now: int) returns (r: Result<Record, string>)
      requires Valid() && id !in docs
      modifies this
      ensures Valid() && fault == old(fault)
      ensures old(fault).Some? ==> r == Failure(SaveFailedMessage) && unchanged(this)
      ensures old(fault).None? ==>
        && docs == old(docs)[id := SavedRecord(recipe, userId, now)]
        && order == old(order) + [id]
      ensures old(fault).None? && userId !in old(profiles) ==>
        r == Failure(SaveFailedMessage) && profiles == old(profiles)
      ensures old(fault).None? && userId in old(profiles) ==>
        && r == Success(Tagged(id, SavedRecord(recipe, userId, now)))
        && profiles == old(profiles)[userId :=
             Incremented(Incremented(old(profiles)[userId], "recipesSaved", 1), "recipesGenerated", 1)]
    {
      if fault.Some? {
        return Failure(SaveFailedMessage);
      }
      var data := SavedRecord(recipe, userId, now);
      ListingAdd(order, docs, id, data);
      docs := docs[id := data];
      order := order + [id];
      if userId !in profiles {
        return Failure(SaveFailedMessage);
      }
      var profile := profiles[userId];
      profiles := profiles[userId := Incremented(Incremented(profile, "recipesSaved", 1), "recipesGenerated", 1)];
      r := Success(Tagged(id, data));
    }

    /** `getSavedRecipes(userId)`: the user's documents in listing order,
        each tagged with its id, then sorted most recent first. */
    method GetSavedRecipes(userId: string, dateOf: Value -> int) returns (r: Result<seq<Record>, string>)
      requires Valid()
      ensures fault.Some? ==> r == Failure(FetchFailedPrefix + fault.value)
      ensures fault.None? ==> r == Success(SavedRecipesOf(order, docs, userId, dateOf))
    {
      if fault.Some? {
        return Failure(FetchFailedPrefix + fault.value);
      }
      var recipes := CollectOwned(order, docs, userId);
      var sorted := SortByRecency(recipes, dateOf);
      r := Success(sorted);
    }

    /** `deleteRecipe(userId, recipeId)`: removes the document (a missing one
        is not an error) and then decrements the user's `recipesSaved`,
        whoever owns the document. */
    method DeleteRecipe(userId: string, recipeId: string) returns (r: Outcome<string>)
      requires Valid()
      modifies this
      ensures Valid() && fault == old(fault)
      ensures old(fault).Some? ==> r == Fail(DeleteFailedMessage) && unchanged(this)
      ensures old(fault).None? ==>
        && docs == old(docs) - {recipeId}
        && order == Without(old(order), recipeId)
      ensures old(fault).None? && userId !in old(profiles) ==>
        r == Fail(DeleteFailedMessage) && profiles == old(profiles)
      ensures old(fault).None? && userId in old(profiles) ==>
        r == Pass && profiles == old(profiles)[userId := Incremented(old(profiles)[userId], "recipesSaved", -1)]
    {
      if fault.Some? {
        return Fail(DeleteFailedMessage);
      }
      ListingRemove(order, docs, recipeId);
      docs := docs - {recipeId};
      order := Without(order, recipeId);
      if userId !in profiles {
        return Fail(DeleteFailedMessage);
      }
      profiles := profiles[userId := Incremented(profiles[userId], "recipesSaved", -1)];
      r := Pass;
    }

    /** `updateRecipeRating(recipeId, rating)`: sets `rating` and
        `lastUpdated` and nothing else; a missing document is an error. */
    method UpdateRecipeRating(recipeId: string, rating: Value, now: int) returns (r: Outcome<string>)
      requires Valid()
      modifies this
      ensures Valid() && order == old(order) && profiles == old(profiles) && fault == old(fault)
      ensures old(fault).Some? || recipeId !in old(docs) ==> r == Fail(RatingFailedMessage) && docs == old(docs)
      ensures old(fault).None? && recipeId in old(docs) ==>
        && r == Pass
        && docs == old(docs)[recipeId := old(docs)[recipeId]["rating" := rating]["lastUpdated" := Stamp(now)]]
    {
      if fault.Some? || recipeId !in docs {
        return Fail(RatingFailedMessage);
      }
      docs := docs[recipeId := docs[recipeId]["rating" := rating]["lastUpdated" := Stamp(now)]];
      r := Pass;
    }

    /** `addRecipeReview(recipeId, review)`: replaces `reviews` with the ones
        the argument carries plus the stamped argument, never reading the
        document's own reviews; `createdAt` is the client time, `now` the
        server time. */
    method AddRecipeReview(recipeId: string, review: Record, createdAt: string, now: int) returns (r: Outcome<string>)
      requires Valid()
      modifies this
      ensures Valid() && order == old(order) && profiles == old(profiles) && fault == old(fault)
      ensures old(fault).Some? || recipeId !in old(docs) || ReviewsAfter(review, createdAt).Failure? ==>
        r == Fail(ReviewFailedMessage) && docs == old(docs)
      ensures old(fault).None? && recipeId in old(docs) && ReviewsAfter(review, createdAt).Success? ==>
        && r == Pass
        && docs == old(docs)[recipeId := old(docs)[recipeId]
             ["reviews" := Arr(ReviewsAfter(review, createdAt).value)]["lastUpdated" := Stamp(now)]]
    {
      var reviews := ReviewsAfter(review, createdAt);
      if reviews.Failure? || fault.Some? || recipeId !in docs {
        return Fail(ReviewFailedMessage);
      }
      docs := docs[recipeId := docs[recipeId]["reviews" := Arr(reviews.value)]["lastUpdated" := Stamp(now)]];
      r := Pass;
    }
  }

  /** The records the `forEach` loop of `getSavedRecipes` collects, one
      document at a time. */
  function Collected(order: seq<string>, docs: map<string, Record>, userId: string): seq<Record>
    requires forall i :: 0 <= i < |order| ==> order[i] in docs
  {
    if order == [] then []
    else
      var id := order[|order| - 1];
      Collected(order[..|order| - 1], docs, userId) + (if Owned(docs[id], userId) then [Tagged(id, docs[id])] else [])
  }

  /** Collecting one document at a time lists exactly the user's documents. */
  lemma {:induction false} CollectedIsListed(order: seq<string>, docs: map<string, Record>, userId: string)
    requires forall i :: 0 <= i < |order| ==> order[i] in docs
    ensures Collected(order, docs, userId) == Listed(OwnedIds(order, docs, userId), docs)
  {
    if order != [] {
      var init := order[..|order| - 1];
      CollectedIsListed(init, docs, userId);
      var ids := OwnedIds(init, docs, userId);
      var id := order[|order| - 1];
      if Owned(docs[id], userId) {
        var a := Listed(ids + [id], docs);
        var b := Listed(ids, docs) + [Tagged(id, docs[id])];
        assert |a| == |b|;
        forall k | 0 <= k < |a|
          ensures a[k] == b[k]
        {
          if k < |ids| {
            assert (ids + [id])[k] == ids[k];
          }
        }
      } else {
        assert ids + [] == ids;
      }
    }
  }

  /** The `forEach` loop of `getSavedRecipes`: the user's documents in
      listing order, each tagged with its id. */
  method CollectOwned(order: seq<string>, docs: map<string, Record>, userId: string) returns (recipes: seq<Record>)
    requires forall i :: 0 <= i < |order| ==> order[i] in docs
    ensures recipes == Listed(OwnedIds(order, docs, userId), docs)
  {
    recipes := [];
    var i := 0;
    while i < |order|
      invariant 0 <= i <= |order|
      invariant recipes == Collected(order[..i], docs, userId)
    {
      var id := order[i];
      assert order[..i + 1][..i] == order[..i];
      if Owned(docs[id], userId) {
        recipes := recipes + [Tagged(id, docs[id])];
      }
      i := i + 1;
    }
    assert order[..i] == order;
    CollectedIsListed(order, docs, userId);
  }

  /** `recipes.sort(...)`: inserts the recipes one by one into a sorted list. */
  method SortByRecency(recipes: seq<Record>, dateOf: Value -> int) returns (sorted: seq<Record>)
    ensures sorted == ByRecency(recipes, dateOf)
  {
    sorted := [];
    var j := 0;
    while j < |recipes|
      invariant 0 <= j <= |recipes|
      invariant sorted == ByRecency(recipes[..j], dateOf)
    {
      assert recipes[..j + 1][..j] == recipes[..j];
      sorted := InsertByRecency(sorted, recipes[j], dateOf);
      j := j + 1;
    }
    assert recipes[..j] == recipes;
  }

  /** Saving and then deleting the same recipe restores the saved count and
      leaves the generated count one higher. */
  lemma SaveThenDeleteCounters(profile: Record)
    ensures var after := Incremented(Incremented(Incremented(profile, "recipesSaved", 1), "recipesGenerated", 1), "recipesSaved", -1);
      Counter(after, "recipesSaved") == Counter(profile, "recipesSaved")
      && Counter(after, "recipesGenerated") == Counter(profile, "recipesGenerated") + 1
  {
    var a := Incremented(profile, "recipesSaved", 1);
    IncrementedCounter(profile, "recipesSaved", "recipesGenerated", 1);
    var b := Incremented(a, "recipesGenerated", 1);
    IncrementedCounter(a, "recipesGenerated", "recipesSaved", 1);
    IncrementedCounter(b, "recipesSaved", "recipesGenerated", -1);
  }
}
