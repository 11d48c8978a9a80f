/** The sequence detail page (frontend/src/pages/SequenceDetail.js): the favourite
    toggle kept in local storage, the total duration and its `m:ss` badge. */
module SequenceDetail {
  import opened Common
  import opened Text
  import SequenceTraining

  // ----- favourites -----

  /** One entry of the stored JSON array: a number, or `null`, which is what
      `JSON.stringify` writes for `NaN`. */
  datatype StoredId = Num(n: int) | Null

  /** What `JSON.stringify` keeps of `parseInt(id)`; `None` is `NaN`. */
  function Stored(id: Option<int>): (e: StoredId)
    ensures e.Null? <==> id.None?
    ensures id.Some? ==> e == Num(id.value)
  {
    match id
    case Some(n) => Num(n)
    case None => Null
  }

  /** `favorites.includes(parseInt(id))` on a parsed list: `NaN` equals nothing
      in it, not even a stored `null`. */
  predicate Includes(favorites: seq<StoredId>, id: Option<int>): (r: bool)
    ensures id.None? ==> !r
    ensures r <==> id.Some? && Stored(id) in favorites
  {
    id.Some? && Num(id.value) in favorites
  }

  /** The favourite list after favouriting: the id is appended once, only if
      it is not already there. A `NaN` id is never found, so every press
      appends another `null`. */
  function AddFavorite(favorites: seq<StoredId>, id: Option<int>): (r: seq<StoredId>)
    ensures id.Some? ==> Includes(r, id)
    ensures id.None? ==> r == favorites + [Null]
    ensures |favorites| <= |r| <= |favorites| + 1
    ensures forall k :: 0 <= k < |favorites| ==> r[k] == favorites[k]
    ensures multiset(r)[Stored(id)] == multiset(favorites)[Stored(id)] + (if Includes(favorites, id) then 0 else 1)
    ensures forall x :: x != Stored(id) ==> multiset(r)[x] == multiset(favorites)[x]
  {
    if !Includes(favorites, id) then favorites + [Stored(id)] else favorites
  }

  /** `favorites.filter(favId => favId !== parseInt(id))`: every entry equal to
      the id goes, and with a `NaN` id nothing does. */
  function RemoveFavorite(favorites: seq<StoredId>, id: Option<int>): (r: seq<StoredId>)
    ensures !Includes(r, id)
    ensures IsSubsequence(r, favorites)
    ensures forall x :: x != Stored(id) ==> multiset(r)[x] == multiset(favorites)[x]
    ensures id.None? ==> r == favorites
  {
    if favorites == [] then []
    else
      var init := favorites[..|favorites| - 1];
      var last := favorites[|favorites| - 1];
      var kept := RemoveFavorite(init, id);
      assert favorites == init + [last];
      if !(id.Some? && last == Num(id.value)) then
        assert (kept + [last])[..|kept|] == kept;
        kept + [last]
      else kept
  }

  /** Removing an id that is not there gives the list back. */
  lemma {:induction false} RemoveAbsent(favorites: seq<StoredId>, id: Option<int>)
    requires !Includes(favorites, id)
    ensures RemoveFavorite(favorites, id) == favorites
  {
    if favorites != [] {
      var init := favorites[..|favorites| - 1];
      assert favorites == init + [favorites[|favorites| - 1]];
      RemoveAbsent(init, id);
    }
  }

  /** Favouriting and then unfavouriting, from a list without the id, restores
      the list; for a `NaN` id it leaves one more `null` behind. */
  lemma AddThenRemove(favorites: seq<StoredId>, id: Option<int>)
    requires !Includes(favorites, id)
    ensures RemoveFavorite(AddFavorite(favorites, id), id) == if id.Some? then favorites else favorites + [Null]
  {
    if id.Some? {
      RemoveAbsent(favorites, id);
      var added := favorites + [Stored(id)];
      assert added[..|added| - 1] == favorites;
    }
  }

  /** The page's favourite flag, its sequence id (`parseInt` of the route
      parameter, `None` for `NaN`) and the `favoriteSequences` entry of local
      storage (`None` when absent or empty). */
  class SequenceDetailPage {
    const id: Option<int>
    var isFavorited: bool
    var storedFavorites: Option<seq<StoredId>>

    /** The flag agrees with the stored list. */
    predicate Consistent()
      reads this
    {
      isFavorited <==> storedFavorites.Some? && Includes(storedFavorites.value, id)
    }

    /** Mounting the page for the route parameter `routeId`: the flag starts
        false and is then read from storage; an unparsable id never reads as
        favourited. */
    constructor (routeId: string, storedFavorites: Option<seq<StoredId>>)
      ensures id == ParseInt(routeId) && this.storedFavorites == storedFavorites
      ensures isFavorited == (storedFavorites.Some? && Includes(storedFavorites.value, id))
      ensures id.None? ==> !isFavorited
      ensures Consistent()
    {
      var parsed := ParseInt(routeId);
      id := parsed;
      this.storedFavorites := storedFavorites;
      isFavorited := false;
      if storedFavorites.Some? {
        isFavorited := Includes(storedFavorites.value, parsed);
      }
    }

    /** `toggleFavorite`. With a number for an id the flag stays in step with
        the store; with `NaN` it does only while it is off, so a page that
        shows the sequence as favourited has a store that says it is not. */
    method ToggleFavorite()
      modifies this
      ensures isFavorited == !old(isFavorited)
      ensures storedFavorites == Some(
        if isFavorited then AddFavorite(old(storedFavorites).GetOr([]), id)
        else RemoveFavorite(old(storedFavorites).GetOr([]), id))
      ensures id.Some? && old(Consistent()) ==> Consistent()
      ensures id.None? ==> (Consistent() <==> !isFavorited)
    {
      var newFavoritedState := !isFavorited;
      isFavorited := newFavoritedState;
      var favorites := if storedFavorites.Some? then storedFavorites.value else [];
      if newFavoritedState {
        if !Includes(favorites, id) {
          favorites := favorites + [Stored(id)];
        }
      } else {
        favorites := RemoveFavorite(favorites, id);
      }
      storedFavorites := Some(favorites);
    }
  }

  // ----- total duration -----

  /** `calculateTotalDuration`: the sum of the pose durations, 0 without poses. */
  function TotalDuration(poses: Option<seq<int>>): (r: int)
    ensures poses.None? ==> r == 0
    ensures poses.Some? ==> r == Sum(poses.value)
  {
    match poses
    case None => 0
    case Some(ps) => Sum(ps)
  }

  /** Non-negative durations give a total at least as long as any one pose. */
  lemma {:induction false} TotalDurationBounds(ps: seq<int>, i: nat)
    requires forall k :: 0 <= k < |ps| ==> ps[k] >= 0
    requires i < |ps|
    ensures TotalDuration(Some(ps)) >= ps[i] >= 0
  {
    if i < |ps| - 1 {
      TotalDurationBounds(ps[..|ps| - 1], i);
    }
  }

  // ----- the m:ss badge -----

  /** `{minutes}:{seconds < 10 ? '0' + seconds : seconds}` for the given fields.
      Whole minutes and seconds below 60 read back as `minutes * 60 + seconds`,
      and a negative minutes field is no reading at all. */
  function BadgeText(minutes: int, seconds: int): (t: string)
    ensures minutes >= 0 && 0 <= seconds < 60 ==>
      SequenceTraining.ReadClock(t) == Some(minutes * 60 + seconds)
    ensures minutes < 0 ==> SequenceTraining.ReadClock(t).None?
  {
    BadgeReads(minutes, seconds);
    IntToString(minutes) + ":" + SecondsText(seconds)
  }

  /** The seconds field, zero-padded below 10. */
  function SecondsText(seconds: int): string {
    if seconds < 10 then "0" + IntToString(seconds) else IntToString(seconds)
  }

  lemma BadgeReads(minutes: int, seconds: int)
    ensures var t := IntToString(minutes) + ":" + SecondsText(seconds);
      && (minutes >= 0 && 0 <= seconds < 60 ==> SequenceTraining.ReadClock(t) == Some(minutes * 60 + seconds))
      && (minutes < 0 ==> SequenceTraining.ReadClock(t).None?)
  {
    if minutes >= 0 && 0 <= seconds < 60 {
      NatToStringValue(minutes);
      SecondsField(seconds);
      SequenceTraining.ClockFields(NatToString(minutes), SecondsText(seconds), minutes * 60 + seconds);
    }
    if minutes < 0 {
      NegativeMinutes(IntToString(minutes), SecondsText(seconds));
    }
  }

  /** The badge for a total: `Math.floor(total / 60)` and `total % 60`. It reads
      back as the total exactly when the total is not negative. */
  function DurationBadge(total: int): (t: string)
    ensures total >= 0 ==> SequenceTraining.ReadClock(t) == Some(total)
    ensures total < 0 ==> SequenceTraining.ReadClock(t).None?
  {
    BadgeText(total / 60, JsRem(total, 60))
  }

  lemma SecondsField(seconds: nat)
    requires seconds < 60
    ensures var ss := SecondsText(seconds);
      |ss| == 2 && AllDigits(ss, 10) && DigitsValue(ss, 10) == seconds
  {
    NatToStringValue(seconds);
    NatToStringBelow100(seconds);
    if seconds < 10 {
      LeadingZerosValue(1, NatToString(seconds), 10);
      assert Zeros(1) == "0";
    } else {
      assert |NatToString(seconds)| == 2 by {
        assert NatToString(seconds) == NatToString(seconds / 10) + [DigitChar(seconds % 10)];
      }
    }
  }

  /** A minutes field with a sign in front is not a clock reading. */
  lemma NegativeMinutes(mm: string, ss: string)
    requires |mm| > 0 && mm[0] == '-'
    ensures SequenceTraining.ReadClock(mm + ":" + ss).None?
  {
    var t := mm + ":" + ss;
    if |t| >= 3 && t[|t| - 3] == ':' {
      var lead := t[..|t| - 3];
      assert |lead| > 0 && lead[0] == '-' by {
        assert t[0] == '-';
      }
      assert DigitValue(lead[0], 10).None?;
    }
  }
}
