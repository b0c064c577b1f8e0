/**
 * The page component: the arena's candidate list (a bounded, title-keyed
 * toggle), the two buttons that open the arena, the search outcome handling
 * and the hand-over of the race winner.
 */
module LunchApp {
  import opened Types
  import opened GeminiService

  /** At most this many places may race. */
  const MaxFighters: nat := 4

  const NoSpotsMessage: string := "No spots found in this radius. Try walking a bit further? 🏃‍♂️"
  const SearchFallbackMessage: string := "The Lunch Bot fumbled the bag."

  /** Every entry of `candidates` whose title differs from `title`, in order (`filter`). */
  function RemoveTitle(candidates: seq<Place>, title: string): (r: seq<Place>)
    ensures forall p :: p in r <==> p in candidates && p.title != title
  {
    if candidates == [] then []
    else (if candidates[0].title == title then [] else [candidates[0]]) + RemoveTitle(candidates[1..], title)
  }

  /** `sub` is `s` with some entries left out and the rest in their original order. */
  predicate IsSubsequence(sub: seq<Place>, s: seq<Place>)
  {
    if s == [] then sub == []
    else (sub != [] && sub[0] == s[0] && IsSubsequence(sub[1..], s[1..])) || IsSubsequence(sub, s[1..])
  }

  /**
   * The arena candidates after the user taps a place: a selected title is
   * removed, a new title is appended while there is room, and otherwise the
   * list stays as it was (the user is alerted).
   */
  function ToggleCandidate(candidates: seq<Place>, place: Place): (r: seq<Place>)
    ensures place.title in Titles(r) <==> place.title !in Titles(candidates) && |candidates| < MaxFighters
    ensures forall p :: p in r ==> p in candidates || p == place
  {
    if place.title in Titles(candidates) then
      assert place.title !in Titles(RemoveTitle(candidates, place.title));
      RemoveTitle(candidates, place.title)
    else if |candidates| >= MaxFighters then candidates
    else candidates + [place]
  }

  /** `typeof err === 'string' ? err : (err.message ? String(err.message) : fallback)`. */
  function SearchErrorText(e: Thrown): (r: string)
    ensures e.ThrownString? ==> r == e.s
    ensures e.ErrorObject? && e.message != "" ==> r == e.message
    ensures e.ErrorObject? && e.message == "" ==> r == SearchFallbackMessage
  {
    match e
    case ThrownString(s) => s
    case ErrorObject(message, _) => if message != "" then message else SearchFallbackMessage
  }

  /** Removing a title drops exactly the entries with that title and keeps the others in order. */
  lemma {:induction false} RemoveTitleSpec(candidates: seq<Place>, title: string)
    ensures var r := RemoveTitle(candidates, title);
      && title !in Titles(r)
      && (forall p :: p in candidates && p.title != title ==> p in r)
      && (forall p :: p in r ==> p in candidates)
      && IsSubsequence(r, candidates)
      && |r| <= |candidates|
      && (title in Titles(candidates) ==> |r| < |candidates|)
  {
    if candidates != [] {
      RemoveTitleSpec(candidates[1..], title);
      var rest := RemoveTitle(candidates[1..], title);
      if candidates[0].title != title {
        assert RemoveTitle(candidates, title) == [candidates[0]] + rest;
        assert ([candidates[0]] + rest)[1..] == rest;
      } else {
        assert RemoveTitle(candidates, title) == [] + rest == rest;
      }
      assert forall p :: p in candidates ==> p == candidates[0] || p in candidates[1..];
    }
  }

  /** Removing a title from a list that does not hold it changes nothing. */
  lemma {:induction false} RemoveAbsentTitle(candidates: seq<Place>, title: string)
    requires title !in Titles(candidates)
    ensures RemoveTitle(candidates, title) == candidates
  {
    if candidates != [] {
      assert candidates[0] in candidates;
      assert Titles(candidates[1..]) <= Titles(candidates);
      RemoveAbsentTitle(candidates[1..], title);
      assert [candidates[0]] + candidates[1..] == candidates;
    }
  }

  /** Removing a title from a concatenation removes it from both parts. */
  lemma {:induction false} RemoveTitleAppend(a: seq<Place>, b: seq<Place>, title: string)
    ensures RemoveTitle(a + b, title) == RemoveTitle(a, title) + RemoveTitle(b, title)
  {
    if a != [] {
      assert (a + b)[1..] == a[1..] + b;
      RemoveTitleAppend(a[1..], b, title);
    } else {
      assert a + b == b;
    }
  }

  /** Removing a title keeps a title-unique list title-unique. */
  lemma {:induction false} RemoveTitleDistinct(candidates: seq<Place>, title: string)
    requires DistinctTitles(candidates)
    ensures DistinctTitles(RemoveTitle(candidates, title))
  {
    if candidates != [] {
      var rest := candidates[1..];
      assert DistinctTitles(rest);
      RemoveTitleDistinct(rest, title);
      RemoveTitleSpec(rest, title);
      forall p | p in RemoveTitle(rest, title)
        ensures p.title != candidates[0].title
      {
        var k :| 0 <= k < |rest| && rest[k] == p;
        assert candidates[k + 1] == p;
      }
    }
  }

  /**
   * The three outcomes of a toggle: a selected title is removed (every entry
   * with it, the others in order); a new title is appended when fewer than
   * `MaxFighters` are selected; otherwise the list is unchanged.
   */
  lemma ToggleCases(candidates: seq<Place>, place: Place)
    ensures var r := ToggleCandidate(candidates, place);
      && (place.title in Titles(candidates) ==>
            place.title !in Titles(r) && IsSubsequence(r, candidates) && |r| < |candidates|
            && forall p :: p in candidates && p.title != place.title ==> p in r)
      && (place.title !in Titles(candidates) && |candidates| < MaxFighters ==> r == candidates + [place])
      && (place.title !in Titles(candidates) && |candidates| >= MaxFighters ==> r == candidates)
  {
    RemoveTitleSpec(candidates, place.title);
  }

  /** A toggle never takes the list over capacity. */
  lemma ToggleCapacity(candidates: seq<Place>, place: Place)
    requires |candidates| <= MaxFighters
    ensures |ToggleCandidate(candidates, place)| <= MaxFighters
  {
    RemoveTitleSpec(candidates, place.title);
  }

  /** A toggle keeps the selected titles pairwise distinct. */
  lemma ToggleKeepsDistinct(candidates: seq<Place>, place: Place)
    requires DistinctTitles(candidates)
    ensures DistinctTitles(ToggleCandidate(candidates, place))
  {
    if place.title in Titles(candidates) {
      RemoveTitleDistinct(candidates, place.title);
    } else if |candidates| < MaxFighters {
      var r := candidates + [place];
      forall i, j | 0 <= i < j < |r| ensures r[i].title != r[j].title {
        if j == |candidates| {
          assert r[i] in candidates;
        }
      }
    }
  }

  /** Toggling a new place twice, with room for it, gives back the original list. */
  lemma ToggleRoundTrip(candidates: seq<Place>, place: Place)
    requires place.title !in Titles(candidates) && |candidates| < MaxFighters
    ensures ToggleCandidate(ToggleCandidate(candidates, place), place) == candidates
  {
    var added := candidates + [place];
    assert ToggleCandidate(candidates, place) == added;
    assert place in added;
    RemoveTitleAppend(candidates, [place], place.title);
    RemoveAbsentTitle(candidates, place.title);
    assert RemoveTitle([place], place.title) == [];
    assert candidates + [] == candidates;
  }

  /** The page's state, as its setters change it. */
  class AppState {
    var coords: Option<Coordinates>
    var loading: bool
    var places: seq<Place>
    var error: Option<string>
    var showBattle: bool
    var battleWinner: Option<Place>
    var battleCandidates: seq<Place>

    /** The arena list is never over capacity and never holds a title twice. */
    ghost predicate Valid()
      reads this
    {
      |battleCandidates| <= MaxFighters && DistinctTitles(battleCandidates)
    }

    /** The page as it mounts, with the position the browser reported, if any. */
    constructor (coords: Option<Coordinates>)
      ensures Valid()
      ensures this.coords == coords && !loading && places == [] && error == None
      ensures !showBattle && battleWinner == None && battleCandidates == []
    {
      this.coords := coords;
      loading := false;
      places := [];
      error := None;
      showBattle := false;
      battleWinner := None;
      battleCandidates := [];
    }

    /** The synchronous part of `handleSearch`: nothing without a position, else reset and start loading. */
    method BeginSearch() returns (requested: bool)
      requires Valid()
      modifies this
      ensures Valid()
      ensures requested == old(coords).Some?
      ensures !requested ==> unchanged(this)
      ensures requested ==> loading && error == None && places == [] && battleCandidates == []
      ensures coords == old(coords) && showBattle == old(showBattle) && battleWinner == old(battleWinner)
    {
      if coords.None? {
        return false;
      }
      loading := true;
      error := None;
      places := [];
      battleCandidates := [];
      requested := true;
    }

    /** The part of `handleSearch` after the search settled, with `outcome` as it settled. */
    method FinishSearch(outcome: Result<SearchResult, Thrown>)
      modifies this
      ensures !loading
      ensures outcome.Ok? && |outcome.value.places| > 0 ==>
        places == outcome.value.places && error == old(error)
      ensures outcome.Ok? && |outcome.value.places| == 0 ==>
        places == old(places) && error == Some(NoSpotsMessage)
      ensures outcome.Err? ==> places == old(places) && error == Some(SearchErrorText(outcome.error))
      ensures coords == old(coords) && battleCandidates == old(battleCandidates)
      ensures showBattle == old(showBattle) && battleWinner == old(battleWinner)
    {
      match outcome {
        case Ok(result) =>
          if |result.places| > 0 {
            places := result.places;
          } else {
            error := Some(NoSpotsMessage);
          }
        case Err(e) =>
          error := Some(SearchErrorText(e));
      }
      loading := false;
    }

    /**
     * `handleSearch`: without a position nothing changes; otherwise the arena
     * list is cleared, and afterwards loading is off and either the found
     * places are shown with no error or the list is empty and an error is shown.
     */
    method HandleSearch(outcome: Result<SearchResult, Thrown>)
      requires Valid()
      modifies this
      ensures Valid()
      ensures old(coords).None? ==> unchanged(this)
      ensures old(coords).Some? ==> !loading && battleCandidates == []
      ensures old(coords).Some? && outcome.Ok? && |outcome.value.places| > 0 ==>
        places == outcome.value.places && error == None
      ensures old(coords).Some? && outcome.Ok? && |outcome.value.places| == 0 ==>
        places == [] && error == Some(NoSpotsMessage)
      ensures old(coords).Some? && outcome.Err? ==>
        places == [] && error == Some(SearchErrorText(outcome.error))
      ensures coords == old(coords) && showBattle == old(showBattle) && battleWinner == old(battleWinner)
    {
      var requested := BeginSearch();
      if requested {
        FinishSearch(outcome);
      }
    }

    /** `toggleBattleCandidate`. */
    method ToggleBattleCandidate(place: Place)
      requires Valid()
      modifies this`battleCandidates
      ensures Valid()
      ensures battleCandidates == ToggleCandidate(old(battleCandidates), place)
    {
      ToggleCapacity(battleCandidates, place);
      ToggleKeepsDistinct(battleCandidates, place);
      if place.title in Titles(battleCandidates) {
        battleCandidates := RemoveTitle(battleCandidates, place.title);
      } else {
        if |battleCandidates| >= MaxFighters {
          return;
        }
        battleCandidates := battleCandidates + [place];
      }
    }

    /** The bottom bar's start button (shown only with a candidate): opens the arena only with two or more. */
    method StartRaceClicked()
      requires |battleCandidates| > 0
      modifies this`showBattle
      ensures showBattle == (old(showBattle) || |battleCandidates| >= 2)
    {
      if |battleCandidates| < 2 {
        return;
      }
      showBattle := true;
    }

    /** The header badge (shown only with a candidate): opens the arena, even with one. */
    method BadgeClicked()
      requires |battleCandidates| > 0
      modifies this`showBattle
      ensures showBattle
    {
      showBattle := true;
    }

    /** `handleBattleFinish`: closes the arena and shows the winner. */
    method HandleBattleFinish(winner: Place)
      modifies this`showBattle, this`battleWinner
      ensures !showBattle && battleWinner == Some(winner)
    {
      showBattle := false;
      battleWinner := Some(winner);
    }
  }
}
