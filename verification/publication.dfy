/** Publishing an installer directory: staged, hidden, final, and back again on failure. */
module Publication {

  datatype Place = Staged | Hidden | Final

  /** What stands at each of the three places. Evidence is what `candidate_evidence` computes from a tree. */
  type Places<!Evidence> = map<Place, Evidence>

  datatype Ending = Returned | Raised | RollbackFailed

  /** `passes(k)`: the k-th boundary check, evidence computation or rename goes through. */
  type Faults = nat -> bool

  const FORWARD_STEPS: nat := 15

  /** The candidate moved from its staging place to `place`. */
  function MovedTo<Evidence>(before: Places<Evidence>, place: Place): Places<Evidence>
    requires Staged in before
  {
    (before - {Staged})[place := before[Staged]]
  }

  /** The candidate is at exactly one of the three places, and nothing else has changed. */
  ghost predicate AtOnePlace<Evidence>(before: Places<Evidence>, now: Places<Evidence>) {
    || now == before
    || (Staged in before && Hidden !in before && now == MovedTo(before, Hidden))
    || (Staged in before && Final !in before && Hidden !in before && now == MovedTo(before, Final))
  }

  class Directories<Evidence(==)> {
    var places: Places<Evidence>
    ghost var history: seq<Places<Evidence>>

    constructor (places: Places<Evidence>)
      ensures this.places == places && history == [places]
    {
      this.places := places;
      history := [places];
    }

    ghost predicate Kept(before: Places<Evidence>)
      reads this
    {
      && history != [] && history[|history| - 1] == places
      && forall i | 0 <= i < |history| :: AtOnePlace(before, history[i])
    }

    /** `require_candidate_evidence`. */
    predicate Holds(place: Place, expected: Evidence)
      reads this
    {
      place in places && places[place] == expected
    }

    /** An atomic rename: it happens, or it raises and changes nothing. */
    method Rename(source: Place, target: Place, passes: bool) returns (ok: bool)
      modifies this
      ensures ok <==> passes && source in old(places) && target !in old(places)
      ensures ok ==> places == (old(places) - {source})[target := old(places)[source]]
      ensures ok ==> history == old(history) + [places]
      ensures !ok ==> places == old(places) && history == old(history)
    {
      ok := passes && source in places && target !in places;
      if ok {
        places := (places - {source})[target := places[source]];
        history := history + [places];
      }
    }

    /** `_restore_failed_publication`; its steps are numbered from `k`. */
    method Restore(current: Place, passes: Faults, k: nat, ghost before: Places<Evidence>) returns (ok: bool)
      requires Kept(before) && Staged in before && Hidden !in before && Final !in before
      requires current != Staged && places == MovedTo(before, current)
      modifies this
      ensures Kept(before)
      ensures ok ==> places == before
      ensures ok <==> forall i | k <= i < k + 5 :: passes(i)
    {
      if !passes(k) || !passes(k + 1) || Staged in places {
        return false;
      }
      ok := Rename(current, Staged, passes(k + 2));
      assert ok ==> places == before;
      if !ok || !passes(k + 3) || !passes(k + 4) || current in places || Staged !in places {
        return false;
      }
    }

    /** The steps after the first rename; `current` is where the candidate is when they stop. */
    method Promote(expected: Evidence, passes: Faults, ghost before: Places<Evidence>)
      returns (ok: bool, current: Place)
      requires Kept(before) && Staged in before && Hidden !in before && Final !in before
      requires places == MovedTo(before, Hidden) && before[Staged] == expected
      modifies this
      ensures Kept(before)
      ensures current != Staged && places == MovedTo(before, current)
      ensures ok <==> forall i | 7 <= i < FORWARD_STEPS :: passes(i)
      ensures ok ==> current == Final
    {
      current := Hidden;
      if !passes(7) || !passes(8) || Staged in places {
        return false, current;
      }
      if !passes(9) || !Holds(Hidden, expected) {
        return false, current;
      }
      if !passes(10) || Final in places {
        return false, current;
      }
      if !passes(11) || !Holds(Hidden, expected) {
        return false, current;
      }
      ok := Rename(Hidden, Final, passes(12));
      if !ok {
        return false, current;
      }
      assert places == MovedTo(before, Final);
      current := Final;
      if !passes(13) || Hidden in places {
        return false, current;
      }
      if !passes(14) || !Holds(Final, expected) {
        return false, current;
      }
      return true, current;
    }

    /** `publish_directory`, with no other writer. */
    method Publish(expected: Evidence, passes: Faults) returns (ending: Ending)
      requires history == [places]
      modifies this
      ensures Kept(old(places))
      ensures ending == Returned <==>
              && Staged in old(places) && old(places)[Staged] == expected
              && Hidden !in old(places) && Final !in old(places)
              && forall i | 0 <= i < FORWARD_STEPS :: passes(i)
      ensures ending == Returned ==> places == MovedTo(old(places), Final) && places[Final] == expected
      ensures ending == Raised ==> places == old(places)
      ensures ending == RollbackFailed <==>
              && Staged in old(places) && old(places)[Staged] == expected
              && Hidden !in old(places) && Final !in old(places)
              && (forall i | 0 <= i < 7 :: passes(i)) && (exists i | 7 <= i < FORWARD_STEPS :: !passes(i))
              && exists i | FORWARD_STEPS <= i < FORWARD_STEPS + 5 :: !passes(i)
    {
      ghost var before := places;
      if !passes(0) || !Holds(Staged, expected) {
        return Raised;
      }
      if !passes(1) || Final in places || Hidden in places {
        return Raised;
      }
      if !passes(2) || !passes(3) || !passes(4) {
        return Raised;
      }
      if !passes(5) || !Holds(Staged, expected) || Final in places || Hidden in places {
        return Raised;
      }
      var moved := Rename(Staged, Hidden, passes(6));
      if !moved {
        return Raised;
      }
      assert places == MovedTo(before, Hidden);
      var promoted, current := Promote(expected, passes, before);
      if promoted {
        return Returned;
      }
      var restored := Restore(current, passes, FORWARD_STEPS, before);
      ending := if restored then Raised else RollbackFailed;
    }
  }

  /** In every state the history passes through there is one copy of the candidate: no state without it
      and no state with two. */
  lemma OneCopy<Evidence>(before: Places<Evidence>, now: Places<Evidence>)
    requires AtOnePlace(before, now) && Staged in before && Hidden !in before && Final !in before
    ensures exists place :: now == map[place := before[Staged]]
  {
    var candidate := before[Staged];
    assert before == map[Staged := candidate] by {
      forall p | p in before
        ensures p == Staged
      {
      }
    }
    if now == MovedTo(before, Hidden) {
      assert now == map[Hidden := candidate];
    } else if now == MovedTo(before, Final) {
      assert now == map[Final := candidate];
    }
  }
}
