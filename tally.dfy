/**
 * The activity tally: four counters, one per activity the hotel offers, in
 * the order of the activity names. A guest's activity adds one to the
 * counter of every name equal to it; since the names are distinct, that is
 * at most one counter.
 */
module Tally {

  /** The activities on offer, in counter order. */
  const Activities: seq<string> := ["Pool", "Restaurant", "Fitness center", "Business center"]

  /** Sum of all counters. */
  function Sum(counts: seq<int>): int
  {
    if |counts| == 0 then 0 else counts[0] + Sum(counts[1..])
  }

  /** The four activity names are pairwise distinct. */
  lemma ActivitiesDistinct()
    ensures forall i, j :: 0 <= i < j < |Activities| ==> Activities[i] != Activities[j]
  {
  }

  /** 1 when the counter at `i` belongs to `activity`, otherwise 0. */
  function Hit(activity: string, i: int): nat
    requires 0 <= i < |Activities|
  {
    if Activities[i] == activity then 1 else 0
  }

  /** Raising one counter by one raises the sum by one. */
  lemma {:induction false} SumUpdate(counts: seq<int>, k: int, v: int)
    requires 0 <= k < |counts|
    ensures Sum(counts[k := v]) == Sum(counts) - counts[k] + v
  {
    if k == 0 {
      assert counts[k := v][1..] == counts[1..];
    } else {
      assert counts[k := v][1..] == counts[1..][k - 1 := v];
      SumUpdate(counts[1..], k - 1, v);
    }
  }

  /**
   * The counters after one guest does `activity`: the scan over the four
   * names adds one to each counter whose name matches.
   */
  function Tallied(counts: seq<int>, activity: string): (r: seq<int>)
    requires |counts| == |Activities|
    ensures |r| == |counts|
  {
    seq(|counts|, i requires 0 <= i < |counts| => counts[i] + Hit(activity, i))
  }

  /** A recognised activity raises exactly its own counter by one and leaves the other three alone. */
  lemma TallyMatching(counts: seq<int>, activity: string, k: int)
    requires |counts| == |Activities|
    requires 0 <= k < |Activities| && Activities[k] == activity
    ensures Tallied(counts, activity) == counts[k := counts[k] + 1]
  {
  }

  /** An activity that is none of the four names leaves every counter as it was. */
  lemma TallyUnknown(counts: seq<int>, activity: string)
    requires |counts| == |Activities|
    requires activity !in Activities
    ensures Tallied(counts, activity) == counts
  {
  }

  /** The counters' total goes up by one exactly when the activity is one of the four names. */
  lemma TalliedSum(counts: seq<int>, activity: string)
    requires |counts| == |Activities|
    ensures Sum(Tallied(counts, activity)) == Sum(counts) + (if activity in Activities then 1 else 0)
  {
    if activity in Activities {
      var k :| 0 <= k < |Activities| && Activities[k] == activity;
      TallyMatching(counts, activity, k);
      SumUpdate(counts, k, counts[k] + 1);
    } else {
      TallyUnknown(counts, activity);
    }
  }

  /** The counters after each guest in `guests`, in order, has done its activity. */
  function TallyRun(counts: seq<int>, guests: seq<string>): (r: seq<int>)
    requires |counts| == |Activities|
    ensures |r| == |Activities|
    decreases |guests|
  {
    if |guests| == 0 then counts else TallyRun(Tallied(counts, guests[0]), guests[1..])
  }

  /**
   * However the guests' visits are ordered, each counter ends up raised by
   * the number of guests who chose its activity.
   */
  lemma {:induction false} TallyRunCounts(counts: seq<int>, guests: seq<string>, k: int)
    requires |counts| == |Activities|
    requires 0 <= k < |Activities|
    ensures TallyRun(counts, guests)[k] == counts[k] + multiset(guests)[Activities[k]]
    decreases |guests|
  {
    if |guests| > 0 {
      var next := Tallied(counts, guests[0]);
      assert next[k] == counts[k] + Hit(guests[0], k);
      assert guests == [guests[0]] + guests[1..];
      assert multiset(guests) == multiset([guests[0]]) + multiset(guests[1..]);
      TallyRunCounts(next, guests[1..], k);
    }
  }

  /** When every guest chose one of the four activities, the counters' total rises by the number of guests. */
  lemma {:induction false} TallyRunSum(counts: seq<int>, guests: seq<string>)
    requires |counts| == |Activities|
    requires forall g :: g in guests ==> g in Activities
    ensures Sum(TallyRun(counts, guests)) == Sum(counts) + |guests|
    decreases |guests|
  {
    if |guests| > 0 {
      assert guests[0] in guests;
      forall g | g in guests[1..] ensures g in Activities {
        assert g in guests;
      }
      TalliedSum(counts, guests[0]);
      TallyRunSum(Tallied(counts, guests[0]), guests[1..]);
    }
  }

  /**
   * Two guests' unlocked `activityCounter[i]++` when each loads counter `i`
   * before either stores it back: the first guest's store is overwritten
   * by the second's wherever the second guest's activity matches.
   */
  function RacedPair(counts: seq<int>, first: string, second: string): (r: seq<int>)
    requires |counts| == |Activities|
    ensures |r| == |counts|
  {
    seq(|counts|, i requires 0 <= i < |counts| =>
      var loadedByFirst, loadedBySecond := counts[i], counts[i];
      var afterFirst := if Hit(first, i) == 1 then loadedByFirst + 1 else counts[i];
      if Hit(second, i) == 1 then loadedBySecond + 1 else afterFirst)
  }

  /**
   * With that interleaving, two guests who chose the same activity raise its
   * counter by one only, where one guest after the other raises it by two.
   */
  lemma LostUpdate(counts: seq<int>, k: int)
    requires |counts| == |Activities|
    requires 0 <= k < |Activities|
    ensures RacedPair(counts, Activities[k], Activities[k])[k] == counts[k] + 1
    ensures TallyRun(counts, [Activities[k], Activities[k]])[k] == counts[k] + 2
  {
    TallyRunCounts(counts, [Activities[k], Activities[k]], k);
  }

  /** Guests with different activities touch different counters, so the same interleaving loses nothing. */
  lemma RaceHarmlessForDistinctActivities(counts: seq<int>, first: string, second: string)
    requires |counts| == |Activities|
    requires first != second
    ensures RacedPair(counts, first, second) == TallyRun(counts, [first, second])
  {
    var raced := RacedPair(counts, first, second);
    var run := TallyRun(counts, [first, second]);
    forall k | 0 <= k < |Activities| ensures raced[k] == run[k] {
      TallyRunCounts(counts, [first, second], k);
    }
  }

  /** Five guests choosing Pool, Pool, Restaurant, Fitness center and Business center give the tally 2, 1, 1, 1. */
  lemma FiveGuestExample()
    ensures TallyRun([0, 0, 0, 0], ["Pool", "Pool", "Restaurant", "Fitness center", "Business center"]) == [2, 1, 1, 1]
  {
  }
}
