/** The score of a session: the sum of absolute differences between the
    operator's counts and the targets, and the feedback tier derived from it. */
module Scoring {
  import opened Types
  import opened Constants
  import opened Counts

  function Abs(x: int): (r: nat)
    ensures r == x || r == -x
  {
    if x < 0 then -x else x
  }

  /** The reduce over the listed keys: `acc + |counts[k] - targets[k]|` for
      each key in turn. The result never falls below the starting
      accumulator. */
  function VarianceFold(keys: seq<ActionType>, acc: int, counts: CountMap, targets: CountMap): (r: int)
    requires forall k :: k in keys ==> k in counts && k in targets
    ensures r >= acc
  {
    if keys == [] then acc
    else VarianceFold(keys[1..], acc + Abs(counts[keys[0]] - targets[keys[0]]), counts, targets)
  }

  /** The fold equals its starting accumulator exactly when every listed
      key's count meets its target. */
  lemma {:induction false} VarianceFoldExact(keys: seq<ActionType>, acc: int, counts: CountMap, targets: CountMap)
    requires forall k :: k in keys ==> k in counts && k in targets
    ensures VarianceFold(keys, acc, counts, targets) == acc <==> forall k :: k in keys ==> counts[k] == targets[k]
  {
    if keys != [] {
      VarianceFoldExact(keys[1..], acc + Abs(counts[keys[0]] - targets[keys[0]]), counts, targets);
    }
  }

  /** Total variance of a set of counts against a set of targets, folded
      over ACTIONS from 0. It is never negative and is 0 exactly when the
      counts equal the targets. */
  function Variance(counts: CountMap, targets: CountMap): (r: int)
    requires Complete(counts) && Complete(targets)
    ensures r >= 0
    ensures r == 0 <==> counts == targets
  {
    AllListed();
    VarianceFoldExact(ACTIONS, 0, counts, targets);
    VarianceFold(ACTIONS, 0, counts, targets)
  }

  /** The variance a session's counts score against the fixed scenario. */
  function TotalVariance(counts: CountMap): (r: int)
    requires Complete(counts)
    ensures r >= 0
    ensures r == 0 <==> counts == FIXED_SCENARIO.targets
  {
    TargetsComplete();
    Variance(counts, FIXED_SCENARIO.targets)
  }

  /** Swapping the roles of counts and targets leaves the fold unchanged. */
  lemma {:induction false} VarianceFoldSymmetric(keys: seq<ActionType>, acc: int, a: CountMap, b: CountMap)
    requires forall k :: k in keys ==> k in a && k in b
    ensures VarianceFold(keys, acc, a, b) == VarianceFold(keys, acc, b, a)
  {
    if keys != [] {
      assert Abs(a[keys[0]] - b[keys[0]]) == Abs(b[keys[0]] - a[keys[0]]);
      VarianceFoldSymmetric(keys[1..], acc + Abs(a[keys[0]] - b[keys[0]]), a, b);
    }
  }

  /** The variance is symmetric: sum |a - b| equals sum |b - a|. */
  lemma VarianceSymmetric(a: CountMap, b: CountMap)
    requires Complete(a) && Complete(b)
    ensures Variance(a, b) == Variance(b, a)
  {
    AllListed();
    VarianceFoldSymmetric(ACTIONS, 0, a, b);
  }

  /** The variance written out term by term over the five event types. */
  lemma VarianceExpanded(a: CountMap, b: CountMap)
    requires Complete(a) && Complete(b)
    ensures Variance(a, b) ==
      Abs(a[Reception] - b[Reception]) + Abs(a[Touch] - b[Touch]) + Abs(a[Pass] - b[Pass])
      + Abs(a[Shot] - b[Shot]) + Abs(a[Scan] - b[Scan])
  {
    var d0 := Abs(a[Reception] - b[Reception]);
    var d1 := Abs(a[Touch] - b[Touch]);
    var d2 := Abs(a[Pass] - b[Pass]);
    var d3 := Abs(a[Shot] - b[Shot]);
    var d4 := Abs(a[Scan] - b[Scan]);
    calc {
      Variance(a, b);
      VarianceFold([Reception, Touch, Pass, Shot, Scan], 0, a, b);
      VarianceFold([Touch, Pass, Shot, Scan], d0, a, b);
      VarianceFold([Pass, Shot, Scan], d0 + d1, a, b);
      VarianceFold([Shot, Scan], d0 + d1 + d2, a, b);
      VarianceFold([Scan], d0 + d1 + d2 + d3, a, b);
      VarianceFold([], d0 + d1 + d2 + d3 + d4, a, b);
    }
  }

  /** The feedback shown on the session report. */
  datatype Tier =
    | Top   // "Eagle Eye": top-level accuracy
    | Mid   // "Good game": more training needed
    | Low   // "AI wins this round"

  /** The tier for a variance: below 10 is top, 10 to 30 inclusive is mid,
      above 30 is low. */
  function FeedbackTier(variance: int): (r: Tier)
    ensures r == Top <==> variance < 10
    ensures r == Mid <==> 10 <= variance <= 30
    ensures r == Low <==> variance > 30
  {
    if variance < 10 then Top
    else if variance <= 30 then Mid
    else Low
  }

  /** Position of a tier from best (0) to worst (2). */
  function TierOrder(t: Tier): nat {
    match t
    case Top => 0
    case Mid => 1
    case Low => 2
  }

  /** A lower variance never earns a worse tier. */
  lemma TierMonotone(v: int, w: int)
    requires v <= w
    ensures TierOrder(FeedbackTier(v)) <= TierOrder(FeedbackTier(w))
  {
  }

  /** The tier boundaries, at the values on either side of each. */
  lemma TierBoundaries()
    ensures FeedbackTier(9) == Top && FeedbackTier(10) == Mid
    ensures FeedbackTier(30) == Mid && FeedbackTier(31) == Low
  {
  }

  /** Counts equal to the targets score 0, the top tier. */
  lemma PerfectSessionIsTop()
    ensures Complete(TARGETS) && TotalVariance(TARGETS) == 0 && FeedbackTier(TotalVariance(TARGETS)) == Top
  {
    TargetsComplete();
  }

  /** A session that misses four passes, the shot and eight scans scores
      4 + 1 + 8 = 13, the mid tier. */
  lemma ShortSessionIsMid()
    ensures var c := map[Pass := 10, Shot := 0, Scan := 10, Touch := 5, Reception := 10];
      Complete(c) && TotalVariance(c) == 13 && FeedbackTier(TotalVariance(c)) == Mid
  {
    var c := map[Pass := 10, Shot := 0, Scan := 10, Touch := 5, Reception := 10];
    assert Complete(c) by {
      forall t: ActionType ensures t in c {
        match t
        case Reception =>
        case Touch =>
        case Pass =>
        case Shot =>
        case Scan =>
      }
    }
    TargetsComplete();
    VarianceExpanded(c, TARGETS);
  }
}
