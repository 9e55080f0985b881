/** What `retrieve` does with the hits of one search: turn each distance
    into a score and keep, in order, the hits that are real (id not
    negative) and score at least the threshold. */
module Retrieval {

  /** `1 - d / 2`: the similarity proxy for a squared L2 distance. Its
      inverse recovers the distance. */
  function Score(d: real): (s: real)
    ensures d == 2.0 * (1.0 - s)
  {
    1.0 - d / 2.0
  }

  /** `scores = 1 - D[0] / 2`, element by element. */
  function Scores(ds: seq<real>): seq<real> {
    seq(|ds|, i requires 0 <= i < |ds| => Score(ds[i]))
  }

  /** A distance of zero (the query vector itself) scores exactly 1. */
  lemma ScoreOfExactMatch()
    ensures Score(0.0) == 1.0
  {
  }

  /** A closer hit never scores lower. */
  lemma ScoreAntitone(d1: real, d2: real)
    requires d1 <= d2
    ensures Score(d1) >= Score(d2)
  {
  }

  /** The threshold on the score is a cut-off on the distance. */
  lemma ScoreThresholdIsDistanceCutoff(d: real, threshold: real)
    ensures Score(d) >= threshold <==> d <= 2.0 * (1.0 - threshold)
  {
  }

  /** A hit survives the filter when it is not padding and not below the
      threshold (a score equal to the threshold is kept). */
  predicate Passes(id: int, score: real, threshold: real) {
    !(id < 0 || score < threshold)
  }

  /** The positions of the hits that survive the filter, in hit order. */
  function Kept(ids: seq<int>, scores: seq<real>, threshold: real): (ps: seq<nat>)
    requires |ids| == |scores|
    ensures |ps| <= |ids|
    ensures forall m :: 0 <= m < |ps| ==> ps[m] < |ids| && Passes(ids[ps[m]], scores[ps[m]], threshold)
    ensures forall m, m' :: 0 <= m < m' < |ps| ==> ps[m] < ps[m']
    decreases |ids|
  {
    if ids == [] then []
    else
      var n := |ids| - 1;
      Kept(ids[..n], scores[..n], threshold) + if Passes(ids[n], scores[n], threshold) then [n] else []
  }

  /** A hit is kept exactly when it passes the filter: nothing that passes
      is dropped. */
  lemma {:induction false} KeptExactly(ids: seq<int>, scores: seq<real>, threshold: real, j: int)
    requires |ids| == |scores|
    ensures j in Kept(ids, scores, threshold) <==> 0 <= j < |ids| && Passes(ids[j], scores[j], threshold)
    decreases |ids|
  {
    if ids != [] {
      var n := |ids| - 1;
      KeptExactly(ids[..n], scores[..n], threshold, j);
    }
  }

  /** The kept positions of a prefix of the hits, extended by one more hit. */
  lemma KeptStep(ids: seq<int>, scores: seq<real>, threshold: real, i: nat)
    requires |ids| == |scores| && i < |ids|
    ensures Kept(ids[..i + 1], scores[..i + 1], threshold)
         == Kept(ids[..i], scores[..i], threshold)
          + if Passes(ids[i], scores[i], threshold) then [i] else []
  {
    assert ids[..i + 1][..i] == ids[..i];
    assert scores[..i + 1][..i] == scores[..i];
  }

  /** Worked example: distances 0.1, 0.4 and 1.0 against threshold 0.75 give
      scores 0.95, 0.8 and 0.5; the first two are kept, the third is not. */
  lemma ThreeHitExample()
    ensures Scores([0.1, 0.4, 1.0]) == [0.95, 0.8, 0.5]
    ensures Kept([0, 1, 2], [0.95, 0.8, 0.5], 0.75) == [0, 1]
  {
    assert [0, 1, 2][..2] == [0, 1];
    assert [0, 1][..1] == [0];
    assert [0.95, 0.8, 0.5][..2] == [0.95, 0.8];
    assert [0.95, 0.8][..1] == [0.95];
  }
}
