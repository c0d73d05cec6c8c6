/** `ScoreService`, identical in both lineages: one integer that only changes by what is
    added to it. */
module Scores {
  /** The points of `adds`, added up. */
  function Sum(adds: seq<int>): int
  {
    if adds == [] then 0 else Sum(adds[..|adds| - 1]) + adds[|adds| - 1]
  }

  /** Adding one more entry adds exactly its points. */
  lemma {:induction false} SumAppend(adds: seq<int>, points: int)
    ensures Sum(adds + [points]) == Sum(adds) + points
  {
    assert (adds + [points])[..|adds|] == adds;
  }

  class ScoreService {
    var score: int
    /** Every amount passed to `AddScore` so far, oldest first. */
    ghost var added: seq<int>

    /** The score is the sum of everything added. */
    ghost predicate Valid()
      reads this
    {
      score == Sum(added)
    }

    /** A new service starts at zero, with nothing added. */
    constructor ()
      ensures Valid() && score == 0 && added == []
    {
      score := 0;
      added := [];
    }

    /** The `Score` property: reading it changes nothing, and under `Valid` it is the sum
        of the points added. */
    function Score(): (r: int)
      requires Valid()
      reads this
      ensures r == Sum(added)
    {
      score
    }

    /** `AddScore(points)`: the score grows by exactly `points`, and it stays the sum of
        everything added. */
    method AddScore(points: int)
      requires Valid()
      modifies this
      ensures Valid()
      ensures score == old(score) + points && added == old(added) + [points]
    {
      SumAppend(added, points);
      score := score + points;
      added := added + [points];
    }
  }
}
