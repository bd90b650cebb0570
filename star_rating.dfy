/**
 * `StarRatingView.imageName(for:)`: which symbol the star at a given index shows for a
 * rating. The view draws the stars at indices 0 to 4. Swift's `Double` is modelled as `real`.
 */
module StarRating {
  import opened Wrappers

  const Filled := "star.fill"
  const Half := "star.leadinghalf.fill"
  const Empty := "star"

  /** How many stars the view draws (`ForEach(0..<5)`). */
  const StarCount := 5

  /** The symbol for the star at `index`; a missing rating counts as 0. */
  function ImageName(rating: Option<real>, index: int): (name: string)
    ensures name == Filled <==> rating.GetOr(0.0) - index as real >= 1.0
    ensures name == Half <==> 0.5 <= rating.GetOr(0.0) - index as real < 1.0
    ensures name == Empty <==> rating.GetOr(0.0) - index as real < 0.5
  {
    var starValue := rating.GetOr(0.0) - index as real;
    if starValue >= 1.0 then Filled
    else if starValue >= 0.5 then Half
    else Empty
  }

  /** The row of symbols the view shows. */
  function Stars(rating: Option<real>): seq<string> {
    seq(StarCount, i requires 0 <= i < StarCount => ImageName(rating, i))
  }

  /** Filled ranks above half, half above empty. */
  function Rank(name: string): nat {
    if name == Filled then 2 else if name == Half then 1 else 0
  }

  /**
   * Along the row the symbols never go up: filled stars, then at most one half star,
   * then empty stars.
   */
  lemma StarsOrdered(rating: Option<real>)
    ensures forall i, j :: 0 <= i < j < StarCount ==> Rank(Stars(rating)[i]) >= Rank(Stars(rating)[j])
    ensures forall i, j :: 0 <= i < j < StarCount ==> !(Stars(rating)[i] == Half && Stars(rating)[j] == Half)
  {
    forall i, j | 0 <= i < j < StarCount
      ensures Rank(Stars(rating)[i]) >= Rank(Stars(rating)[j])
      ensures !(Stars(rating)[i] == Half && Stars(rating)[j] == Half)
    {
      var r := rating.GetOr(0.0);
      assert r - i as real >= r - j as real + 1.0;
    }
  }

  /** A rating of 5 or more fills every star. */
  lemma FullRatingAllFilled(rating: real)
    requires rating >= 5.0
    ensures Stars(Some(rating)) == [Filled, Filled, Filled, Filled, Filled]
  {
  }

  /** No rating, like a rating of 0, leaves every star empty. */
  lemma MissingRatingAllEmpty()
    ensures Stars(None) == [Empty, Empty, Empty, Empty, Empty]
    ensures Stars(None) == Stars(Some(0.0))
  {
  }

  /** A rating of 3.5 shows three filled stars, a half star and an empty star. */
  lemma ThreeAndAHalf()
    ensures Stars(Some(3.5)) == [Filled, Filled, Filled, Half, Empty]
  {
  }
}
