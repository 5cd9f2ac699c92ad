/** The review list display rules: the badge colour of a source and the row
    of five stars whose first ones are filled, one card per review. */
module ReviewsList {
  import opened Reviews

  /** The badge colour chosen by the nested ternary on `review.source`. */
  function SourceColor(source: string): (colour: string)
    ensures source == "google" ==> colour == "#34A853"
    ensures source == "yelp" ==> colour == "#FF1A1A"
    ensures source == "trustpilot" ==> colour == "#00B67A"
    ensures source != "google" && source != "yelp" && source != "trustpilot" ==> colour == "#6B7280"
  {
    if source == "google" then "#34A853"
    else if source == "yelp" then "#FF1A1A"
    else if source == "trustpilot" then "#00B67A"
    else "#6B7280"
  }

  /** The comparison is case-sensitive: "Google" gets the fallback grey. */
  lemma CapitalisedSourceIsGrey()
    ensures SourceColor("Google") == "#6B7280"
  {
    assert "Google"[0] != "google"[0];
  }

  /** `[...Array(5)].map((_, i) => i < rating)`: which of the five stars are
      filled. */
  function StarRow(rating: real): (row: seq<bool>)
    ensures |row| == 5
    ensures forall i :: 0 <= i < 5 ==> (row[i] <==> (i as real) < rating)
  {
    seq(5, i requires 0 <= i < 5 => (i as real) < rating)
  }

  function CountTrue(bs: seq<bool>): nat
  {
    if bs == [] then 0 else (if bs[0] then 1 else 0) + CountTrue(bs[1..])
  }

  /** The number of filled stars. */
  function FilledStars(rating: real): nat
  {
    CountTrue(StarRow(rating))
  }

  /** The filled stars come first: a filled star has only filled stars
      before it. */
  lemma FilledStarsFirst(rating: real, i: nat, j: nat)
    requires j < i < 5 && StarRow(rating)[i]
    ensures StarRow(rating)[j]
  {
  }

  /** The five comparisons fill `n` stars where `n` is 0 exactly for ratings
      up to 0, 5 exactly for ratings above 4, and otherwise the rating
      rounded up. */
  lemma FilledStarsCount(rating: real)
    ensures FilledStars(rating) <= 5
    ensures FilledStars(rating) == 0 <==> rating <= 0.0
    ensures FilledStars(rating) == 5 <==> rating > 4.0
    ensures FilledStars(rating) > 0 ==> ((FilledStars(rating) - 1) as real) < rating
    ensures FilledStars(rating) < 5 ==> rating <= (FilledStars(rating) as real)
  {
    var row := StarRow(rating);
    assert row == [0.0 < rating, 1.0 < rating, 2.0 < rating, 3.0 < rating, 4.0 < rating];
    assert row[1..] == [1.0 < rating, 2.0 < rating, 3.0 < rating, 4.0 < rating];
    assert row[1..][1..] == [2.0 < rating, 3.0 < rating, 4.0 < rating];
    assert row[1..][1..][1..] == [3.0 < rating, 4.0 < rating];
    assert row[1..][1..][1..][1..] == [4.0 < rating];
    assert row[1..][1..][1..][1..][1..] == [];
    var b4 := if 4.0 < rating then 1 else 0;
    var b3 := if 3.0 < rating then 1 else 0;
    var b2 := if 2.0 < rating then 1 else 0;
    var b1 := if 1.0 < rating then 1 else 0;
    var b0 := if 0.0 < rating then 1 else 0;
    assert CountTrue(row[1..][1..][1..][1..]) == b4;
    assert CountTrue(row[1..][1..][1..]) == b3 + b4;
    assert CountTrue(row[1..][1..]) == b2 + b3 + b4;
    assert CountTrue(row[1..]) == b1 + b2 + b3 + b4;
    assert CountTrue(row) == b0 + b1 + b2 + b3 + b4;
  }

  /** For a whole-number rating the stars filled are the rating clamped to
      0..5. */
  lemma FilledStarsOfWholeRating(r: int)
    ensures FilledStars(r as real) == if r < 0 then 0 else if r > 5 then 5 else r
  {
    FilledStarsCount(r as real);
  }

  /** What one card of the list shows that the model covers. */
  datatype Card = Card(id: string, source: string, colour: string, stars: seq<bool>)

  function CardOf(r: Review): Card
  {
    Card(r.id, r.source, SourceColor(r.source), StarRow(r.rating))
  }

  /** `reviews.map(review => <card/>)`: one card per review, in order. */
  function Cards(rs: seq<Review>): (cards: seq<Card>)
    ensures |cards| == |rs|
    ensures forall i :: 0 <= i < |rs| ==> cards[i].id == rs[i].id && cards[i].source == rs[i].source
    ensures forall i :: 0 <= i < |rs| ==> cards[i].colour == SourceColor(rs[i].source)
    ensures forall i :: 0 <= i < |rs| ==> cards[i].stars == StarRow(rs[i].rating)
  {
    seq(|rs|, i requires 0 <= i < |rs| => CardOf(rs[i]))
  }
}
