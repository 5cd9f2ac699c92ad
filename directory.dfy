/** The public business directory: every listed profile, with the ratings of
    its own reviews joined in, gets its average rating and review count. */
module Directory {
  import opened Reviews

  /** A public profile row as the directory query returns it, with the
      `rating` of each of its reviews (`null` when the join gave none). */
  datatype Business = Business(
    id: string,
    businessName: string,
    slug: string,
    category: string,
    city: string,
    country: string,
    servicesDescription: string,
    reviews: Option<seq<real>>)

  /** `{ ...business, averageRating, totalReviews }`: the profile as it was,
      plus the two figures. */
  datatype BusinessWithStats = BusinessWithStats(business: Business, averageRating: real, totalReviews: nat)

  /** The stats of one business, from its own reviews only:
      `reviews.reduce(sum) / reviews.length`, then `avgRating || 0`. */
  function WithStats(b: Business): (e: BusinessWithStats)
    ensures e.business == b
    ensures e.totalReviews == |OrEmpty(b.reviews)|
    ensures e.averageRating == Mean(OrEmpty(b.reviews))
  {
    var ratings := OrEmpty(b.reviews);
    var average := if |ratings| == 0 then 0.0 else Sum(ratings) / (|ratings| as real);
    BusinessWithStats(b, average, |ratings|)
  }

  /** `businesses?.map(business => ...)`: `null` stays `null`, otherwise one
      entry per business in the query's order. */
  function BusinessesWithStats(businesses: Option<seq<Business>>): (r: Option<seq<BusinessWithStats>>)
    ensures r.None? <==> businesses.None?
    ensures r.Some? ==> |r.value| == |businesses.value|
    ensures r.Some? ==> forall i :: 0 <= i < |r.value| ==> r.value[i] == WithStats(businesses.value[i])
  {
    match businesses
    case None => None
    case Some(list) => Some(seq(|list|, i requires 0 <= i < |list| => WithStats(list[i])))
  }

  /** An entry depends on its own business only: two lists that agree on a
      business give it the same figures, whatever the other businesses are. */
  lemma NoLeakage(a: seq<Business>, b: seq<Business>, i: nat, j: nat)
    requires i < |a| && j < |b| && a[i] == b[j]
    ensures BusinessesWithStats(Some(a)).value[i] == BusinessesWithStats(Some(b)).value[j]
  {
  }

  /** Listing order is the query's order: the entry at each position is the
      business at that position. */
  lemma KeepsOrder(list: seq<Business>, i: nat)
    requires i < |list|
    ensures BusinessesWithStats(Some(list)).value[i].business == list[i]
  {
  }

  /** A business with ratings on the 1..5 scale gets an average on that
      scale; one without reviews gets 0. */
  lemma AverageOnScale(b: Business)
    requires forall k :: 0 <= k < |OrEmpty(b.reviews)| ==> 1.0 <= OrEmpty(b.reviews)[k] <= 5.0
    ensures OrEmpty(b.reviews) == [] ==> WithStats(b).averageRating == 0.0
    ensures OrEmpty(b.reviews) != [] ==> 1.0 <= WithStats(b).averageRating <= 5.0
  {
    if OrEmpty(b.reviews) != [] {
      MeanWithin(OrEmpty(b.reviews), 1.0, 5.0);
    }
  }
}
