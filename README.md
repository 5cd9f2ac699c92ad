# Review aggregation of the review dashboard

This project is a Dafny model of the computations in a Next.js review
dashboard, with proofs about them. A business owner's fetched reviews are
turned into:

- the monthly "Average Rating Trend" buckets of the analytics page: one bucket
  per `month/year` key, each holding a count, a rating total and an average,
  sorted by the date parsed back out of the key;
- the "Review Volume by Source" list, kept in first-seen order, and the
  number of distinct sources;
- the `reviewsBySource` dictionaries that two reviews pages build;
- the total and the zero-guarded average of the dashboard, of the reviews
  page, of the analytics page and of every business in the public directory;
- display rules: which of the five stars are filled, the badge colour of a
  source, the trend arrow and the "No reviews yet" fallback;
- the profile form's field updater, and the slug of the "View Public Page"
  link.

The modules follow the source files:

| module | file | models |
|---|---|---|
| `Reviews` | `reviews.dfy` | the review row, nullable lists, sums, the zero-guarded mean, `find` |
| `MonthKeys` | `month_keys.dfy` | the `${month}/${year}` key, `split('/')`, `Number()`, `new Date(year, month - 1)` |
| `MonthlyTrend` | `monthly_trend.dfy` | the `monthlyData` reduce (a loop method) and the sort |
| `Analytics` | `analytics.dfy` | the `sourceDistribution` reduce (a loop method), the distinct-source count, the overall average |
| `SourceDictionary` | `source_dictionary.dfy` | the `reviewsBySource` reduce over a dictionary (a loop method), and the same reduce over a JavaScript object |
| `Dashboard` | `dashboard.dfy` | the `metrics` object, the trend arrow, the recent-reviews panel |
| `ReviewsPage` | `reviews_page.dfy` | the reviews page's total, average and dictionary |
| `Directory` | `directory.dfy` | `businessesWithStats` |
| `ReviewsList` | `reviews_list.dfy` | source colours, star rows, one card per review |
| `ProfileForm` | `profile_form.dfy` | `handleChange`, the public-page condition and the slug |

The model has these conventions:

- Ratings and averages are `real`.
- A JavaScript `x / n || 0` becomes an explicit case: `Reviews.Mean` is 0 for
  the empty list, where JavaScript gets NaN and `|| 0` turns it into 0.
- A fetched list that may be `null` is an `Option<seq<Review>>`.
- Each review already carries the calendar `year` and `month` of its date.

The two reduces of the analytics page update their accumulator in place. They
are modelled as methods whose loop reassigns a sequence: `acc[k := updated]`
where the source mutates the entry that `find` returned, and `acc + [entry]`
where it pushes. Each loop keeps a single prefix invariant. One step lemma per
branch proves that the invariant still holds after that branch.

The model follows the code in these points:

- The monthly reduce recomputes `avgRating` on every update
  (src/app/dashboard/analytics/page.tsx:37-39). It does not compute it once
  at the end.
- The trend is the constant 0.2 (src/app/dashboard/page.tsx:35). Nothing
  computes it.
- The directory's `reviews!inner` join (src/app/directory/page.tsx:13)
  leaves out businesses without reviews before the map runs. For a business
  without reviews, the map itself would give 0.
- No operation rejects malformed input. The pages have no error path beyond
  the `null` and NaN guards.
- The dashboard's "Total Reviews" card shows the length of the list that
  `.limit(5)` fetched (src/app/dashboard/page.tsx:23, 33). So it never shows
  more than 5, however many reviews the business has
  (`Dashboard.TotalReviewsIsCapped`).

## Model

| member | source | states |
|---|---|---|
| Reviews.ReviewCount | src/app/dashboard/page.tsx:33 | `reviews?.length \|\| 0` is the list's length, or 0 for a `null` list |
| Reviews.Mean | src/app/dashboard/analytics/page.tsx:136 | the zero-guarded average times the count is the sum for a non-empty list, and it is 0 for the empty list |
| Reviews.MeanWithin | src/app/dashboard/analytics/page.tsx:136 | the mean of values that all lie in `[lo, hi]` lies in `[lo, hi]` |
| Reviews.FindFirst | src/app/dashboard/analytics/page.tsx:35 | `find` returns the first matching position, and none exactly when no element matches |
| MonthKeys.DecimalRoundTrip | src/app/dashboard/analytics/page.tsx:33 | reading back the decimal digits of `String(n)` gives `n` |
| MonthKeys.IntRoundTrip | src/app/dashboard/analytics/page.tsx:51-53 | `Number(String(i)) == i` for every integer, negative ones included |
| MonthKeys.SplitAroundSeparator | src/app/dashboard/analytics/page.tsx:51-52 | `(a + "/" + b).split('/')` is `[a, b]` when neither piece contains "/" |
| MonthKeys.KeyRoundTrip | src/app/dashboard/analytics/page.tsx:33-52 | splitting the key `${month}/${year}` and converting both pieces gives back exactly that month and year |
| MonthKeys.MonthKey | src/app/dashboard/analytics/page.tsx:33 | the bucket key `${month}/${year}`; its contract is given by MonthKeys.KeyRoundTrip and MonthKeys.KeyInjective |
| MonthKeys.MonthIndex | src/app/dashboard/analytics/page.tsx:53 | `new Date(year, month - 1)` counted in months; its contract is given by MonthKeys.MonthIndexIsChronological and MonthKeys.TwoDigitYearTie |
| MonthKeys.KeyInjective | src/app/dashboard/analytics/page.tsx:33 | two reviews share a bucket key only if they share month and year |
| MonthKeys.MonthIndexIsChronological | src/app/dashboard/analytics/page.tsx:53 | outside the two-digit years, the comparator's `Date` order is the (year, month) order, in both directions, and equal times mean the same month |
| MonthKeys.TwoDigitYearTie | src/app/dashboard/analytics/page.tsx:53 | `new Date(50, 0)` and `new Date(1950, 0)` compare equal although their keys differ |
| MonthlyTrend.BucketOf | src/app/dashboard/analytics/page.tsx:35 | `acc.find(entry => entry.month === monthYear)` gives a bucket of that key, and none only when no bucket has it |
| MonthlyTrend.GroupByMonth | src/app/dashboard/analytics/page.tsx:31-49 | one bucket per key; each bucket's count and total are those of the reviews of its key, and its average is total over count with count at least 1; every review's key has a bucket; counts sum to the number of reviews and totals to the sum of all ratings |
| MonthlyTrend.UpdateStep | src/app/dashboard/analytics/page.tsx:36-39 | bumping the found bucket's count and total and recomputing its average keeps every property of the accumulator |
| MonthlyTrend.PushStep | src/app/dashboard/analytics/page.tsx:40-46 | pushing a bucket of count 1 for a key not yet present keeps every property of the accumulator |
| MonthlyTrend.FoundBucketUpdated | src/app/dashboard/analytics/page.tsx:37-39 | the updated bucket holds the count and total of its key after the review, and its average is total over count |
| MonthlyTrend.OtherBucketUnchanged | src/app/dashboard/analytics/page.tsx:35-39 | a review only changes the bucket of its own key |
| MonthlyTrend.ConsistentAverage | src/app/dashboard/analytics/page.tsx:39-45 | every bucket satisfies `avgRating * count == totalRating` |
| MonthlyTrend.MonthTotalOfAbsentKey | src/app/dashboard/analytics/page.tsx:41-46 | a key with no reviews has rating total 0, so the pushed bucket's total is the review's rating |
| MonthlyTrend.SortByMonth | src/app/dashboard/analytics/page.tsx:50-54 | the stable sort with the date comparator; its contract is given by MonthlyTrend.SortSpec |
| MonthlyTrend.InsertByMonth | src/app/dashboard/analytics/page.tsx:50-54 | one insertion step of the sort; its contract is given by MonthlyTrend.InsertPermutes, MonthlyTrend.InsertSorted and MonthlyTrend.InsertDistinct |
| MonthlyTrend.SortSpec | src/app/dashboard/analytics/page.tsx:50-54 | the sort is a permutation (multiset equality) that keeps the count and total sums and keys distinct, and orders buckets by the comparator's time |
| MonthlyTrend.InsertPermutes | src/app/dashboard/analytics/page.tsx:50-54 | one insertion step of the sort adds exactly the inserted bucket |
| MonthlyTrend.InsertSorted | src/app/dashboard/analytics/page.tsx:50-54 | inserting into a sorted list keeps it sorted by the comparator |
| MonthlyTrend.SortedDistinctIsChronological | src/app/dashboard/analytics/page.tsx:50-54 | sorted buckets of distinct keys, from reviews outside the two-digit years, are strictly increasing by (year, month) |
| MonthlyTrend.MonthlyData | src/app/dashboard/analytics/page.tsx:31-54 | `monthlyData` partitions the reviews by key, with counts and totals adding up to the whole list, is sorted by the comparator, and is strictly chronological when no review has a two-digit year |
| MonthlyTrend.BucketPerDistinctMonth | src/app/dashboard/analytics/page.tsx:35-47 | there are exactly as many buckets as distinct months among the reviews |
| MonthlyTrend.OneMonthOneBucket | src/app/dashboard/analytics/page.tsx:31-49 | reviews that all fall in one month give one bucket holding all of them and their mean rating |
| MonthlyTrend.MarchExample | src/app/dashboard/analytics/page.tsx:31-49 | five March 2024 reviews rated 5 to 1 give one bucket with count 5 and average 3 |
| MonthlyTrend.WinterExample | src/app/dashboard/analytics/page.tsx:50-54 | reviews of 2/2024, 11/2023 and 1/2024 give the chart order 11/2023, 1/2024, 2/2024, although "1/2024" sorts before "11/2023" as text |
| Analytics.SourceDistribution | src/app/dashboard/analytics/page.tsx:56-67 | the entries' sources are the distinct sources in first-seen order; each count is the number of reviews with exactly that source, at least 1; the counts sum to the number of reviews |
| Analytics.BumpStep | src/app/dashboard/analytics/page.tsx:57-59 | bumping the found entry keeps the accumulator's invariant |
| Analytics.PushSourceStep | src/app/dashboard/analytics/page.tsx:60-64 | pushing a new source with count 1 keeps the accumulator's invariant |
| Analytics.FirstSeen | src/app/dashboard/analytics/page.tsx:56-67 | the distinct sources in order of first occurrence, the reference the distribution is checked against; its contract is given by Analytics.FirstSeenMembers and Analytics.FirstSeenOrder |
| Analytics.FirstSeenMembers | src/app/dashboard/analytics/page.tsx:56-67 | first-seen order holds each source of the list exactly once |
| Analytics.FirstSeenOrder | src/app/dashboard/analytics/page.tsx:56-67 | an entry comes before another exactly as its source's first review comes before the other's |
| Analytics.DistinctSourceCount | src/app/dashboard/analytics/page.tsx:143 | `new Set(reviews.map(review => review.source)).size`; its contract is given by Analytics.DistinctSourcesAreEntries |
| Analytics.DistinctSourcesAreEntries | src/app/dashboard/analytics/page.tsx:143 | `new Set(sources).size` equals the number of entries of the source distribution |
| Analytics.SourceMetrics | src/app/dashboard/analytics/page.tsx:56-67 | the distribution together with the "Review Sources" figure of line 143, which is its length |
| Analytics.AverageRating | src/app/dashboard/analytics/page.tsx:136 | the overall average is 0 without reviews, otherwise it times the count is the sum of the ratings |
| Analytics.AverageOnScale | src/app/dashboard/analytics/page.tsx:136 | ratings between 1 and 5 give an average between 1 and 5 |
| SourceDictionary.ReviewsBySource | src/app/dashboard/reviews/page.tsx:28-31 | the dictionary's keys are exactly the sources that occur; each value is the number of reviews with exactly that source; the values sum to the number of reviews; a `null` list gives `{}`. This is the intended tally, the corrected half of the finding below; the object the pages build as written is SourceDictionary.JsTally, tied to this one by SourceDictionary.JsTallyAgrees |
| SourceDictionary.TallyStep | src/app/dashboard/reviews/page.tsx:29 | `acc[source] = (acc[source] \|\| 0) + 1` keeps the dictionary a tally of the reviews seen |
| SourceDictionary.BumpTotal | src/app/reviews/page.tsx:28-31 | each step adds one to the sum of the values |
| SourceDictionary.MapTotalRemove | src/app/reviews/page.tsx:28-31 | the sum of the values is one value plus the sum of the others |
| SourceDictionary.Get | src/app/reviews/page.tsx:29 | reading a key that is neither set nor inherited from `Object.prototype` gives `undefined` |
| SourceDictionary.JsTally | src/app/reviews/page.tsx:28-31 | the pages' reduce as written, over an object literal that inherits `Object.prototype`; its contract is given by SourceDictionary.JsTallyAgrees, SourceDictionary.ToStringSourceIsNotCounted and SourceDictionary.ProtoSourceIsDropped |
| SourceDictionary.JsTallyAgrees | src/app/reviews/page.tsx:28-31 | over a JavaScript object, the reduce builds the same tally when no source names an inherited member |
| SourceDictionary.ToStringSourceIsNotCounted | src/app/reviews/page.tsx:29 | a review from source "toString" gets the text of a function plus "1" instead of the count 1 |
| SourceDictionary.ProtoSourceIsDropped | src/app/dashboard/reviews/page.tsx:29 | a review from source "__proto__" leaves the object without an own key, although the source occurs |
| Dashboard.DashboardMetrics | src/app/dashboard/page.tsx:32-36 | `totalReviews` is the length or 0 for `null`, and the trend is the constant 0.2 |
| Dashboard.DashboardAverage | src/app/dashboard/page.tsx:34 | `sum / (reviews?.length \|\| 1) \|\| 0`; its contract is given by Dashboard.DashboardAverageIsMean |
| Dashboard.RecentReviews | src/app/dashboard/page.tsx:23 | the `.limit(5)` result is the first `min(n, 5)` reviews in the database's order |
| Dashboard.TotalReviewsIsCapped | src/app/dashboard/page.tsx:23-33 | the "Total Reviews" card shows the business's number of reviews capped at 5 |
| Dashboard.DashboardAverageIsMean | src/app/dashboard/page.tsx:34 | dividing by `length \|\| 1` gives the sum over the length for a non-empty list, and 0 for an empty or `null` one |
| Dashboard.TrendIndicator | src/app/dashboard/page.tsx:56-63 | the arrow is up and green exactly when the trend is at least 0, otherwise down and red |
| Dashboard.DashboardShowsUp | src/app/dashboard/page.tsx:35-63 | with the constant trend the dashboard always shows the green up arrow |
| Dashboard.RecentReviewsPanel | src/app/dashboard/page.tsx:114-149 | "No reviews yet" appears exactly when the list is `null` or empty; otherwise there is one row per review, in order, with its id, source and stars and no colour badge |
| ReviewsPage.AverageRating | src/app/reviews/page.tsx:24-25 | the average is the zero-guarded mean of the numeric ratings: 0 for a `null` or empty list |
| ReviewsPage.Summarize | src/app/reviews/page.tsx:24-31 | the total is the list length, the average the zero-guarded mean, the dictionary a tally whose values sum to the total, and `{}` for a `null` list. The dictionary is the intended tally of SourceDictionary.ReviewsBySource; the page as written builds SourceDictionary.JsTally, which agrees with it unless a source names an `Object.prototype` member (SourceDictionary.JsTallyAgrees) |
| Directory.WithStats | src/app/directory/page.tsx:22-28 | the profile is carried over unchanged; `totalReviews` is the length of its own reviews (`null` read as empty) and `averageRating` their zero-guarded mean |
| Directory.BusinessesWithStats | src/app/directory/page.tsx:21-29 | `null` stays `null`; otherwise one entry per business, at the same position |
| Directory.NoLeakage | src/app/directory/page.tsx:21-29 | an entry depends only on its own business, whatever the others are |
| Directory.KeepsOrder | src/app/directory/page.tsx:21 | the entry at each position carries the business at that position |
| Directory.AverageOnScale | src/app/directory/page.tsx:23-26 | ratings between 1 and 5 give an average between 1 and 5, and none give 0 |
| ReviewsList.SourceColor | src/components/reviews/ReviewsList.tsx:30-34 | google, yelp and trustpilot map to their colours, and every other source to grey |
| ReviewsList.CapitalisedSourceIsGrey | src/components/reviews/ReviewsList.tsx:31-34 | the match is case-sensitive: "Google" is grey |
| ReviewsList.StarRow | src/components/reviews/ReviewsList.tsx:51-61 | there are five stars, and star `i` is filled exactly when `i < rating` |
| ReviewsList.FilledStarsFirst | src/components/reviews/ReviewsList.tsx:51-61 | filled stars come before empty ones |
| ReviewsList.FilledStarsCount | src/components/reviews/ReviewsList.tsx:51-61 | at most 5 stars are filled; none exactly for ratings up to 0; all five exactly above 4; otherwise the rating rounded up |
| ReviewsList.FilledStarsOfWholeRating | src/app/dashboard/reviews/page.tsx:71-79 | for a whole rating `r` the filled stars number `min(max(r, 0), 5)` |
| ReviewsList.Cards | src/components/reviews/ReviewsList.tsx:24 | one card per review in input order, with the review's id, source, colour and stars |
| ProfileForm.HandleChange | src/components/profile/ProfileForm.tsx:62-68 | only the named field changes; a checkbox stores `checked` and every other control stores `value` |
| ProfileForm.HandleChangeKeepsTypes | src/components/profile/ProfileForm.tsx:62-68 | events from the form's own controls keep a boolean in the checkbox field and no boolean in any other field |
| ProfileForm.ChangesCommute | src/components/profile/ProfileForm.tsx:64-67 | changes to two different fields commute |
| ProfileForm.PublicPageSlug | src/components/profile/ProfileForm.tsx:234-236 | the link exists exactly when `is_public` is true and the name is non-empty text, and it targets the name's slug |
| ProfileForm.Collapse | src/components/profile/ProfileForm.tsx:236 | the slug contains no whitespace and is no longer than the name |
| ProfileForm.Slug | src/components/profile/ProfileForm.tsx:236 | `toLowerCase().replace(/\s+/g, '-')`; its contract is given by ProfileForm.Collapse, ProfileForm.SlugOfWord, ProfileForm.SlugOfRun and ProfileForm.SlugKeepsCharacters |
| ProfileForm.SlugOfWord | src/components/profile/ProfileForm.tsx:236 | a name without whitespace is only lower-cased |
| ProfileForm.SlugOfRun | src/components/profile/ProfileForm.tsx:236 | each maximal run of whitespace becomes exactly one "-" |
| ProfileForm.SlugKeepsCharacters | src/components/profile/ProfileForm.tsx:236 | the slug keeps every character of the name other than whitespace and "-", lower-cased and in order |

## Left out

- Data fetching, sessions, redirects and the auth callback are network I/O. The fetched lists are inputs.
- Ordering by `review_date` or `business_name`, the `.limit(5)` itself and the `reviews!inner` join run in the database. The model takes their result as given.
- Date extraction with `new Date(review_date).getMonth()` and `getFullYear()` depends on the time zone. Each review carries its year and month instead.
- `toFixed`, `toLocaleDateString` and the trend's percentage are locale and float formatting.
- Ratings and averages are IEEE floats in the source. They are exact reals here, so rounding is not modelled.
- The trend itself: the code holds only the constant 0.2, and no algorithm for it is invented.
- `encodeURIComponent` in the slug is percent-encoding (section 2.1 of RFC 3986). Only the slug before encoding is modelled.
- ProfileForm.Lower: lower-cases ASCII letters only, because full Unicode `toLowerCase` is out of reach.
- The key order of `Object.entries` on the source dictionaries is not modelled: the dictionary is a `map`.
- `handleSubmit` in the profile form is I/O.
- The recharts charts, and every page's markup beyond the values listed above, are rendering only.
- SourceDictionary.ToStringSourceIsNotCounted: the function text assumes a V8-style `[native code]` rendering, which differs between engines.
- MonthlyTrend.MonthlyData: chronological order is proved only when no review has a year in 0..99, because `new Date(year, month)` reads such a year as 1900 + year (see MonthKeys.TwoDigitYearTie).
- MonthlyTrend.GroupByMonth: the in-place mutation of the object `find` returned is modelled as replacing the entry at its position. Aliasing of that object beyond the array is not captured.
- Analytics.SourceDistribution: the same in-place update of the found entry is modelled as replacing the entry at its position.

## Findings

| source | as written | input that shows it | evidently intended | confidence | as-written member | corrected member |
|---|---|---|---|---|---|---|
| src/app/reviews/page.tsx:28-31 and src/app/dashboard/reviews/page.tsx:28-31 | `acc[review.source] = (acc[review.source] \|\| 0) + 1` on an object literal `{}` reads inherited `Object.prototype` members | one review from source "toString" stores the text of a function followed by "1"; one from source "__proto__" stores nothing | a per-source count for every source string | not executed | SourceDictionary.ToStringSourceIsNotCounted | SourceDictionary.ReviewsBySource |
