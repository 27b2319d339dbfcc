/** The per-chapter review log and what the page derives from it each time the log is
    delivered: the best review, the average rating and the top-rated badge. */
module Reviews {
  import opened Wrappers

  /** One entry of a chapter's review log. Entries written by this page always carry a
      text (possibly empty); `text` is None for an entry whose record has no text field. */
  datatype Review = Review(rating: int, text: Option<string>, time: string)

  /** The number of UTF-16 code units JavaScript's `length` reports for `s`: one for a
      character of the Basic Multilingual Plane, two (a surrogate pair) for any other. */
  function Utf16Length(s: string): (n: nat)
    ensures |s| <= n <= 2 * |s|
    ensures (forall i :: 0 <= i < |s| ==> s[i] as int < 0x10000) ==> n == |s|
  {
    if s == [] then 0
    else Utf16Length(s[..|s| - 1]) + (if s[|s| - 1] as int < 0x10000 then 1 else 2)
  }

  /** `(review.text || "").length`: a missing text counts as length 0, a present one by
      its UTF-16 code units. */
  function TextLength(r: Review): (n: nat)
    ensures r.text.None? ==> n == 0
    ensures r.text.Some? ==> |r.text.value| <= n <= 2 * |r.text.value|
  {
    match r.text
    case None => 0
    case Some(t) => Utf16Length(t)
  }

  /** Strictly better: a higher rating, or the same rating and a longer text. */
  predicate Beats(curr: Review, best: Review)
  {
    curr.rating > best.rating || (curr.rating == best.rating && TextLength(curr) > TextLength(best))
  }

  /** One step of the reduction that picks the best review: the first entry seen becomes
      the incumbent; a later entry replaces it only with a strictly higher rating, or with
      the same rating and a strictly longer text. */
  function KeepBetter(best: Option<Review>, curr: Review): (kept: Review)
    ensures kept == curr || (best.Some? && kept == best.value)
    ensures best.Some? ==> !Beats(best.value, kept) && !Beats(curr, kept)
    ensures best.Some? && !Beats(curr, best.value) ==> kept == best.value
  {
    if best.None? then curr
    else if Beats(curr, best.value) then curr
    else best.value
  }

  /** `getBestReview`: a left fold of KeepBetter over the log, starting from null. */
  function BestReview(reviews: seq<Review>): (best: Option<Review>)
    ensures best.None? <==> reviews == []
    ensures best.Some? ==> best.value in reviews
  {
    if reviews == [] then None
    else
      var prefix := reviews[..|reviews| - 1];
      var r := KeepBetter(BestReview(prefix), reviews[|reviews| - 1]);
      assert r in prefix ==> r in reviews;
      Some(r)
  }

  /** Entry `k` has the highest rating in the log, the longest text among the entries
      with that rating, and every earlier entry is strictly worse: lower rated, or equally
      rated with a strictly shorter text. */
  ghost predicate IsFirstBest(reviews: seq<Review>, k: int)
  {
    && 0 <= k < |reviews|
    && (forall j :: 0 <= j < |reviews| ==> reviews[j].rating <= reviews[k].rating)
    && (forall j :: 0 <= j < |reviews| && reviews[j].rating == reviews[k].rating ==>
          TextLength(reviews[j]) <= TextLength(reviews[k]))
    && (forall j :: 0 <= j < k && reviews[j].rating == reviews[k].rating ==>
          TextLength(reviews[j]) < TextLength(reviews[k]))
  }

  /** An appended entry that does not beat the first best entry leaves it the first best. */
  lemma FirstBestKeptOnAppend(prefix: seq<Review>, k: int, last: Review)
    requires IsFirstBest(prefix, k) && !Beats(last, prefix[k])
    ensures IsFirstBest(prefix + [last], k)
  {
    var reviews := prefix + [last];
    assert forall j :: 0 <= j < |prefix| ==> reviews[j] == prefix[j];
    assert reviews[|prefix|] == last;
  }

  /** An appended entry that beats the first best entry is the new first best. */
  lemma FirstBestReplacedOnAppend(prefix: seq<Review>, k: int, last: Review)
    requires IsFirstBest(prefix, k) && Beats(last, prefix[k])
    ensures IsFirstBest(prefix + [last], |prefix|)
  {
    var reviews := prefix + [last];
    assert forall j :: 0 <= j < |prefix| ==> reviews[j] == prefix[j];
    assert reviews[|prefix|] == last;
  }

  /** The fold returns the first of the highest-rated, longest-text entries. */
  lemma {:induction false} BestReviewIsFirstBest(reviews: seq<Review>)
    requires reviews != []
    ensures exists k :: IsFirstBest(reviews, k) && BestReview(reviews) == Some(reviews[k])
  {
    var n := |reviews|;
    var prefix := reviews[..n - 1];
    var last := reviews[n - 1];
    assert reviews == prefix + [last];
    if prefix == [] {
      assert IsFirstBest(reviews, 0);
    } else {
      BestReviewIsFirstBest(prefix);
      var k :| IsFirstBest(prefix, k) && BestReview(prefix) == Some(prefix[k]);
      if Beats(last, prefix[k]) {
        FirstBestReplacedOnAppend(prefix, k, last);
        assert BestReview(reviews) == Some(reviews[n - 1]);
      } else {
        FirstBestKeptOnAppend(prefix, k, last);
        assert BestReview(reviews) == Some(reviews[k]);
      }
    }
  }

  /** At most one entry is the first best one, so the choice is fully determined. */
  lemma FirstBestUnique(reviews: seq<Review>, i: int, j: int)
    requires IsFirstBest(reviews, i) && IsFirstBest(reviews, j)
    ensures i == j
  {
    assert reviews[i].rating == reviews[j].rating;
    assert TextLength(reviews[i]) == TextLength(reviews[j]);
  }

  /** Three equally rated entries whose texts have lengths 1, 2 and 2: the second one
      wins, being the first of the two longest. */
  lemma FirstOfLongestTiesWins()
    ensures var log := [Review(5, Some("a"), "d1"), Review(5, Some("ab"), "d2"), Review(5, Some("ab"), "d3")];
            BestReview(log) == Some(log[1])
  {
    var log := [Review(5, Some("a"), "d1"), Review(5, Some("ab"), "d2"), Review(5, Some("ab"), "d3")];
    BestReviewIsFirstBest(log);
    var k :| IsFirstBest(log, k) && BestReview(log) == Some(log[k]);
    assert IsFirstBest(log, 1);
    FirstBestUnique(log, k, 1);
  }

  /** A character outside the Basic Multilingual Plane counts two: a one-emoji text is
      longer than a one-letter text, so it wins the tie. */
  lemma SurrogatePairCountsTwo()
    ensures var log := [Review(5, Some("a"), "d1"), Review(5, Some("\U{1F600}"), "d2")];
            BestReview(log) == Some(log[1])
  {
    var log := [Review(5, Some("a"), "d1"), Review(5, Some("\U{1F600}"), "d2")];
    assert TextLength(log[0]) == 1;
    assert TextLength(log[1]) == 2;
    BestReviewIsFirstBest(log);
    var k :| IsFirstBest(log, k) && BestReview(log) == Some(log[k]);
    assert IsFirstBest(log, 1);
    FirstBestUnique(log, k, 1);
  }

  /** `reviews.reduce((s, r) => s + r.rating, 0)`. */
  function RatingSum(reviews: seq<Review>): int
  {
    if reviews == [] then 0 else RatingSum(reviews[..|reviews| - 1]) + reviews[|reviews| - 1].rating
  }

  /** The sum distributes over concatenation, so appending a review adds its rating. */
  lemma {:induction false} RatingSumAppend(a: seq<Review>, b: seq<Review>)
    ensures RatingSum(a + b) == RatingSum(a) + RatingSum(b)
  {
    if b != [] {
      var b' := b[..|b| - 1];
      assert (a + b)[..|a + b| - 1] == a + b';
      RatingSumAppend(a, b');
    } else {
      assert a + b == a;
    }
  }

  /** When every rating is a star count from 1 to 5, the sum lies between one and five
      per review, so the average is within the star range too. */
  lemma {:induction false} RatingSumWithinStars(reviews: seq<Review>)
    requires forall i :: 0 <= i < |reviews| ==> 1 <= reviews[i].rating <= 5
    ensures |reviews| <= RatingSum(reviews) <= 5 * |reviews|
  {
    if reviews != [] {
      RatingSumWithinStars(reviews[..|reviews| - 1]);
    }
  }

  /** The average rating of a non-empty log, as an exact quotient. */
  function Average(reviews: seq<Review>): (avg: real)
    requires reviews != []
    ensures avg * (|reviews| as real) == RatingSum(reviews) as real
  {
    (RatingSum(reviews) as real) / (|reviews| as real)
  }

  /** Whether `updateTopRatedBadge` displays the badge for a log: `average >= 4`. The page
      only calls it on a non-empty log; it then shows exactly when the ratings sum to at
      least four per review. */
  predicate ShowsTopRatedBadge(reviews: seq<Review>)
    requires reviews != []
    ensures ShowsTopRatedBadge(reviews) <==> RatingSum(reviews) >= 4 * |reviews|
  {
    AverageAtLeastFourIffSum(reviews);
    Average(reviews) >= 4.0
  }

  lemma AverageAtLeastFourIffSum(reviews: seq<Review>)
    requires reviews != []
    ensures Average(reviews) >= 4.0 <==> RatingSum(reviews) >= 4 * |reviews|
  {
    var excess := Average(reviews) - 4.0;
    assert excess * (|reviews| as real) == (RatingSum(reviews) - 4 * |reviews|) as real;
    PositiveFactorKeepsSign(excess, |reviews| as real);
  }

  lemma PositiveFactorKeepsSign(x: real, n: real)
    requires n > 0.0
    ensures x >= 0.0 <==> x * n >= 0.0
  {
    if x < 0.0 {
      assert x * n < 0.0;
    }
  }

  /** What the review panel of a chapter shows once its log is delivered. The average
      displayed is `ratingSum / count`. */
  datatype Panel = Panel(best: Review, count: nat, ratingSum: int, topRated: bool)

  /** The callback that renders a delivered log: nothing for an empty log (it returns
      before dividing); otherwise the best review, the number of reviews, their rating sum
      and whether the top-rated badge is displayed. */
  function ReviewPanel(reviews: seq<Review>): (p: Option<Panel>)
    ensures p.None? <==> reviews == []
    ensures p.Some? ==> p.value.count == |reviews|
    ensures p.Some? ==> p.value.ratingSum == RatingSum(reviews)
    ensures p.Some? ==> (p.value.topRated <==> RatingSum(reviews) >= 4 * |reviews|)
    ensures p.Some? ==> exists k :: IsFirstBest(reviews, k) && p.value.best == reviews[k]
  {
    if reviews == [] then None
    else
      BestReviewIsFirstBest(reviews);
      Some(Panel(BestReview(reviews).value, |reviews|, RatingSum(reviews), ShowsTopRatedBadge(reviews)))
  }

  /** What the rating header shows: the `avgRating` line (the average `ratingSum / count`
      and the count) and whether the `topRatedBadge` element is displayed. Both elements
      are shared by all chapters. */
  datatype Header = Header(ratingSum: int, count: nat, topRated: bool)

  /** The header after a chapter's log is delivered, as the page updates it. A non-empty
      log rewrites both elements; an empty log returns before touching them, so whatever
      the previous chapter left (`before`; None is the page's initial markup) stays. */
  function ShownHeader(before: Option<Header>, reviews: seq<Review>): (h: Option<Header>)
    ensures reviews == [] ==> h == before
    ensures reviews != [] ==> h.Some? && h.value.count == |reviews|
    ensures reviews != [] ==> h.value.ratingSum == RatingSum(reviews)
    ensures reviews != [] ==> (h.value.topRated <==> RatingSum(reviews) >= 4 * |reviews|)
  {
    match ReviewPanel(reviews)
    case None => before
    case Some(p) => Some(Header(p.ratingSum, p.count, p.topRated))
  }

  /** Moving from a chapter rated 5 to a chapter with no reviews leaves the badge on. */
  lemma StaleBadgeAfterEmptyLog()
    ensures var rated := ShownHeader(None, [Review(5, Some("great"), "d1")]);
            var after := ShownHeader(rated, []);
            after.Some? && after.value.topRated && after.value.count == 1
  {
    var log := [Review(5, Some("great"), "d1")];
    assert RatingSum(log) == 5;
  }

  /** The header as it evidently should be: derived from the delivered log alone, empty
      (no average, badge hidden) for a chapter without reviews. */
  function IntendedHeader(reviews: seq<Review>): (h: Option<Header>)
    ensures h.None? <==> reviews == []
    ensures h.Some? ==> h.value.count == |reviews|
    ensures h.Some? ==> h.value.ratingSum == RatingSum(reviews)
    ensures h.Some? ==> (h.value.topRated <==> RatingSum(reviews) >= 4 * |reviews|)
  {
    ShownHeader(None, reviews)
  }
}
