# Reader page state and review aggregation

A model of the state-keeping core of a chapter-based reading page (`script.js`).
The page keeps track of which chapter is on display and persists it. It keeps the
font size within 14 to 22 pixels. It flips and persists display modes. It accepts
comments and star-rated reviews into append-only per-chapter logs. For each
chapter's review log it works out the best review, the average rating and whether
the "top rated" badge shows.

Modules, one per concern:

- `Wrappers`: `Option`.
- `Storage`: the browser key/value store. Values are strings. Integers are written as
  `String(i)` and read back as `Number(s) || fallback`. Flags are written as
  `"true"`/`"false"` and read back as `=== "true"`.
- `Text`: `String.prototype.trim`.
- `Comments`: the comment record and the rule that refuses an empty name or text.
- `Reviews`: the review record and the pure reductions over a review log: the
  best-review fold, the rating sum, the average, the badge, the rendered panel and
  the rating header.
- `Reader`: the class `ReaderPage`. Its fields are the page's mutable state: the
  current chapter, the modes, whether the page script ran to its end, the selected
  rating, the store and the two per-chapter logs. Its methods are the page's event
  handlers.

The store is a `map<string, string>`. The realtime database's `push` to
`comments/chapter_<n>` or `reviews/chapter_<n>` is an append to the sequence
that chapter `n` maps to. Text lengths are counted in UTF-16 code units, as
JavaScript's `length` counts them.

The page object's invariant `Valid()` says three things:

- The infinite and dark flags in memory agree with what the store would give back
  on a reload.
- As long as there is at least one chapter, so does the current chapter.
- On a page whose script stopped early, no rating is selected.

Facts about the code that the model keeps:

- The chapter restored on load is not range-checked (`script.js:2`).
- Only a rating of 0 is refused (`script.js:160`), and `rate` stores any value.
- There is no scan for a top-rated chapter across chapters. The badge is per chapter,
  shown when that chapter's average is at least 4 (`script.js:233`).
- Function declarations are hoisted, so every handler exists even when the script
  stops at its first `showChapter` call (`script.js:93`). Only the handlers that touch
  `selectedRating`, declared at `script.js:144`, then throw.

## Model

| member | source | states |
|---|---|---|
| `Storage.FormatNat` | script.js:11 | the numeral written for an index is a non-empty digit string with no leading zero |
| `Storage.FormatInt` | script.js:11 | the string written for an integer starts with a minus sign exactly when it is negative, and is digits otherwise |
| `Storage.ParseInt` | script.js:2 | `Number` gives 0 on the empty string, a non-negative value on a digit string, and a value only for numerals; a negative value only after a minus sign |
| `Storage.NumberOr` | script.js:2 | `Number(stored) \|\| fallback` is the fallback for a missing key, and otherwise either the fallback or the non-zero number the stored string denotes; a non-zero number always wins |
| `Storage.BoolString` | script.js:53 | a flag is written as "true" or "false" and reads back as itself |
| `Storage.IsTrue` | script.js:3 | only the stored string "true" reads as true; a missing key or "false" reads as false |
| `Storage.ParseFormatInt` | script.js:11 | reading back the string written for an integer gives that integer |
| `Storage.NumberOrFormatInt` | script.js:71 | `Number(written) \|\| fallback` on a written integer gives it back, except 0, which gives the fallback |
| `Text.TrimStart` | script.js:125 | the result is a suffix that does not start with white space, and only white space was dropped |
| `Text.TrimEnd` | script.js:125 | the result is a prefix that does not end with white space, and only white space was dropped |
| `Text.Trim` | script.js:125-126 | the result is the infix of the input between a white-space prefix and a white-space suffix; it is empty exactly when the input is all white space, and otherwise neither starts nor ends with white space |
| `Text.TrimIdempotent` | script.js:125-126 | trimming an already trimmed value changes nothing |
| `Comments.NewComment` | script.js:125-137 | a submission is refused exactly when the name or the text is empty or all white space; otherwise the record holds the trimmed, non-empty name and text and the given time |
| `Reviews.Utf16Length` | script.js:241 | a text's `length` is between its character count and twice that, and equals the character count when every character is in the Basic Multilingual Plane |
| `Reviews.TextLength` | script.js:241 | a missing text has length 0; a present one between its character count and twice that |
| `Reviews.KeepBetter` | script.js:237-244 | one reduction step keeps the incumbent or the arrival, neither of them beats what is kept, and an arrival that is not strictly better leaves the incumbent |
| `Reviews.BestReview` | script.js:236-245 | the fold yields null exactly on an empty log, and otherwise an entry of the log |
| `Reviews.BestReviewIsFirstBest` | script.js:236-244 | on a non-empty log the fold yields the entry with the highest rating, the longest text among the entries with that rating (missing text counts as 0), and the first such entry in log order |
| `Reviews.FirstBestKeptOnAppend` | script.js:243 | an arriving review that is not strictly better leaves the first-best entry in place |
| `Reviews.FirstBestReplacedOnAppend` | script.js:239-242 | an arriving review with a higher rating, or the same rating and a longer text, becomes the first-best entry |
| `Reviews.FirstBestUnique` | script.js:236-244 | at most one position satisfies the first-best description, so ties are fully resolved |
| `Reviews.FirstOfLongestTiesWins` | script.js:240-242 | among ratings 5/"a", 5/"ab", 5/"ab" the second entry wins, not the third |
| `Reviews.SurrogatePairCountsTwo` | script.js:240-241 | a one-emoji text is longer than a one-letter text, so among 5/"a", 5/emoji the second entry wins |
| `Reviews.RatingSumAppend` | script.js:231 | the rating sum of two concatenated logs is the sum of their sums |
| `Reviews.RatingSumWithinStars` | script.js:222 | when every rating is from 1 to 5, the sum is between one and five per review |
| `Reviews.Average` | script.js:221-222 | the average of a non-empty log times its length is the rating sum |
| `Reviews.ShowsTopRatedBadge` | script.js:230-233 | on the non-empty logs the page passes, the badge shows exactly when the ratings sum to at least 4 times the number of reviews |
| `Reviews.ReviewPanel` | script.js:186-216 | nothing is rendered for an empty log; otherwise the panel holds the first-best review, the review count, the rating sum, and a badge shown exactly when the sum is at least 4 per review |
| `Reviews.ShownHeader` | script.js:186-233 | a non-empty log rewrites the average line and the badge from that log; an empty log leaves whatever was shown before |
| `Reviews.StaleBadgeAfterEmptyLog` | script.js:189 | after a chapter rated 5, a chapter with no reviews still shows the badge and a count of 1 |
| `Reviews.IntendedHeader` | script.js:189 | the intended header depends on the delivered log alone: nothing for an empty log, otherwise the count, the sum and the badge rule |
| `Reader.Clamp` | script.js:27 | a value below the range snaps to its lower bound, one above to its upper bound, one inside is kept; on an empty range the upper bound is returned |
| `Reader.ReaderPage.constructor` | script.js:1-3 | also lines 60-62, 93 and 144: on load the chapter is `Number(stored) \|\| 0`, unchecked; the flags are true exactly when stored as "true"; the script runs to its end, persisting the chapter, exactly when that chapter exists; no rating is selected |
| `Reader.ReaderPage.ShowChapter` | script.js:6-21 | an index with a chapter becomes current and is persisted, so a reload resumes there, and nothing else changes; any other index changes nothing |
| `Reader.ReaderPage.ChangeChapter` | script.js:26-29 | the new index is the clamp of current + step to the chapter range; with at least one chapter it is in range, shown and persisted; with none it is -1 and nothing is persisted |
| `Reader.ReaderPage.ToggleInfinite` | script.js:50-54 | the infinite flag is negated and its new value persisted; nothing else changes |
| `Reader.ReaderPage.ToggleDarkMode` | script.js:56-59 | the dark theme is negated and its new state persisted; nothing else changes |
| `Reader.ReaderPage.ToggleComicMode` | script.js:65-67 | the comic theme is negated and not persisted |
| `Reader.ReaderPage.FontSize` | script.js:70-76 | the stored size becomes the clamp of (stored size, or 16 when absent, 0 or unparsable) + change to 14..22, and it reads back as that value |
| `Reader.ReaderPage.Rate` | script.js:146-151 | the selected rating becomes the given value, unvalidated; on a page whose script stopped early nothing changes |
| `Reader.ReaderPage.AddComment` | script.js:124-140 | refused, with no log changed, exactly when the name or text is all white space; otherwise exactly one trimmed record is appended to the current chapter's log, earlier entries and other chapters untouched |
| `Reader.ReaderPage.SaveReview` | script.js:159-177 | refused, with no log changed, exactly when the script stopped early or no rating is selected; otherwise exactly one record with the selected rating and trimmed text is appended to the current chapter's log, raising its rating sum by that rating; the selection is 0 afterwards |
| `Reader.ToggleInfiniteTwice` | script.js:50-54 | toggling infinite mode twice restores the original flag and leaves it persisted |
| `Reader.RestoredChapter` | script.js:2 | the intended restore gives a chapter that exists whenever there is one, and the stored one whenever it exists |
| `Reader.StoredChapterBeyondLastAbortsLoad` | script.js:2 | a stored chapter 7 on a three-chapter page is loaded as 7, which has no chapter, while the intended restore gives 0 |

## Findings

| source | as written | input that shows it | evidently intended | confidence | as-written member | corrected member |
|---|---|---|---|---|---|---|
| script.js:93 | The stored chapter is displayed unchecked. An index with no chapter throws at line 8, so the script stops before line 144, `selectedRating` is never initialised, and every later `rate` or `saveReview` throws. | store `chapter` = "7" on a page with 3 chapters | resume at the stored chapter only when it exists, otherwise at chapter 0 | not executed | `Reader.StoredChapterBeyondLastAbortsLoad` | `Reader.RestoredChapter` |
| script.js:189 | An empty delivered log returns before the average line and the badge are updated, so the previous chapter's average and badge stay on screen. | a chapter with one 5-star review, then a chapter with no reviews | clear the average and hide the badge for an empty log | not executed | `Reviews.StaleBadgeAfterEmptyLog` | `Reviews.IntendedHeader` |

`ReaderPage` keeps the code's behaviour, so that its members describe the page as it
runs: its constructor loads the chapter unchecked, and `AbortedLoadRefusesReviews`
shows that no review can be saved after such a load.

## Left out

- DOM rendering is not modelled because it only changes what is displayed. This covers class toggles, the chapter title, the progress bar, star highlighting, alerts, clearing of input fields and the HTML of comment and review bubbles (`script.js:7-8`, `13-14`, `79-86`, `102-121`, `148-150`, `173-174`, `180-213`).
- The debounced scroll save and scroll restore (`script.js:32-47`) are not modelled because they are driven by timers. The last offset written before the 200 ms quiet period wins.
- The realtime database's `on`/`off` subscriptions and asynchronous delivery are not modelled, because they belong to an external library. A push is an append to the chapter's log. `ReviewPanel` and `ShownHeader` are what the `value` callback renders for a delivered log.
- `ShowChapter` does not model its calls to `restoreScroll`, `updateProgress`, `loadComments` and `renderReviews`, because they are rendering and subscriptions.
- The floating control panel, `syncButtons` and the wrapped toggles (`script.js:248-343`) are not modelled because they are UI chrome. After an aborted load they are never set up.
- Dates are opaque `time` parameters because `toLocaleString` depends on the clock and the locale.
- `Storage.ParseInt` reads only the empty string and optionally signed decimal integer numerals. Any other string reads as NaN, so it gives the fallback. That includes the other forms `Number()` accepts: surrounding white space, `+`, fractions, exponents and hexadecimal. The page itself only ever writes integer numerals.
- The panel and header carry the rating sum and count instead of the floating-point average and its `toFixed(1)` text. `Reviews.Average` is the exact quotient. For rating sums far below 2^50, `avg >= 4` on doubles agrees with the exact comparison.
- Review and comment records are typed. A record whose rating is not an integer, or whose text is present but not a string, is not modelled.
