/** The reader page's own state: the chapter on display, the display modes, the
    selected star rating, the browser store the page persists them in, and the two
    per-chapter logs (comments and reviews) held by the realtime database. */
module Reader {
  import opened Wrappers
  import opened Storage
  import opened Text
  import opened Comments
  import opened Reviews

  /** `Math.min(Math.max(x, lo), hi)`: values below `lo` snap to `lo`, values above `hi`
      snap to `hi`, values in between are kept; when the range is empty the result is `hi`. */
  function Clamp(x: int, lo: int, hi: int): (r: int)
    ensures lo <= hi ==> lo <= r <= hi
    ensures lo <= hi && x < lo ==> r == lo
    ensures lo <= hi && hi < x ==> r == hi
    ensures lo <= x <= hi ==> r == x
    ensures hi < lo ==> r == hi
  {
    var atLeast := if x > lo then x else lo;
    if atLeast < hi then atLeast else hi
  }

  /** The log a chapter's database path holds; a path never written to holds nothing. */
  function LogOf<T>(logs: map<int, seq<T>>, chapter: int): seq<T>
  {
    if chapter in logs then logs[chapter] else []
  }

  /** Why a submission appended nothing: an alert for an empty field or a missing rating,
      or a ReferenceError because the page script stopped before declaring the rating. */
  datatype Rejection = EmptyField | NoRatingSelected | ScriptAborted

  /** What a submission did: appended one record, or was refused. */
  datatype Submission = Accepted | Rejected(reason: Rejection)

  const MinFontSize := 14
  const MaxFontSize := 22
  const DefaultFontSize := 16

  class ReaderPage {
    /** The number of chapter elements on the page. */
    const chapterCount: nat
    /** The index of the chapter on display. */
    var current: int
    /** Infinite-scroll mode. */
    var infinite: bool
    /** Whether the page body carries the dark theme. */
    var dark: bool
    /** Whether the page body carries the comic theme (never persisted). */
    var comic: bool
    /** Whether the page script ran past its first `showChapter` call. When that call
        throws, the script stops there and the rating variable is never initialised. */
    var loaded: bool
    /** The star rating picked for the next review; 0 means none. */
    var selectedRating: int
    /** The browser store. */
    var store: Store
    /** The comment log of each chapter, by chapter index. */
    var comments: map<int, seq<Comment>>
    /** The review log of each chapter, by chapter index. */
    var reviews: map<int, seq<Review>>

    /** The chapter the page would open on if it were loaded now. */
    function StoredChapter(): int
      reads this
    {
      NumberOr(Get(store, "chapter"), 0)
    }

    /** The font size the next size change starts from. */
    function FontSetting(): int
      reads this
    {
      NumberOr(Get(store, "font"), DefaultFontSize)
    }

    /** The modes in memory agree with the store, and no rating is ever selected on a
        page whose script stopped early. */
    ghost predicate SettingsValid()
      reads this
    {
      && infinite == IsTrue(Get(store, "infinite"))
      && dark == IsTrue(Get(store, "dark"))
      && (!loaded ==> selectedRating == 0)
    }

    /** The settings are consistent and, while there is a chapter at all, the current
        chapter agrees with the store: a reload resumes where the reader is. */
    ghost predicate Valid()
      reads this
    {
      SettingsValid() && (chapterCount > 0 ==> current == StoredChapter())
    }

    /** Loading the page: the chapter and the modes come from the store as they are,
        with no range check on the chapter; then the chapter is displayed. When there is
        no chapter with that index the display throws and the script stops. */
    constructor (chapterCount: nat, store: Store, comments: map<int, seq<Comment>>,
                 reviews: map<int, seq<Review>>)
      ensures Valid()
      ensures this.chapterCount == chapterCount
      ensures this.comments == comments && this.reviews == reviews
      ensures current == NumberOr(Get(store, "chapter"), 0)
      ensures loaded <==> 0 <= current < chapterCount
      ensures this.store == if loaded then store["chapter" := FormatInt(current)] else store
      ensures infinite == IsTrue(Get(store, "infinite")) && dark == IsTrue(Get(store, "dark"))
      ensures !comic && selectedRating == 0
    {
      this.chapterCount := chapterCount;
      this.store := store;
      this.comments := comments;
      this.reviews := reviews;
      current := NumberOr(Get(store, "chapter"), 0);
      infinite := IsTrue(Get(store, "infinite"));
      dark := IsTrue(Get(store, "dark"));
      comic := false;
      loaded := false;
      selectedRating := 0;
      new;
      loaded := ShowChapter(current);
    }

    /** Displays chapter `i` and persists it. An index with no chapter element fails
        (the page throws before touching any state) and changes nothing. */
    method ShowChapter(i: int) returns (shown: bool)
      requires SettingsValid()
      modifies this`current, this`store
      ensures SettingsValid()
      ensures shown || old(Valid()) ==> Valid()
      ensures shown <==> 0 <= i < chapterCount
      ensures shown ==> current == i && StoredChapter() == i
      ensures shown ==> store == old(store)["chapter" := FormatInt(i)]
      ensures !shown ==> current == old(current) && store == old(store)
    {
      if !(0 <= i < chapterCount) {
        return false;
      }
      current := i;
      store := store["chapter" := FormatInt(i)];
      NumberOrFormatInt(i, 0);
      shown := true;
    }

    /** Moves `step` chapters forward (backward when negative), snapping to the first or
        last chapter. With no chapters at all the index becomes -1 and the display fails. */
    method ChangeChapter(step: int) returns (shown: bool)
      requires Valid()
      modifies this`current, this`store
      ensures Valid()
      ensures current == Clamp(old(current) + step, 0, chapterCount - 1)
      ensures chapterCount > 0 ==> shown && 0 <= current < chapterCount
      ensures chapterCount > 0 ==> StoredChapter() == current
      ensures chapterCount > 0 ==> store == old(store)["chapter" := FormatInt(current)]
      ensures chapterCount == 0 ==> !shown && current == -1 && store == old(store)
    {
      current := Clamp(current + step, 0, chapterCount - 1);
      shown := ShowChapter(current);
    }

    /** Flips infinite-scroll mode and persists the new value. */
    method ToggleInfinite()
      requires Valid()
      modifies this`infinite, this`store
      ensures Valid()
      ensures infinite == !old(infinite)
      ensures store == old(store)["infinite" := BoolString(infinite)]
    {
      infinite := !infinite;
      store := store["infinite" := BoolString(infinite)];
    }

    /** Flips the dark theme and persists whether it is now on. */
    method ToggleDarkMode()
      requires Valid()
      modifies this`dark, this`store
      ensures Valid()
      ensures dark == !old(dark)
      ensures store == old(store)["dark" := BoolString(dark)]
    {
      dark := !dark;
      store := store["dark" := BoolString(dark)];
    }

    /** Flips the comic theme; it is not persisted. */
    method ToggleComicMode()
      requires Valid()
      modifies this`comic
      ensures Valid()
      ensures comic == !old(comic)
    {
      comic := !comic;
    }

    /** Changes the font size by `change` from the stored size (16 when none is stored),
        keeps it within 14..22 and persists it. */
    method FontSize(change: int)
      requires Valid()
      modifies this`store
      ensures Valid()
      ensures MinFontSize <= FontSetting() <= MaxFontSize
      ensures FontSetting() == Clamp(old(FontSetting()) + change, MinFontSize, MaxFontSize)
      ensures store == old(store)["font" := FormatInt(FontSetting())]
    {
      var size := NumberOr(Get(store, "font"), DefaultFontSize);
      size := size + change;
      size := Clamp(size, MinFontSize, MaxFontSize);
      store := store["font" := FormatInt(size)];
      NumberOrFormatInt(size, DefaultFontSize);
    }

    /** Selects a star rating for the next review; any value is accepted. On a page
        whose script stopped early this throws and changes nothing. */
    method Rate(value: int) returns (rated: bool)
      requires Valid()
      modifies this`selectedRating
      ensures Valid()
      ensures rated == loaded
      ensures rated ==> selectedRating == value
      ensures !rated ==> selectedRating == old(selectedRating)
    {
      if !loaded {
        return false;
      }
      selectedRating := value;
      rated := true;
    }

    /** Submits a comment on the current chapter: refused when the trimmed name or text is
        empty; otherwise exactly one record is appended to that chapter's log. */
    method AddComment(name: string, text: string, time: string) returns (outcome: Submission)
      requires Valid()
      modifies this`comments
      ensures Valid()
      ensures outcome.Rejected? <==> AllWhitespace(name) || AllWhitespace(text)
      ensures outcome.Rejected? ==> outcome.reason == EmptyField && comments == old(comments)
      ensures outcome.Accepted? ==>
        comments == old(comments)[current := LogOf(old(comments), current) + [Comment(Trim(name), Trim(text), time)]]
    {
      var comment := NewComment(name, text, time);
      if comment.None? {
        return Rejected(EmptyField);
      }
      comments := comments[current := LogOf(comments, current) + [comment.value]];
      outcome := Accepted;
    }

    /** Submits a review of the current chapter with the selected rating: refused when no
        rating is selected, or when the script stopped early; otherwise exactly one record
        is appended to that chapter's log and the selection is cleared. */
    method SaveReview(text: string, time: string) returns (outcome: Submission)
      requires Valid()
      modifies this`reviews, this`selectedRating
      ensures Valid()
      ensures outcome.Rejected? <==> !loaded || old(selectedRating) == 0
      ensures !loaded ==> outcome == Rejected(ScriptAborted)
      ensures outcome.Rejected? ==> reviews == old(reviews)
      ensures loaded && old(selectedRating) == 0 ==> outcome == Rejected(NoRatingSelected)
      ensures outcome.Accepted? ==>
        reviews == old(reviews)[current := LogOf(old(reviews), current) + [Review(old(selectedRating), Some(Trim(text)), time)]]
      ensures outcome.Accepted? ==>
        RatingSum(LogOf(reviews, current)) == RatingSum(LogOf(old(reviews), current)) + old(selectedRating)
      ensures selectedRating == 0
    {
      if !loaded {
        return Rejected(ScriptAborted);
      }
      if selectedRating == 0 {
        return Rejected(NoRatingSelected);
      }
      var review := Review(selectedRating, Some(Trim(text)), time);
      RatingSumAppend(LogOf(reviews, current), [review]);
      reviews := reviews[current := LogOf(reviews, current) + [review]];
      selectedRating := 0;
      outcome := Accepted;
    }
  }

  /** The chapter the page evidently means to resume: the stored index when a chapter
      has it, and the first chapter otherwise, so that the first display cannot fail. */
  function RestoredChapter(stored: Option<string>, chapterCount: nat): (i: int)
    ensures chapterCount > 0 ==> 0 <= i < chapterCount
    ensures 0 <= NumberOr(stored, 0) < chapterCount ==> i == NumberOr(stored, 0)
  {
    var i := NumberOr(stored, 0);
    if 0 <= i < chapterCount then i else 0
  }

  /** A stored chapter 7 on a three-chapter page is loaded unchecked, so the first
      display fails; the intended restore would open chapter 0. */
  lemma StoredChapterBeyondLastAbortsLoad()
    ensures var stored := Get(map["chapter" := "7"], "chapter");
            NumberOr(stored, 0) == 7 && !(0 <= NumberOr(stored, 0) < 3)
            && RestoredChapter(stored, 3) == 0
  {
    var stored := Get(map["chapter" := "7"], "chapter");
    assert stored == Some("7");
    assert ParseInt("7") == Some(7);
  }

  /** On a page whose stored chapter does not exist, no review can be saved. */
  method AbortedLoadRefusesReviews()
  {
    var page := new ReaderPage(3, map["chapter" := "7"], map[], map[]);
    StoredChapterBeyondLastAbortsLoad();
    assert !page.loaded;
    var rated := page.Rate(5);
    var outcome := page.SaveReview("great", "1/1/2026");
    assert !rated && outcome == Rejected(ScriptAborted) && page.reviews == map[];
  }

  /** Toggling infinite-scroll mode twice restores the mode the reader started with. */
  method ToggleInfiniteTwice(page: ReaderPage)
    requires page.Valid()
    modifies page
    ensures page.Valid() && page.infinite == old(page.infinite)
    ensures page.store == old(page.store)["infinite" := BoolString(old(page.infinite))]
  {
    page.ToggleInfinite();
    page.ToggleInfinite();
  }
}
