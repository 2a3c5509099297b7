/** The review analyser window reduced to the state its handlers read and write: which
    input mode is selected, the two input texts, which widgets are enabled, the message
    label, the lines of the result view and the progress counter. */
module Analyzer {
  import opened Wrappers
  import opened ImdbId
  import opened Scraper
  import opened Sentiment

  /** The two auto-exclusive radio buttons: at most one is checked, and once one is
      checked the user can only switch to the other. */
  datatype InputMode = Unselected | LinkMode | ReviewMode

  /** Exceptions the handlers do not catch. */
  datatype PyError =
    | UnboundLocal   // `input_text` read while neither radio button is checked
    | ZeroDivision   // `100/len(reviews)` with no reviews

  /** What `analyze_input` decides to do with the current input. */
  datatype Action =
    | Raise(error: PyError)
    | Report(message: string)
    | ScrapeAndAnalyze(reviewsUrl: string)
    | AnalyzeText(text: string)

  /** How a click on the analyse button ends. */
  datatype Outcome = Reported(message: string) | Completed | Crashed(error: PyError)

  /** One block appended to the result view: a scraped review with its link, title,
      coloured sentiment and text, or the verdict for a typed review. */
  datatype Entry =
    | ReviewEntry(link: string, title: string, sentiment: Label, colour: Colour, text: string)
    | VerdictEntry(sentiment: Label, colour: Colour)

  const EmptyInputMessage: string := "Ange en giltig IMDb-filmlänk eller recension."
  const BadIdMessage: string := "Kunde inte extrahera IMDb-ID från länken."
  const ImdbHost: string := "https://www.imdb.com"

  /** The text `analyze_input` reads: the link field in link mode, the review field in
      review mode. */
  function InputText(mode: InputMode, linkText: string, reviewText: string): string
    requires mode != Unselected
  {
    if mode == LinkMode then linkText else reviewText
  }

  /** The condition of `check_input` for enabling the analyse button. */
  predicate AnalyzeAllowed(mode: InputMode, linkText: string, reviewText: string)
  {
    (mode == LinkMode && linkText != "") || (mode == ReviewMode && reviewText != "")
  }

  /** The button condition of `check_input` holds exactly when a mode is selected and
      the text `analyze_input` would read for it is not empty. */
  lemma AnalyzeAllowedIff(mode: InputMode, linkText: string, reviewText: string)
    ensures AnalyzeAllowed(mode, linkText, reviewText) <==>
              mode != Unselected && InputText(mode, linkText, reviewText) != ""
  {
  }

  /** The decisions of `analyze_input`, in the order the source takes them. */
  function Dispatch(mode: InputMode, linkText: string, reviewText: string): (a: Action)
    ensures a.Raise? <==> mode == Unselected
    ensures a.ScrapeAndAnalyze? ==> mode == LinkMode
    ensures a.AnalyzeText? ==> mode == ReviewMode && a.text == reviewText && reviewText != ""
    ensures mode == ReviewMode && reviewText != "" ==> a == AnalyzeText(reviewText)
    ensures mode == LinkMode && linkText != "" && ExtractImdbId(linkText).Some? &&
            ExtractImdbId(linkText).value != "" ==>
              a == ScrapeAndAnalyze(ReviewsUrl(ExtractImdbId(linkText).value))
  {
    if mode == Unselected then Raise(UnboundLocal)
    else if InputText(mode, linkText, reviewText) == "" then Report(EmptyInputMessage)
    else if mode == LinkMode then
      var imdbId := ExtractImdbId(linkText);
      if imdbId.None? || imdbId.value == "" then Report(BadIdMessage)
      else ScrapeAndAnalyze(ReviewsUrl(imdbId.value))
    else AnalyzeText(reviewText)
  }

  /** `analyze_input` reads only the field of the selected mode: the text of the other
      field never changes its decision. */
  lemma DispatchIgnoresOtherField(mode: InputMode, linkText: string, reviewText: string,
                                  otherLink: string, otherReview: string)
    ensures mode == LinkMode ==>
              Dispatch(mode, linkText, reviewText) == Dispatch(mode, linkText, otherReview)
    ensures mode == ReviewMode ==>
              Dispatch(mode, linkText, reviewText) == Dispatch(mode, otherLink, reviewText)
    ensures mode == Unselected ==>
              Dispatch(mode, linkText, reviewText) == Dispatch(mode, otherLink, otherReview)
  {
  }

  /** An empty input is reported before anything else is looked at. */
  lemma DispatchEmptyInput(mode: InputMode, linkText: string, reviewText: string)
    requires mode != Unselected && InputText(mode, linkText, reviewText) == ""
    ensures Dispatch(mode, linkText, reviewText) == Report(EmptyInputMessage)
  {
  }

  /** A link whose id is missing or empty is reported and nothing is scraped. */
  lemma DispatchBadId(linkText: string, reviewText: string)
    requires linkText != ""
    requires ExtractImdbId(linkText) == None || ExtractImdbId(linkText) == Some("")
    ensures Dispatch(LinkMode, linkText, reviewText) == Report(BadIdMessage)
  {
  }

  /** A link ending in an empty fifth segment is such a link. */
  lemma DispatchEmptyIdLink(reviewText: string)
    ensures Dispatch(LinkMode, "a/b/c/d/", reviewText) == Report(BadIdMessage)
  {
    ExtractEmptySegment("a/b/c/d/");
  }

  /** Scraping happens only for a non-empty id extracted from the link, at the listing
      address of that id, and that address gives the same id back. */
  lemma DispatchScrapesListing(linkText: string, reviewText: string, url: string)
    requires Dispatch(LinkMode, linkText, reviewText) == ScrapeAndAnalyze(url)
    ensures ExtractImdbId(linkText).Some? && ExtractImdbId(linkText).value != ""
    ensures url == ReviewsPrefix + ExtractImdbId(linkText).value + ReviewsSuffix
    ensures ExtractImdbId(url) == ExtractImdbId(linkText)
  {
    ExtractFromReviewsUrl(ExtractImdbId(linkText).value);
  }

  /** While the button is enabled by `check_input`, a click neither reads an unbound input
      nor reports an empty one; while it is disabled, one of the two would happen. */
  lemma EnabledClickNeverUnbound(mode: InputMode, linkText: string, reviewText: string)
    ensures AnalyzeAllowed(mode, linkText, reviewText) <==>
              !Dispatch(mode, linkText, reviewText).Raise? &&
              Dispatch(mode, linkText, reviewText) != Report(EmptyInputMessage)
  {
  }

  /** The link shown for a review: the host followed by the `href`, or by the text `None`
      when the anchor had no `href` (Python's formatting of None). */
  function LinkFor(url: Option<string>): string
  {
    ImdbHost + (match url case Some(u) => u case None => "None")
  }

  /** The link starts with the host, and what follows the host is the `href`, or `None`
      when there is no `href`. */
  lemma LinkForParts(url: Option<string>)
    ensures |LinkFor(url)| >= |ImdbHost| && LinkFor(url)[..|ImdbHost|] == ImdbHost
    ensures url.Some? ==> LinkFor(url)[|ImdbHost|..] == url.value
    ensures url.None? ==> LinkFor(url)[|ImdbHost|..] == "None"
  {
  }

  /** Two reviews get the same link exactly when their `href`s are equal, or when one
      has no `href` and the other's is the text `None`, which prints the same. */
  lemma LinkForDistinguishes(u: Option<string>, v: Option<string>)
    ensures LinkFor(u) == LinkFor(v) <==>
              u == v || (u == None && v == Some("None")) || (u == Some("None") && v == None)
  {
    LinkForParts(u);
    LinkForParts(v);
  }

  /** The block appended for one scraped review. */
  function EntryFor(review: Review, classify: Classifier): Entry
  {
    var sentiment := AnalyzeReview(Text(review.text), classify);
    ReviewEntry(LinkFor(review.url), review.title, sentiment, ColourOf(sentiment), review.text)
  }

  /** The blocks `block` makes for the reviews, one per review, in order. */
  function Blocks(reviews: seq<Review>, block: Review -> Entry): seq<Entry>
  {
    if reviews == [] then []
    else Blocks(reviews[..|reviews| - 1], block) + [block(reviews[|reviews| - 1])]
  }

  /** The block of one review, with the classifier of the run fixed. */
  function BlockOf(classify: Classifier): Review -> Entry
  {
    review => EntryFor(review, classify)
  }

  /** The blocks `analyze_reviews` appends, one per review, in order. */
  function ExpectedEntries(reviews: seq<Review>, classify: Classifier): seq<Entry>
  {
    Blocks(reviews, BlockOf(classify))
  }

  /** The block of a review: its link is the host followed by the review's `href`, its
      title and text are the review's, and its colour is green exactly when the
      classifier picks index 1 for the review's text. */
  lemma EntryForShows(review: Review, classify: Classifier)
    ensures EntryFor(review, classify).ReviewEntry?
    ensures review.url.Some? ==> EntryFor(review, classify).link == ImdbHost + review.url.value
    ensures EntryFor(review, classify).title == review.title
    ensures EntryFor(review, classify).text == review.text
    ensures EntryFor(review, classify).colour == Green <==> classify(review.text) == 1
  {
  }

  /** Whatever the block maker, there is exactly one block per review, and block k is
      the block of review k. */
  lemma {:induction false} BlocksAt(reviews: seq<Review>, block: Review -> Entry)
    ensures |Blocks(reviews, block)| == |reviews|
    ensures forall k :: 0 <= k < |reviews| ==> Blocks(reviews, block)[k] == block(reviews[k])
  {
    if reviews != [] {
      var init := reviews[..|reviews| - 1];
      BlocksAt(init, block);
      var blocks := Blocks(reviews, block);
      assert blocks == Blocks(init, block) + [block(reviews[|reviews| - 1])];
      forall k | 0 <= k < |reviews|
        ensures blocks[k] == block(reviews[k])
      {
        if k < |init| {
          assert init[k] == reviews[k];
        }
      }
    }
  }

  /** Exactly one block per review, and block k is the block of review k. */
  lemma ExpectedEntriesAt(reviews: seq<Review>, classify: Classifier)
    ensures |ExpectedEntries(reviews, classify)| == |reviews|
    ensures forall k :: 0 <= k < |reviews| ==>
              ExpectedEntries(reviews, classify)[k] == EntryFor(reviews[k], classify)
  {
    BlocksAt(reviews, BlockOf(classify));
  }

  /** Handling one more review appends its block. */
  lemma ExpectedEntriesSnoc(reviews: seq<Review>, i: nat, classify: Classifier)
    requires i < |reviews|
    ensures ExpectedEntries(reviews[..i + 1], classify) ==
            ExpectedEntries(reviews[..i], classify) + [EntryFor(reviews[i], classify)]
  {
    assert reviews[..i + 1][..i] == reviews[..i];
  }

  /** A sequence of progress values that never decreases. */
  ghost predicate NonDecreasing(values: seq<real>)
  {
    forall j, k :: 0 <= j < k < |values| ==> values[j] <= values[k]
  }

  /** The increment `100/len(reviews)` added to the progress per review. */
  function Increment(n: nat): real
    requires n > 0
  {
    100.0 / (n as real)
  }

  /** The progress after `i` of `n` reviews: the sum of i increments, as the source
      accumulates it. */
  function ProgressAfter(i: nat, n: nat): real
    requires n > 0
  {
    if i == 0 then 0.0 else ProgressAfter(i - 1, n) + Increment(n)
  }

  /** The accumulated progress is i times the increment. */
  lemma {:induction false} ProgressIsProduct(i: nat, n: nat)
    requires n > 0
    ensures ProgressAfter(i, n) == (i as real) * Increment(n)
  {
    if i > 0 {
      ProgressIsProduct(i - 1, n);
    }
  }

  /** All n reviews make 100. */
  lemma WholeRun(n: nat)
    requires n > 0
    ensures ProgressAfter(n, n) == 100.0
  {
    ProgressIsProduct(n, n);
  }

  /** The progress grows with the number of reviews done. */
  lemma {:induction false} ProgressGrows(j: nat, k: nat, n: nat)
    requires n > 0 && j <= k
    ensures ProgressAfter(j, n) <= ProgressAfter(k, n)
    decreases k
  {
    if j < k {
      ProgressGrows(j, k - 1, n);
    }
  }

  /** The values handed to the progress bar after each of the first i of n reviews. */
  ghost function ProgressLog(i: nat, n: nat): seq<real>
    requires n > 0
  {
    if i == 0 then [] else ProgressLog(i - 1, n) + [ProgressAfter(i, n)]
  }

  /** The progress bar receives one value per review, the values never decrease, and
      the last one of a whole run is 100. */
  lemma {:induction false} ProgressLogShape(i: nat, n: nat)
    requires n > 0
    ensures |ProgressLog(i, n)| == i
    ensures forall k :: 0 <= k < i ==> ProgressLog(i, n)[k] == ProgressAfter(k + 1, n)
    ensures NonDecreasing(ProgressLog(i, n))
    ensures i == n ==> ProgressLog(i, n)[n - 1] == 100.0
  {
    if i > 0 {
      ProgressLogShape(i - 1, n);
      var log := ProgressLog(i, n);
      forall j, k | 0 <= j < k < i
        ensures log[j] <= log[k]
      {
        ProgressGrows(j + 1, k + 1, n);
      }
    }
    if i == n {
      WholeRun(n);
    }
  }

  /** One more review adds one increment and logs the new value. */
  lemma ProgressStep(i: nat, n: nat)
    requires n > 0
    ensures ProgressAfter(i + 1, n) == ProgressAfter(i, n) + Increment(n)
    ensures ProgressLog(i + 1, n) == ProgressLog(i, n) + [ProgressAfter(i + 1, n)]
  {
  }

  /** The progress log of a whole run: one value per review, never decreasing, ending
      at 100. */
  lemma WholeRunLog(n: nat)
    requires n > 0
    ensures ProgressAfter(n, n) == 100.0
    ensures |ProgressLog(n, n)| == n && ProgressLog(n, n)[n - 1] == 100.0
    ensures NonDecreasing(ProgressLog(n, n))
  {
    ProgressLogShape(n, n);
  }

  class ReviewScraperApp {
    var mode: InputMode
    var linkText: string
    var reviewText: string
    var linkInputEnabled: bool
    var reviewInputEnabled: bool
    var analyzeEnabled: bool
    var resultLabel: string
    var results: seq<Entry>
    var completed: real
    var length: real
    /** The values handed to the progress bar during the last run. */
    ghost var progress: seq<real>

    /** The analyse button is enabled exactly when `check_input` would enable it. */
    ghost predicate ButtonConsistent()
      reads this
    {
      analyzeEnabled == AnalyzeAllowed(mode, linkText, reviewText)
    }

    /** The window as `init_ui` leaves it: no mode, empty inputs, everything disabled. */
    constructor ()
      ensures mode == Unselected && linkText == "" && reviewText == ""
      ensures !linkInputEnabled && !reviewInputEnabled && !analyzeEnabled
      ensures resultLabel == "" && results == [] && progress == []
      ensures ButtonConsistent()
    {
      mode := Unselected;
      linkText, reviewText := "", "";
      linkInputEnabled, reviewInputEnabled, analyzeEnabled := false, false, false;
      resultLabel := "";
      results := [];
      completed, length := 0.0, 0.0;
      progress := [];
    }

    /** `check_input`: enable the input field of the selected mode and disable the other
        (nothing changes while no mode is selected), and enable the analyse button exactly
        when the selected field is not empty. */
    method CheckInput()
      modifies this`linkInputEnabled, this`reviewInputEnabled, this`analyzeEnabled
      ensures mode == LinkMode ==> linkInputEnabled && !reviewInputEnabled
      ensures mode == ReviewMode ==> !linkInputEnabled && reviewInputEnabled
      ensures mode == Unselected ==>
                linkInputEnabled == old(linkInputEnabled) && reviewInputEnabled == old(reviewInputEnabled)
      ensures analyzeEnabled == AnalyzeAllowed(mode, linkText, reviewText)
      ensures ButtonConsistent()
    {
      if mode == LinkMode {
        linkInputEnabled := true;
        reviewInputEnabled := false;
      } else if mode == ReviewMode {
        linkInputEnabled := false;
        reviewInputEnabled := true;
      }
      if (mode == LinkMode && linkText != "") || (mode == ReviewMode && reviewText != "") {
        analyzeEnabled := true;
      } else {
        analyzeEnabled := false;
      }
    }

    /** The unchecked radio button is clicked; its `toggled` signal runs `check_input`.
        Clicking the button that is already checked changes nothing and signals nothing. */
    method SelectMode(m: InputMode)
      requires m != Unselected && m != mode
      modifies this`mode, this`linkInputEnabled, this`reviewInputEnabled, this`analyzeEnabled
      ensures mode == m && ButtonConsistent()
      ensures m == LinkMode ==> linkInputEnabled && !reviewInputEnabled
      ensures m == ReviewMode ==> !linkInputEnabled && reviewInputEnabled
    {
      mode := m;
      CheckInput();
    }

    /** The link field is edited (only possible while it is enabled); its `textChanged`
        signal, emitted only when the text changes, runs `check_input`. */
    method EditLink(text: string)
      requires linkInputEnabled && text != linkText
      modifies this`linkText, this`linkInputEnabled, this`reviewInputEnabled, this`analyzeEnabled
      ensures linkText == text && ButtonConsistent()
      ensures mode != Unselected ==>
                linkInputEnabled == (mode == LinkMode) && reviewInputEnabled == (mode == ReviewMode)
    {
      linkText := text;
      CheckInput();
    }

    /** The review field is edited (only possible while it is enabled); its `textChanged`
        signal, emitted only when the text changes, runs `check_input`. */
    method EditReview(text: string)
      requires reviewInputEnabled && text != reviewText
      modifies this`reviewText, this`linkInputEnabled, this`reviewInputEnabled, this`analyzeEnabled
      ensures reviewText == text && ButtonConsistent()
      ensures mode != Unselected ==>
                linkInputEnabled == (mode == LinkMode) && reviewInputEnabled == (mode == ReviewMode)
    {
      reviewText := text;
      CheckInput();
    }

    /** `model_initialization_done` as written: the button is enabled whatever the input. */
    method ModelInitializationDone()
      modifies this`analyzeEnabled
      ensures analyzeEnabled
    {
      analyzeEnabled := true;
    }

    /** The warm-up completion with the button condition of `check_input` applied. */
    method ModelInitializationDoneGuarded()
      modifies this`analyzeEnabled
      ensures analyzeEnabled == AnalyzeAllowed(mode, linkText, reviewText)
      ensures ButtonConsistent()
    {
      analyzeEnabled := AnalyzeAllowed(mode, linkText, reviewText);
    }

    /** `display_result`: the view is cleared and holds the coloured verdict alone. */
    method DisplayResult(sentiment: Label)
      modifies this`results
      ensures results == [VerdictEntry(sentiment, ColourOf(sentiment))]
    {
      results := [];
      var colour := if LabelName(sentiment) == "Positive" then Green else Red;
      results := results + [VerdictEntry(sentiment, colour)];
    }

    /** `analyze_reviews` as written: the view is cleared, then every review is classified
        and its block appended, in order, while the progress grows by 100/n per review.
        With no reviews the division by the length raises before anything is appended. */
    method AnalyzeReviews(reviews: seq<Review>, classify: Classifier) returns (outcome: Outcome)
      modifies this`results, this`completed, this`length, this`progress
      ensures results == ExpectedEntries(reviews, classify)
      ensures reviews == [] ==> outcome == Crashed(ZeroDivision) && completed == 0.0
      ensures reviews == [] ==> length == old(length) && progress == old(progress)
      ensures reviews != [] ==> outcome == Completed && completed == 100.0
      ensures reviews != [] ==> length == Increment(|reviews|)
      ensures reviews != [] ==> |progress| == |reviews| && NonDecreasing(progress) &&
                                progress[|reviews| - 1] == 100.0
    {
      results := [];
      completed := 0.0;
      if |reviews| == 0 {
        outcome := Crashed(ZeroDivision);
        return;
      }
      outcome := RunReviews(reviews, classify);
    }

    /** `analyze_reviews` as it was evidently meant: an empty list is a run that does
        nothing, so no division is attempted and nothing is raised. */
    method AnalyzeReviewsGuarded(reviews: seq<Review>, classify: Classifier) returns (outcome: Outcome)
      modifies this`results, this`completed, this`length, this`progress
      ensures outcome == Completed
      ensures results == ExpectedEntries(reviews, classify)
      ensures reviews == [] ==> completed == 0.0 && length == old(length) && progress == old(progress)
      ensures reviews != [] ==> length == Increment(|reviews|)
      ensures reviews != [] ==> completed == 100.0 && |progress| == |reviews| &&
                                NonDecreasing(progress) && progress[|reviews| - 1] == 100.0
    {
      results := [];
      completed := 0.0;
      if |reviews| == 0 {
        outcome := Completed;
        return;
      }
      outcome := RunReviews(reviews, classify);
    }

    /** The loop of `analyze_reviews`, from the computation of the step onwards. */
    method RunReviews(reviews: seq<Review>, classify: Classifier) returns (outcome: Outcome)
      requires reviews != [] && results == [] && completed == 0.0
      modifies this`results, this`completed, this`length, this`progress
      ensures outcome == Completed
      ensures results == ExpectedEntries(reviews, classify)
      ensures completed == 100.0 && |progress| == |reviews|
      ensures length == Increment(|reviews|)
      ensures NonDecreasing(progress) && progress[|reviews| - 1] == 100.0
    {
      var n := |reviews|;
      length := Increment(n);
      progress := [];
      var i := 0;
      while i < n
        invariant 0 <= i <= n
        invariant length == Increment(n)
        invariant results == ExpectedEntries(reviews[..i], classify)
        invariant completed == ProgressAfter(i, n)
        invariant progress == ProgressLog(i, n)
      {
        ExpectedEntriesSnoc(reviews, i, classify);
        ProgressStep(i, n);
        ShowReview(reviews[i], classify);
        i := i + 1;
      }
      assert reviews[..n] == reviews;
      WholeRunLog(n);
      outcome := Completed;
    }

    /** The body of the loop of `analyze_reviews`: classify one review, append its block
        and advance the progress by one increment. */
    method ShowReview(review: Review, classify: Classifier)
      modifies this`results, this`completed, this`progress
      ensures results == old(results) + [EntryFor(review, classify)]
      ensures completed == old(completed) + length
      ensures progress == old(progress) + [completed]
    {
      var sentiment := AnalyzeReview(Text(review.text), classify);
      var colour := if LabelName(sentiment) == "Positive" then Green else Red;
      var imdbLink := ImdbHost + (match review.url case Some(u) => u case None => "None");
      results := results + [ReviewEntry(imdbLink, review.title, sentiment, colour, review.text)];
      completed := completed + length;
      progress := progress + [completed];
    }

    /** `analyze_input`: read the selected input, report an empty input or a link without
        an id, otherwise scrape and classify the listing of the id, or classify the typed
        review. A click reaches this handler only while the button is enabled. */
    method AnalyzeInput(fetch: Fetcher, classify: Classifier) returns (outcome: Outcome)
      requires analyzeEnabled
      modifies this`results, this`resultLabel, this`completed, this`length, this`progress
      ensures match Dispatch(mode, linkText, reviewText)
                case Raise(e) =>
                  outcome == Crashed(e) && results == old(results) && resultLabel == old(resultLabel) &&
                  completed == old(completed) && length == old(length) && progress == old(progress)
                case Report(m) =>
                  outcome == Reported(m) && results == [] && resultLabel == m &&
                  completed == old(completed) && length == old(length) && progress == old(progress)
                case AnalyzeText(t) =>
                  outcome == Completed && resultLabel == old(resultLabel) &&
                  results == [VerdictEntry(AnalyzeReview(Text(t), classify),
                                           ColourOf(AnalyzeReview(Text(t), classify)))] &&
                  completed == old(completed) && length == old(length) && progress == old(progress)
                case ScrapeAndAnalyze(url) =>
                  resultLabel == old(resultLabel) &&
                  results == ExpectedEntries(Scraped(fetch(url)), classify) &&
                  (Scraped(fetch(url)) == [] ==>
                     outcome == Crashed(ZeroDivision) && completed == 0.0 &&
                     length == old(length) && progress == old(progress)) &&
                  (Scraped(fetch(url)) != [] ==>
                     outcome == Completed && completed == 100.0 &&
                     length == Increment(|Scraped(fetch(url))|) &&
                     |progress| == |Scraped(fetch(url))| && NonDecreasing(progress) &&
                     progress[|progress| - 1] == 100.0)
    {
      if mode == Unselected {
        outcome := Crashed(UnboundLocal);
        return;
      }
      var inputText := if mode == LinkMode then linkText else reviewText;
      if inputText == "" {
        results := [];
        resultLabel := EmptyInputMessage;
        outcome := Reported(EmptyInputMessage);
        return;
      }
      if mode == LinkMode {
        var imdbId := ExtractImdbId(inputText);
        if imdbId.None? || imdbId.value == "" {
          results := [];
          resultLabel := BadIdMessage;
          outcome := Reported(BadIdMessage);
          return;
        }
        var reviewsUrl := ReviewsUrl(imdbId.value);
        var reviews := ScrapeReviews(reviewsUrl, fetch);
        outcome := AnalyzeReviews(reviews, classify);
      } else {
        var sentiment := AnalyzeReview(Text(inputText), classify);
        DisplayResult(sentiment);
        outcome := Completed;
      }
    }
  }

  /** After the warm-up signal, the button of a fresh window is enabled although no mode is
      selected, and a click raises UnboundLocalError. */
  method WarmUpThenClickWithoutMode(fetch: Fetcher, classify: Classifier)
    returns (enabled: bool, outcome: Outcome)
    ensures enabled && outcome == Crashed(UnboundLocal)
  {
    var app := new ReviewScraperApp();
    app.ModelInitializationDone();
    enabled := app.analyzeEnabled;
    outcome := app.AnalyzeInput(fetch, classify);
  }

  /** With the guarded warm-up signal the button of a fresh window stays disabled. */
  method WarmUpGuardedKeepsButtonOff() returns (enabled: bool)
    ensures !enabled
  {
    var app := new ReviewScraperApp();
    app.ModelInitializationDoneGuarded();
    enabled := app.analyzeEnabled;
  }

  /** A link with a non-empty id whose listing yields no review (the request raised, the
      status was an error, or no container was complete) ends in ZeroDivisionError
      instead of a message. */
  method FailedFetchCrashes(link: string, fetch: Fetcher, classify: Classifier) returns (outcome: Outcome)
    requires link != "" && ExtractImdbId(link).Some? && ExtractImdbId(link).value != ""
    requires Scraped(fetch(ReviewsUrl(ExtractImdbId(link).value))) == []
    ensures outcome == Crashed(ZeroDivision)
  {
    var app := new ReviewScraperApp();
    app.SelectMode(LinkMode);
    app.EditLink(link);
    outcome := app.AnalyzeInput(fetch, classify);
  }

  /** With the guarded run the same failed request ends as a completed, empty run. */
  method FailedFetchGuarded(classify: Classifier) returns (outcome: Outcome, shown: seq<Entry>)
    ensures outcome == Completed && shown == []
  {
    var app := new ReviewScraperApp();
    var reviews := ScrapeReviews(ReviewsUrl("tt1234567"), _ => Raised);
    outcome := app.AnalyzeReviewsGuarded(reviews, classify);
    shown := app.results;
  }
}
