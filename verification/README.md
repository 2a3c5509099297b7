# IMDb review analyser — a verified model of its core

The application is a small desktop tool with two input modes. In link mode the user
enters an IMDb film link. The tool extracts the title id from it, fetches the title's
review listing, keeps one record per well-formed review block and classifies each
review as Positive or Negative. It shows every review with a link, a coloured verdict
and a progress counter. In review mode the user types a review, and the tool shows one
coloured verdict.

This project models the sequential core of that tool in Dafny:

- `wrappers.dfy` (`Wrappers`): the `Option` type, standing for Python's `None`.
- `imdb_id.dfy` (`ImdbId`): Python's `str.split('/')` as `Split`, with its inverse
  `Join`; `extract_imdb_id`; and the review-listing address built from an id.
- `scraper.dfy` (`Scraper`): `scrape_reviews_from_url`. The request is a function
  parameter (`Fetcher`). The parsed page is the sequence of `review-container` blocks,
  each with an optional text element and an optional title anchor.
- `sentiment.dfy` (`Sentiment`): `analyze_review`. Tokenizer, BERT model and arg-max
  together are one abstract `Classifier`, a function from a text to a class index in
  {0, 1}. The module also holds the label dictionary and the green/red colour choice.
- `analyzer.dfy` (`Analyzer`): the window class `ReviewScraperApp` with the state its
  handlers read and write:
  - which radio button is checked;
  - the two input texts;
  - which widgets are enabled;
  - the message label;
  - the blocks in the result view;
  - the progress counter.

  Its methods model `check_input`, `analyze_input`, `analyze_reviews` and
  `display_result`. Pure functions (`Dispatch`, `ExpectedEntries`, `ProgressAfter`)
  specify them.

Uncaught Python exceptions are modelled as outcomes: `Crashed(UnboundLocal)` and
`Crashed(ZeroDivision)`.

The code passes an empty review list to `analyze_reviews`, which divides by its
length (app.py:192). An empty list is evidently meant to run nothing, and a failed
fetch to end without a crash; the model follows the code and records the difference
under Findings.

## Model

| member | source | states |
|---|---|---|
| `ImdbId.Split` | app.py:146 | `split('/')` always gives at least one segment, and no segment contains a `/` |
| `ImdbId.JoinSplit` | app.py:146 | joining the segments of a split with `/` gives back the link |
| `ImdbId.SplitJoin` | app.py:146 | splitting a `/`-join of slash-free segments gives back those segments, empty ones included |
| `ImdbId.SplitLength` | app.py:146 | a split has one segment more than the link has slashes |
| `ImdbId.ExtractImdbId` | app.py:143-149 | no id exactly when the link has fewer than four slashes (the caught IndexError); a returned id never contains `/` |
| `ImdbId.ExtractFromPath` | app.py:143-149 | the id is exactly what stands between the fourth slash and the fifth slash (or the end of the link) |
| `ImdbId.ExtractFromSegments` | app.py:143-149 | for any decomposition into slash-free segments, the id is segment 4, and there is none with fewer than five segments |
| `ImdbId.ReviewsUrlParts` | app.py:135 | the listing address is the fixed prefix, then the id, then the fixed query suffix |
| `ImdbId.ReviewsUrlInjective` | app.py:135 | different ids give different listing addresses |
| `ImdbId.ExtractFromReviewsUrl` | app.py:135 | extracting the id from the listing address built for an id gives back that id |
| `ImdbId.ExtractTitleLink` | app.py:143-149 | `https://www.imdb.com/title/tt1234567/` yields `tt1234567` (the trailing empty segment is kept) |
| `ImdbId.ExtractEmptySegment` | app.py:143-149 | `a/b/c/d/` yields the empty id |
| `Scraper.RecordOf` | app.py:166-170 | a record takes its text from the text element and its url and title from the title anchor |
| `Scraper.ScrapedByStatus` | app.py:152-156 | a raised request or a 4xx/5xx status gives no record; any other status gives the records of the complete containers |
| `Scraper.KeptOneNeedsBoth` | app.py:166 | a container yields a record exactly when both its text element and its title anchor were found, and the record is its own |
| `Scraper.ScrapeReviews` | app.py:151-175 | empty when the request raises or the status is 4xx/5xx; otherwise the records of the complete containers |
| `Scraper.CompleteIndicesExact` | app.py:162-166 | the complete-container positions increase strictly, are in range, and include every complete container |
| `Scraper.KeptFromCompleteIndices` | app.py:162-170 | record k comes from the k-th complete container, so there is one record per complete container, in document order |
| `Scraper.KeptLength` | app.py:162-170 | never more records than containers |
| `Scraper.KeptAllComplete` | app.py:162-170 | when every container is complete, record k comes from container k |
| `Scraper.KeptEmptyIff` | app.py:162-170 | no records exactly when no container has both elements |
| `Scraper.KeptDropsIncomplete` | app.py:162-170 | one well-formed container plus one without a title yields one record, in either order |
| `Sentiment.LabelOf` | app.py:218-221 | index 1 is Positive and index 0 is Negative; the dictionary is invertible |
| `Sentiment.IndexOf` | app.py:218-221 | the inverse dictionary sends Positive to 1 and Negative to 0 |
| `Sentiment.LabelName` | app.py:218-224 | the label is one of the strings `Positive` and `Negative` |
| `Sentiment.AsBatch` | app.py:207-208 | a single text becomes a batch of one; a list is used as is |
| `Sentiment.PredictLabels` | app.py:223 | one label per text, in input order, each the label of its class index |
| `Sentiment.AnalyzeReview` | app.py:205-224 | the result is the label of the first text of the batch |
| `Sentiment.AnalyzeSingleText` | app.py:207-224 | a typed review is Positive exactly when the classifier picks 1, and Negative exactly when it picks 0 |
| `Sentiment.AnalyzeBatchFirst` | app.py:223-224 | a list's verdict is the verdict of its first text |
| `Sentiment.ColourOf` | app.py:179 | green exactly when the sentiment string is `Positive`, red otherwise |
| `Sentiment.ColourName` | app.py:180 | the colour is written as `green` or `red` |
| `Sentiment.ColourOfClassIndex` | app.py:195-196 | a review is shown green exactly when the classifier picks 1 and red exactly when it picks 0 |
| `Analyzer.Dispatch` | app.py:114-141 | an unbound input exactly when no radio is checked; a non-empty typed review is classified directly, and only such a review; a non-empty link with a non-empty id is scraped at that id's listing address, and scraping happens only in link mode |
| `Analyzer.DispatchEmptyInput` | app.py:121-124 | an empty selected input is reported before anything else |
| `Analyzer.DispatchBadId` | app.py:129-133 | a missing or empty id is reported, and nothing is scraped |
| `Analyzer.DispatchEmptyIdLink` | app.py:129-133 | `a/b/c/d/` is reported as a link without an id |
| `Analyzer.DispatchScrapesListing` | app.py:129-136 | scraping only at the listing address of a non-empty id extracted from the link, and that address gives the same id back |
| `Analyzer.AnalyzeAllowedIff` | app.py:234-235 | the button condition holds exactly when a mode is selected and the field `analyze_input` reads for it is not empty |
| `Analyzer.DispatchIgnoresOtherField` | app.py:116-119 | the decision depends only on the field of the selected mode; with no mode it depends on neither |
| `Analyzer.EnabledClickNeverUnbound` | app.py:233-238 | the check_input condition holds exactly when a click neither reads an unbound input nor reports an empty one |
| `Analyzer.LinkForParts` | app.py:198 | a link is `https://www.imdb.com` followed by the href, or by `None` when the anchor had none |
| `Analyzer.LinkForDistinguishes` | app.py:198 | two links are equal exactly when the hrefs are, except that a missing href and the href `None` print the same link |
| `Analyzer.EntryForShows` | app.py:195-199 | a review's block links to the host plus its href and holds its title and text; it is green exactly when the classifier picks 1 |
| `Analyzer.BlocksAt` | app.py:194-199 | appending one block per review in a loop gives exactly one block per review, block k being review k's, whatever makes the block |
| `Analyzer.ExpectedEntriesAt` | app.py:194-199 | exactly one block per review, and block k is review k's block |
| `Analyzer.ExpectedEntriesSnoc` | app.py:194-199 | handling one more review appends exactly its block |
| `Analyzer.ProgressIsProduct` | app.py:191-200 | after i reviews the accumulated progress is i times 100/n |
| `Analyzer.WholeRun` | app.py:191-200 | after all n reviews the progress is 100 |
| `Analyzer.ProgressGrows` | app.py:200 | the progress never decreases as reviews complete |
| `Analyzer.ProgressLogShape` | app.py:191-201 | one progress value per review, non-decreasing, the last one 100 |
| `Analyzer.WholeRunLog` | app.py:191-201 | a whole run hands the progress bar n values that never decrease and end at 100 |
| `Analyzer.ReviewScraperApp.constructor` | app.py:50-67 | the window starts with no mode, empty inputs, and both input fields and the button disabled (the radio buttons stay enabled), which agrees with the button condition |
| `Analyzer.ReviewScraperApp.CheckInput` | app.py:226-238 | link mode enables only the link field and review mode only the review field; no mode leaves both as they were; the button is enabled iff the selected field is non-empty |
| `Analyzer.ReviewScraperApp.SelectMode` | app.py:98-99 | checking the unchecked radio button enables exactly its field and restores the button condition |
| `Analyzer.ReviewScraperApp.EditLink` | app.py:96 | changing the link text restores the button condition |
| `Analyzer.ReviewScraperApp.EditReview` | app.py:97 | changing the review text restores the button condition |
| `Analyzer.ReviewScraperApp.ModelInitializationDone` | app.py:39-41 | the warm-up signal enables the button whatever the input |
| `Analyzer.ReviewScraperApp.ModelInitializationDoneGuarded` | app.py:39-41 | the corrected signal handler leaves the button enabled exactly when check_input would |
| `Analyzer.ReviewScraperApp.DisplayResult` | app.py:177-183 | the view is cleared and then holds only the verdict in its colour |
| `Analyzer.ReviewScraperApp.ShowReview` | app.py:195-201 | one review appends its block, and the progress grows by one increment |
| `Analyzer.ReviewScraperApp.RunReviews` | app.py:192-201 | the step is 100/n; the view holds one block per review, in order; the progress values never decrease and end at 100 |
| `Analyzer.ReviewScraperApp.AnalyzeReviews` | app.py:185-203 | as written: with no reviews the run raises ZeroDivisionError on an emptied view, leaving the step and the progress log as they were; otherwise it completes as RunReviews does, with the step 100/n |
| `Analyzer.ReviewScraperApp.AnalyzeReviewsGuarded` | app.py:185-203 | corrected: never raises; an empty list gives an empty view and leaves the step and the progress log as they were; otherwise it completes as RunReviews does |
| `Analyzer.ReviewScraperApp.AnalyzeInput` | app.py:114-141 | each decision of Dispatch has its effect: a crash that changes nothing, a message with a cleared view, the typed verdict, or the scraped blocks with the progress run (step 100/n), or, for an empty scrape, ZeroDivisionError with the step and progress log untouched; the progress state changes only when reviews are scraped |
| `Analyzer.WarmUpThenClickWithoutMode` | app.py:116-121 | after the warm-up signal, a fresh window's button is enabled and a click raises UnboundLocalError |
| `Analyzer.WarmUpGuardedKeepsButtonOff` | app.py:39-41 | with the corrected handler, a fresh window's button stays disabled |
| `Analyzer.FailedFetchCrashes` | app.py:136-137 | a link with an id whose listing yields no review ends in ZeroDivisionError, not in a message |
| `Analyzer.FailedFetchGuarded` | app.py:185-192 | with the corrected run, a failed request ends as a completed run with an empty view |

## Left out

- Widgets, layout, the scroll area and scrolling, and the showing and hiding of the
  progress bar. Only the enabled state of the two input fields and the button is
  modelled. `toggle_input` (app.py:108-112) is never called and is not modelled.
- The background warm-up thread and its inference call. This is concurrency only. Its
  completion slot is modelled, as `ModelInitializationDone`.
- `requests.get`, BeautifulSoup parsing and `get_text(strip=True)`. These are network
  I/O and a foreign library. A page is its sequence of containers, and an element is
  the text it yields. The `print` of the caught error is left out.
- Scraper.ScrapeReviews: an exception raised by the parser partway through the loop
  would return the records appended so far. The model treats parsing as total, so
  such a failure has no counterpart.
- Tokenization, padding, truncation (max_length 300), `bert_model.predict` and
  `tf.argmax` over floating-point logits. These are foreign calls.
- Sentiment.AnalyzeReview: each text is classified on its own, so any effect of a
  batch's padding on another text's verdict is not modelled.
- Analyzer.ReviewScraperApp.AnalyzeReviews: progress uses exact real arithmetic. With
  floats, the sum of n increments of 100/n can miss 100 by a rounding error, and the
  `int()` handed to the progress bar can then show 99. Neither is modelled.
- The HTML markup of the appended blocks. A block keeps its link, title, sentiment,
  colour and text, and the verdict block keeps its sentiment and colour.
- Qt emits `toggled` for both radio buttons when the selection changes, so
  `check_input` runs twice. It sets the same state both times, so the model runs it
  once.

## Findings

| source | as written | input that shows it | evidently intended | confidence | as-written member | corrected member |
|---|---|---|---|---|---|---|
| app.py:136-137, 192 | `analyze_input` passes the scraped list to `analyze_reviews` even when it is empty, and `100/len(reviews)` then raises ZeroDivisionError | link mode with `https://www.imdb.com/title/tt1234567/` and a request that raises or returns no complete container | an empty review list runs nothing and the user is not met with an uncaught exception | medium, not executed | `Analyzer.FailedFetchCrashes` | `Analyzer.ReviewScraperApp.AnalyzeReviewsGuarded` |
| app.py:39-41, 116-121 | the warm-up slot enables the analyse button whatever the input. Clicking with no radio button checked reads `input_text` before any assignment | start the tool, wait for the warm-up to finish, click the button before choosing an input mode | the button is enabled only when check_input's condition holds (app.py:233) | medium, not executed | `Analyzer.WarmUpThenClickWithoutMode` | `Analyzer.ReviewScraperApp.ModelInitializationDoneGuarded` |

`AnalyzeInput` models the handler as written, so it calls `AnalyzeReviews`. The
corrected members show the intended behaviour. `EnabledClickNeverUnbound` proves the
corrected invariant: while the button condition holds, a click reaches neither the
unbound input nor the empty-input message.
