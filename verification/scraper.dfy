/** `scrape_reviews_from_url`: fetch the listing page and keep one review record per
    review container that has both a text element and a title element. The HTTP request
    is a parameter of the operation, and the parsed page is the sequence of containers
    that `find_all` returns. */
module Scraper {
  import opened Wrappers

  /** The body-text element of a container, reduced to its stripped text. */
  datatype TextElement = TextElement(text: string)

  /** The title anchor of a container: its `href` attribute (absent is None) and its
      stripped text. */
  datatype TitleElement = TitleElement(href: Option<string>, text: string)

  /** A `review-container` block; either element may be missing. */
  datatype Container = Container(textElement: Option<TextElement>, titleElement: Option<TitleElement>)

  /** The record `{text, url, title}` appended for a complete container. */
  datatype Review = Review(text: string, url: Option<string>, title: string)

  /** What `requests.get` produced: a response whose page parses to the given containers,
      or an exception (connection error, invalid address, ...). */
  datatype FetchResult = Responded(status: int, containers: seq<Container>) | Raised

  /** The network request, as a function of the address. */
  type Fetcher = string -> FetchResult

  /** `raise_for_status` raises for client errors (4xx) and server errors (5xx). */
  predicate RaisesForStatus(status: int)
  {
    400 <= status < 600
  }

  /** Both elements were found. */
  predicate Complete(c: Container)
  {
    c.textElement.Some? && c.titleElement.Some?
  }

  /** The record made from a complete container. */
  function RecordOf(c: Container): (r: Review)
    requires Complete(c)
    ensures r.text == c.textElement.value.text
    ensures r.url == c.titleElement.value.href && r.title == c.titleElement.value.text
  {
    Review(c.textElement.value.text, c.titleElement.value.href, c.titleElement.value.text)
  }

  /** The records of the complete containers, in document order. */
  function Kept(cs: seq<Container>): seq<Review>
  {
    if cs == [] then []
    else
      var last := cs[|cs| - 1];
      Kept(cs[..|cs| - 1]) + (if Complete(last) then [RecordOf(last)] else [])
  }

  /** A single container yields a record exactly when both of its elements were found,
      and that record is its own. */
  lemma KeptOneNeedsBoth(c: Container)
    ensures Kept([c]) != [] <==> c.textElement.Some? && c.titleElement.Some?
    ensures Kept([c]) != [] ==> Kept([c]) == [RecordOf(c)]
  {
    assert [c][..0] == [];
  }

  /** The positions of the complete containers, in increasing order. */
  function CompleteIndices(cs: seq<Container>): seq<nat>
  {
    if cs == [] then []
    else
      CompleteIndices(cs[..|cs| - 1]) + (if Complete(cs[|cs| - 1]) then [|cs| - 1] else [])
  }

  /** What the scraper returns for a fetch: nothing when the request raised or the status
      was an error, otherwise the records of the complete containers. */
  function Scraped(fetched: FetchResult): seq<Review>
  {
    match fetched
    case Raised => []
    case Responded(status, cs) => if RaisesForStatus(status) then [] else Kept(cs)
  }

  /** A failed request or a 4xx/5xx status yields no record; any other status yields
      the records of the complete containers of the page. */
  lemma ScrapedByStatus(status: int, cs: seq<Container>)
    ensures Scraped(Raised) == []
    ensures 400 <= status < 600 ==> Scraped(Responded(status, cs)) == []
    ensures (status < 400 || status >= 600) ==> Scraped(Responded(status, cs)) == Kept(cs)
  {
  }

  /** `scrape_reviews_from_url`: the loop appending one record per complete container. */
  method ScrapeReviews(reviewsUrl: string, fetch: Fetcher) returns (reviews: seq<Review>)
    ensures reviews == Scraped(fetch(reviewsUrl))
    ensures fetch(reviewsUrl).Raised? ==> reviews == []
    ensures fetch(reviewsUrl).Responded? && RaisesForStatus(fetch(reviewsUrl).status) ==> reviews == []
  {
    reviews := [];
    var response := fetch(reviewsUrl);
    if response.Raised? || RaisesForStatus(response.status) {
      return;
    }
    var containers := response.containers;
    var i := 0;
    while i < |containers|
      invariant 0 <= i <= |containers|
      invariant reviews == Kept(containers[..i])
    {
      var container := containers[i];
      if container.textElement.Some? && container.titleElement.Some? {
        var reviewText := container.textElement.value.text;
        var reviewUrl := container.titleElement.value.href;
        var reviewTitle := container.titleElement.value.text;
        reviews := reviews + [Review(reviewText, reviewUrl, reviewTitle)];
      }
      assert containers[..i + 1][..i] == containers[..i];
      i := i + 1;
    }
    assert containers[..i] == containers;
  }

  /** The positions of the complete containers are increasing, in range, and are exactly
      the complete containers. */
  lemma {:induction false} CompleteIndicesExact(cs: seq<Container>)
    ensures forall k :: 0 <= k < |CompleteIndices(cs)| ==>
              CompleteIndices(cs)[k] < |cs| && Complete(cs[CompleteIndices(cs)[k]])
    ensures forall j, k :: 0 <= j < k < |CompleteIndices(cs)| ==>
              CompleteIndices(cs)[j] < CompleteIndices(cs)[k]
    ensures forall i :: 0 <= i < |cs| && Complete(cs[i]) ==> i in CompleteIndices(cs)
  {
    if cs != [] {
      var init := cs[..|cs| - 1];
      CompleteIndicesExact(init);
      forall k | 0 <= k < |CompleteIndices(init)|
        ensures cs[CompleteIndices(init)[k]] == init[CompleteIndices(init)[k]]
      {
      }
    }
  }

  /** Record k is made from the container at the k-th complete position: one record per
      complete container, in document order. */
  lemma {:induction false} KeptFromCompleteIndices(cs: seq<Container>)
    ensures |Kept(cs)| == |CompleteIndices(cs)|
    ensures forall k :: 0 <= k < |Kept(cs)| ==>
              CompleteIndices(cs)[k] < |cs| && Complete(cs[CompleteIndices(cs)[k]]) &&
              Kept(cs)[k] == RecordOf(cs[CompleteIndices(cs)[k]])
  {
    if cs != [] {
      var init := cs[..|cs| - 1];
      KeptFromCompleteIndices(init);
      forall k | 0 <= k < |CompleteIndices(init)|
        ensures cs[CompleteIndices(init)[k]] == init[CompleteIndices(init)[k]]
      {
      }
    }
  }

  /** At most one record per container. */
  lemma {:induction false} KeptLength(cs: seq<Container>)
    ensures |Kept(cs)| <= |cs|
  {
    if cs != [] {
      KeptLength(cs[..|cs| - 1]);
    }
  }

  /** When every container is complete, record k comes from container k. */
  lemma {:induction false} KeptAllComplete(cs: seq<Container>)
    requires forall i :: 0 <= i < |cs| ==> Complete(cs[i])
    ensures |Kept(cs)| == |cs|
    ensures forall k :: 0 <= k < |cs| ==> Kept(cs)[k] == RecordOf(cs[k])
  {
    if cs != [] {
      KeptAllComplete(cs[..|cs| - 1]);
    }
  }

  /** No record at all exactly when no container is complete. */
  lemma {:induction false} KeptEmptyIff(cs: seq<Container>)
    ensures Kept(cs) == [] <==> forall i :: 0 <= i < |cs| ==> !Complete(cs[i])
  {
    if cs != [] {
      KeptEmptyIff(cs[..|cs| - 1]);
      assert forall i :: 0 <= i < |cs| - 1 ==> cs[..|cs| - 1][i] == cs[i];
    }
  }

  /** A page with one well-formed container and one missing its title yields exactly the
      record of the well-formed one. */
  lemma KeptDropsIncomplete(good: Container, noTitle: Container)
    requires Complete(good) && noTitle.titleElement.None?
    ensures Kept([good, noTitle]) == [RecordOf(good)]
    ensures Kept([noTitle, good]) == [RecordOf(good)]
  {
    assert [good, noTitle][..1] == [good] && [good][..0] == [];
    assert [noTitle, good][..1] == [noTitle] && [noTitle][..0] == [];
    assert Kept([good]) == [RecordOf(good)];
  }
}
