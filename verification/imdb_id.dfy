/** Extracting the IMDb title id from a film link, and building the review-listing
    address from an id (`extract_imdb_id` and the address built in `analyze_input`). */
module ImdbId {
  import opened Wrappers

  const Slash: char := '/'

  /** The listing address is built as ReviewsPrefix + id + ReviewsSuffix. Both constants
      are written as short concatenated pieces: the verifier reasons about the characters
      of a long string literal only at great cost. */
  const ReviewsPrefix: string := "https:" + "//" + "www.imdb.com" + "/" + "title" + "/"
  const ReviewsSuffix: string := "/reviews?sort=" + "submissionDate" + "&dir=desc" + "&ratingFilter=0"

  /** Python's `s.split(sep)` for a one-character separator: every occurrence of `sep`
      cuts, empty segments are kept, and there is always at least one segment. */
  function Split(s: string, sep: char): (parts: seq<string>)
    ensures |parts| >= 1
    ensures forall i :: 0 <= i < |parts| ==> sep !in parts[i]
    decreases |s|
  {
    if s == [] then [""]
    else if s[0] == sep then [""] + Split(s[1..], sep)
    else
      var rest := Split(s[1..], sep);
      assert sep !in rest[0];
      [[s[0]] + rest[0]] + rest[1..]
  }

  /** Python's `sep.join(parts)`: the inverse of Split. */
  function Join(parts: seq<string>, sep: char): string
    requires |parts| >= 1
  {
    if |parts| == 1 then parts[0] else parts[0] + [sep] + Join(parts[1..], sep)
  }

  /** Number of occurrences of `c` in `s`. */
  function Count(s: string, c: char): nat
  {
    if s == [] then 0 else (if s[0] == c then 1 else 0) + Count(s[1..], c)
  }

  /** Joining the segments of a split gives back the string. */
  lemma {:induction false} JoinSplit(s: string, sep: char)
    ensures Join(Split(s, sep), sep) == s
    decreases |s|
  {
    if s == [] {
    } else if s[0] == sep {
      JoinSplit(s[1..], sep);
    } else {
      var rest := Split(s[1..], sep);
      JoinSplit(s[1..], sep);
      if |rest| > 1 {
        assert Join(rest, sep) == rest[0] + [sep] + Join(rest[1..], sep);
        assert ([[s[0]] + rest[0]] + rest[1..])[1..] == rest[1..];
      }
    }
  }

  /** A string without the separator is one segment. */
  lemma {:induction false} SplitWithoutSeparator(w: string, sep: char)
    requires sep !in w
    ensures Split(w, sep) == [w]
    decreases |w|
  {
    if w != [] {
      SplitWithoutSeparator(w[1..], sep);
      assert [w[0]] + w[1..] == w;
    }
  }

  /** A separator-free prefix followed by the separator is split off as one segment. */
  lemma {:induction false} SplitAfterSegment(w: string, t: string, sep: char)
    requires sep !in w
    ensures Split(w + [sep] + t, sep) == [w] + Split(t, sep)
    decreases |w|
  {
    var s := w + [sep] + t;
    if w == [] {
      assert s[0] == sep && s[1..] == t;
    } else {
      assert s[0] == w[0] && s[1..] == w[1..] + [sep] + t;
      SplitAfterSegment(w[1..], t, sep);
      assert [w[0]] + w[1..] == w;
    }
  }

  /** Splitting a join of separator-free segments gives back the segments. */
  lemma {:induction false} SplitJoin(parts: seq<string>, sep: char)
    requires |parts| >= 1
    requires forall i :: 0 <= i < |parts| ==> sep !in parts[i]
    ensures Split(Join(parts, sep), sep) == parts
    decreases |parts|
  {
    if |parts| == 1 {
      SplitWithoutSeparator(parts[0], sep);
    } else {
      SplitJoin(parts[1..], sep);
      SplitAfterSegment(parts[0], Join(parts[1..], sep), sep);
      assert [parts[0]] + parts[1..] == parts;
    }
  }

  /** A split has one more segment than there are separators. */
  lemma {:induction false} SplitLength(s: string, sep: char)
    ensures |Split(s, sep)| == Count(s, sep) + 1
    decreases |s|
  {
    if s != [] {
      SplitLength(s[1..], sep);
    }
  }

  /** `extract_imdb_id`: the fifth `/`-separated segment (index 4) of the link, or None
      when the split has fewer than five segments (the IndexError the source catches). */
  function ExtractImdbId(filmUrl: string): (id: Option<string>)
    ensures id.None? <==> Count(filmUrl, Slash) < 4
    ensures id.Some? ==> Slash !in id.value
  {
    SplitLength(filmUrl, Slash);
    var segments := Split(filmUrl, Slash);
    if |segments| > 4 then Some(segments[4]) else None
  }

  /** The id is the segment at index 4 of any decomposition of the link into
      `/`-free segments, and there is none with fewer than five segments. */
  lemma ExtractFromSegments(parts: seq<string>)
    requires |parts| >= 1
    requires forall i :: 0 <= i < |parts| ==> Slash !in parts[i]
    ensures |parts| >= 5 ==> ExtractImdbId(Join(parts, Slash)) == Some(parts[4])
    ensures |parts| < 5 ==> ExtractImdbId(Join(parts, Slash)) == None
  {
    SplitJoin(parts, Slash);
  }

  /** Positional reading of the link: the id is whatever stands between the fourth
      `/` and the fifth `/` (or the end of the link). */
  lemma ExtractFromPath(filmUrl: string, a: string, b: string, c: string, d: string,
                        imdbId: string, rest: string)
    requires Slash !in a && Slash !in b && Slash !in c && Slash !in d && Slash !in imdbId
    requires rest == [] || rest[0] == Slash
    requires filmUrl == a + [Slash] + (b + [Slash] + (c + [Slash] + (d + [Slash] + (imdbId + rest))))
    ensures ExtractImdbId(filmUrl) == Some(imdbId)
  {
    var t := imdbId + rest;
    if rest == [] {
      assert t == imdbId;
      SplitWithoutSeparator(imdbId, Slash);
    } else {
      assert t == imdbId + [Slash] + rest[1..];
      SplitAfterSegment(imdbId, rest[1..], Slash);
    }
    SplitAfterSegment(d, t, Slash);
    SplitAfterSegment(c, d + [Slash] + t, Slash);
    SplitAfterSegment(b, c + [Slash] + (d + [Slash] + t), Slash);
    SplitAfterSegment(a, b + [Slash] + (c + [Slash] + (d + [Slash] + t)), Slash);
    SplitLength(filmUrl, Slash);
  }

  /** The address of the listing page of reviews for a title id. */
  function ReviewsUrl(imdbId: string): string
  {
    ReviewsPrefix + imdbId + ReviewsSuffix
  }

  /** The listing address consists of the prefix, the id and the suffix, in that order. */
  lemma ReviewsUrlParts(imdbId: string)
    ensures |ReviewsUrl(imdbId)| == |ReviewsPrefix| + |imdbId| + |ReviewsSuffix|
    ensures ReviewsUrl(imdbId)[..|ReviewsPrefix|] == ReviewsPrefix
    ensures ReviewsUrl(imdbId)[|ReviewsPrefix|..|ReviewsPrefix| + |imdbId|] == imdbId
    ensures ReviewsUrl(imdbId)[|ReviewsPrefix| + |imdbId|..] == ReviewsSuffix
  {
    var url := ReviewsUrl(imdbId);
    assert url == (ReviewsPrefix + imdbId) + ReviewsSuffix;
    assert url[..|ReviewsPrefix| + |imdbId|] == ReviewsPrefix + imdbId;
  }

  /** Different ids give different listing addresses. */
  lemma ReviewsUrlInjective(id1: string, id2: string)
    requires ReviewsUrl(id1) == ReviewsUrl(id2)
    ensures id1 == id2
  {
    ReviewsUrlParts(id1);
    ReviewsUrlParts(id2);
  }

  /** The prefix of the listing address as `/`-separated segments. */
  lemma PrefixSegments()
    ensures ReviewsPrefix == "https:" + [Slash] + ("" + [Slash] + ("www.imdb.com" + [Slash] + ("title" + [Slash])))
  {
  }

  /** Extracting the id from the listing address gives back the id it was built from. */
  lemma ExtractFromReviewsUrl(imdbId: string)
    requires Slash !in imdbId
    ensures ExtractImdbId(ReviewsUrl(imdbId)) == Some(imdbId)
  {
    PrefixSegments();
    assert ReviewsSuffix[0] == Slash;
    ExtractFromPath(ReviewsUrl(imdbId), "https:", "", "www.imdb.com", "title", imdbId, ReviewsSuffix);
  }

  // The examples below take their link as a parameter fixed by `requires`, and reach it
  // through ExtractFromPath: unfolding Split on a literal link costs the verifier far
  // more than reasoning about a variable.

  /** A link to a title page with a trailing slash, such as
      `https://www.imdb.com/title/tt1234567/`, yields the id before that slash. */
  lemma ExtractTitleLink(filmUrl: string)
    requires filmUrl == ReviewsPrefix + "tt1234567" + "/"
    ensures ExtractImdbId(filmUrl) == Some("tt1234567")
  {
    PrefixSegments();
    ExtractFromPath(filmUrl, "https:", "", "www.imdb.com", "title", "tt1234567", "/");
  }

  /** Four slashes with nothing after the last one yield the empty id, which
      `analyze_input` then rejects. */
  lemma ExtractEmptySegment(filmUrl: string)
    requires filmUrl == "a/b/c/d/"
    ensures ExtractImdbId(filmUrl) == Some("")
  {
    assert filmUrl == "a" + [Slash] + ("b" + [Slash] + ("c" + [Slash] + ("d" + [Slash] + ("" + ""))));
    ExtractFromPath(filmUrl, "a", "b", "c", "d", "", "");
  }
}
