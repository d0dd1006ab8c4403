/** The fetch handler's classifier: the spreadsheet-feed URL test and the
    first-match-wins choice among the three strategies. */
module Router {
  import opened Fetch

  /** The literal parts of `/docs\.google\.com\/spreadsheets\/.*tqx=out:csv/`. */
  const FEED_HOST_PATH: string := "docs.google.com/spreadsheets/"
  const FEED_CSV_QUERY: string := "tqx=out:csv"

  /** The characters a JavaScript `.` does not match. */
  predicate IsLineTerminator(c: char) {
    c == '\n' || c == '\r' || c == '\U{2028}' || c == '\U{2029}'
  }

  /** `w` occurs in `s` starting at index `i`. */
  predicate OccursAt(s: string, w: string, i: nat) {
    i + |w| <= |s| && s[i..i + |w|] == w
  }

  /** No line terminator in `s[lo..hi]`. */
  predicate SingleLine(s: string, lo: nat, hi: nat)
    requires lo <= hi <= |s|
  {
    forall m :: lo <= m < hi ==> !IsLineTerminator(s[m])
  }

  /** The regex matches with the host/path literal at `i` and the CSV marker
      at `j`, the `.*` between them spanning no line terminator. */
  ghost predicate FeedMatchAt(s: string, i: nat, j: nat) {
    && OccursAt(s, FEED_HOST_PATH, i)
    && i + |FEED_HOST_PATH| <= j
    && OccursAt(s, FEED_CSV_QUERY, j)
    && SingleLine(s, i + |FEED_HOST_PATH|, j)
  }

  /** The unanchored `RegExp.prototype.test` of the feed pattern. */
  ghost predicate IsFeedUrl(s: string) {
    exists i: nat, j: nat :: FeedMatchAt(s, i, j)
  }

  /** The CSV marker occurs at or after `j` with no line terminator before it. */
  function MarkerFrom(s: string, j: nat): bool
    requires j <= |s|
    decreases |s| - j
  {
    OccursAt(s, FEED_CSV_QUERY, j) || (j < |s| && !IsLineTerminator(s[j]) && MarkerFrom(s, j + 1))
  }

  /** Some match of the feed pattern starts at or after `i`. */
  function MatchFrom(s: string, i: nat): bool
    requires i <= |s|
    decreases |s| - i
  {
    (OccursAt(s, FEED_HOST_PATH, i) && MarkerFrom(s, i + |FEED_HOST_PATH|))
    || (i < |s| && MatchFrom(s, i + 1))
  }

  function MatchesFeed(url: string): bool {
    MatchFrom(url, 0)
  }

  lemma {:induction false} MarkerFromCorrect(s: string, j: nat)
    requires j <= |s|
    ensures MarkerFrom(s, j) <==> exists k: nat :: j <= k <= |s| && OccursAt(s, FEED_CSV_QUERY, k) && SingleLine(s, j, k)
    decreases |s| - j
  {
    if MarkerFrom(s, j) {
      if !OccursAt(s, FEED_CSV_QUERY, j) {
        MarkerFromCorrect(s, j + 1);
        var k: nat :| j + 1 <= k <= |s| && OccursAt(s, FEED_CSV_QUERY, k) && SingleLine(s, j + 1, k);
        assert SingleLine(s, j, k);
      } else {
        assert SingleLine(s, j, j);
      }
    }
    if exists k: nat :: j <= k <= |s| && OccursAt(s, FEED_CSV_QUERY, k) && SingleLine(s, j, k) {
      var k: nat :| j <= k <= |s| && OccursAt(s, FEED_CSV_QUERY, k) && SingleLine(s, j, k);
      if k > j {
        assert !IsLineTerminator(s[j]);
        assert SingleLine(s, j + 1, k);
        MarkerFromCorrect(s, j + 1);
      }
    }
  }

  lemma {:induction false} MatchFromCorrect(s: string, i: nat)
    requires i <= |s|
    ensures MatchFrom(s, i) <==> exists a: nat, k: nat :: i <= a && FeedMatchAt(s, a, k)
    decreases |s| - i
  {
    var p := |FEED_HOST_PATH|;
    if OccursAt(s, FEED_HOST_PATH, i) {
      MarkerFromCorrect(s, i + p);
    }
    if i < |s| {
      MatchFromCorrect(s, i + 1);
    }
    if MatchFrom(s, i) {
      if OccursAt(s, FEED_HOST_PATH, i) && MarkerFrom(s, i + p) {
        var k: nat :| i + p <= k <= |s| && OccursAt(s, FEED_CSV_QUERY, k) && SingleLine(s, i + p, k);
        assert FeedMatchAt(s, i, k);
      }
    }
    if exists a: nat, k: nat :: i <= a && FeedMatchAt(s, a, k) {
      var a: nat, k: nat :| i <= a && FeedMatchAt(s, a, k);
      if a == i {
        assert MarkerFrom(s, i + p);
      } else {
        assert i + 1 <= a;
      }
    }
  }

  /** The executable test agrees with the regex's meaning on every URL. */
  lemma MatchesFeedCorrect(url: string)
    ensures MatchesFeed(url) <==> IsFeedUrl(url)
  {
    MatchFromCorrect(url, 0);
  }

  datatype Route = SpreadsheetFeed | Navigation | Generic

  /** The fetch handler's first-match-wins dispatch: the feed pattern is
      tested before the navigate mode. */
  function Classify(req: Request): (route: Route)
    ensures route == SpreadsheetFeed <==> IsFeedUrl(req.url)
    ensures route == Navigation <==> !IsFeedUrl(req.url) && req.mode == Navigate
    ensures route == Generic <==> !IsFeedUrl(req.url) && req.mode != Navigate
  {
    MatchesFeedCorrect(req.url);
    if MatchesFeed(req.url) then SpreadsheetFeed
    else if req.mode == Navigate then Navigation
    else Generic
  }

  /** Any URL carrying the host/path literal and, later on the same line,
      the CSV marker is a feed URL, whatever surrounds them. */
  lemma FeedUrlShape(pre: string, mid: string, post: string)
    requires forall m :: 0 <= m < |mid| ==> !IsLineTerminator(mid[m])
    ensures IsFeedUrl(pre + FEED_HOST_PATH + mid + FEED_CSV_QUERY + post)
  {
    var s := pre + FEED_HOST_PATH + mid + FEED_CSV_QUERY + post;
    var i, j := |pre|, |pre| + |FEED_HOST_PATH| + |mid|;
    assert s[i..i + |FEED_HOST_PATH|] == FEED_HOST_PATH;
    assert s[j..j + |FEED_CSV_QUERY|] == FEED_CSV_QUERY;
    assert forall m :: i + |FEED_HOST_PATH| <= m < j ==> s[m] == mid[m - i - |FEED_HOST_PATH|];
    assert FeedMatchAt(s, i, j);
  }
}
