/** Serving the change log in pages, and what a whole pull receives. */
module RelayPages {
  import opened Protocol
  import opened RelayStore

  const MAX_PAGE_BYTES: nat := 0x40_0000
  const DEFAULT_PAGE_LIMIT: nat := 200
  const MAX_PAGE_LIMIT: nat := 500

  datatype Page = Page(changes: seq<Change>, next: nat, through: nat, hasMore: bool)

  function Limit(limit: int): (n: nat)
    ensures 1 <= n <= MAX_PAGE_LIMIT
  {
    if limit <= 0 || limit > MAX_PAGE_LIMIT then DEFAULT_PAGE_LIMIT else limit
  }

  function Bound(log: seq<Change>, through: nat): nat {
    if through == 0 then |log| else through
  }

  function Bytes(changes: seq<Change>): nat {
    if changes == [] then 0 else Bytes(changes[..|changes| - 1]) + changes[|changes| - 1].env.size
  }

  /** Up to row n the page still fits: within the count, and within the bytes unless it is one row. */
  predicate Fits(log: seq<Change>, since: nat, n: nat, limit: nat)
    requires since <= n <= |log|
  {
    n - since <= limit && (n - since <= 1 || Bytes(log[since..n]) <= MAX_PAGE_BYTES)
  }

  /** The page after `since` through the bound: the longest run of rows that fits. */
  predicate IsPage(log: seq<Change>, since: nat, through: nat, limit: int, page: Page) {
    var bound := Bound(log, through);
    && since <= page.next <= bound <= |log|
    && page.through == bound
    && page.changes == log[since..page.next]
    && page.hasMore == (page.next < bound)
    && Fits(log, since, page.next, Limit(limit))
    && (page.next < bound ==> !Fits(log, since, page.next + 1, Limit(limit)))
  }

  lemma BytesSnoc(log: seq<Change>, since: nat, n: nat)
    requires since <= n < |log|
    ensures Bytes(log[since..n + 1]) == Bytes(log[since..n]) + log[n].env.size
    ensures log[since..n + 1] == log[since..n] + [log[n]]
  {
    var longer := log[since..n + 1];
    assert longer[..|longer| - 1] == log[since..n];
  }

  /** A page stops at the bound, or before a row that no longer fits. */
  lemma StopsHere(log: seq<Change>, since: nat, through: nat, limit: int, n: nat, bytesSoFar: nat)
    requires since <= n < Bound(log, through) <= |log| && bytesSoFar == Bytes(log[since..n])
    requires Fits(log, since, n, Limit(limit))
    requires n - since == Limit(limit) || (bytesSoFar + log[n].env.size > MAX_PAGE_BYTES && n > since)
    ensures IsPage(log, since, through, limit, Page(log[since..n], n, Bound(log, through), true))
  {
    BytesSnoc(log, since, n);
  }

  lemma EndsHere(log: seq<Change>, since: nat, through: nat, limit: int)
    requires since <= Bound(log, through) <= |log| && Fits(log, since, Bound(log, through), Limit(limit))
    ensures var n := Bound(log, through); IsPage(log, since, through, limit, Page(log[since..n], n, n, false))
  {
  }

  lemma StillFits(log: seq<Change>, since: nat, n: nat, max: nat, bytesSoFar: nat)
    requires since <= n < |log| && bytesSoFar == Bytes(log[since..n]) && n - since < max
    requires bytesSoFar + log[n].env.size <= MAX_PAGE_BYTES || n == since
    ensures Fits(log, since, n + 1, max) && Bytes(log[since..n + 1]) == bytesSoFar + log[n].env.size
    ensures log[since..n + 1] == log[since..n] + [log[n]]
  {
    BytesSnoc(log, since, n);
  }

  /** Takes rows up to a place, until one would be one too many. */
  method TakeRows(log: seq<Change>, since: nat, stop: nat, max: nat) returns (n: nat, changes: seq<Change>, full: bool)
    requires since <= stop <= |log| && Numbered(log)
    ensures since <= n <= stop && changes == log[since..n] && Fits(log, since, n, max)
    ensures full ==>
            n < stop && (n - since == max || (Bytes(log[since..n]) + log[n].env.size > MAX_PAGE_BYTES && n > since))
    ensures !full ==> n == stop
  {
    n, changes, full := since, [], false;
    var bytesSoFar := 0;
    while n < stop
      invariant since <= n <= stop && changes == log[since..n]
      invariant bytesSoFar == Bytes(log[since..n]) && Fits(log, since, n, max)
    {
      var row := log[n];
      assert row.seqNo == n + 1;
      if |changes| == max || (bytesSoFar + row.env.size > MAX_PAGE_BYTES && |changes| > 0) {
        return n, changes, true;
      }
      StillFits(log, since, n, max, bytesSoFar);
      changes, bytesSoFar, n := changes + [row], bytesSoFar + row.env.size, row.seqNo;
    }
  }

  /** GET /v1/records. An out-of-range bound is refused, not clamped. */
  method Changes(t: Tables, since: nat, through: nat, limit: int) returns (r: Result<Page>)
    requires Numbered(t.log)
    ensures r.Err? <==> Bound(t.log, through) > |t.log| || since > Bound(t.log, through)
    ensures r.Ok? ==> IsPage(t.log, since, through, limit, r.value)
  {
    var log, current := t.log, MaxSeq(t.log);
    MaxSeqIsLength(log);
    var bound := if through == 0 then current else through;
    if bound > current || since > bound { return Err(InvalidRequest); }
    var max := Limit(limit);
    // the rows of the query: after since, through the bound, at most one more than the limit
    var stop := if bound - since > max + 1 then since + max + 1 else bound;
    var n, changes, full := TakeRows(log, since, stop, max);
    if full {
      StopsHere(log, since, through, limit, n, Bytes(log[since..n]));
      return Ok(Page(changes, n, bound, true));
    }
    EndsHere(log, since, through, limit);
    r := Ok(Page(changes, n, bound, false));
  }

  lemma {:induction false} BytesGrow(log: seq<Change>, since: nat, m: nat, n: nat)
    requires since <= m <= n <= |log|
    ensures Bytes(log[since..m]) <= Bytes(log[since..n])
  {
    if m < n {
      BytesGrow(log, since, m, n - 1);
      assert log[since..n][..n - since - 1] == log[since..n - 1];
    }
  }

  /** The answer is determined by the log: two pages for one request are the same page. */
  lemma PageUnique(log: seq<Change>, since: nat, through: nat, limit: int, p: Page, q: Page)
    requires IsPage(log, since, through, limit, p) && IsPage(log, since, through, limit, q)
    ensures p == q
  {
    if p.next < q.next { BytesGrow(log, since, p.next + 1, q.next); }
    if q.next < p.next { BytesGrow(log, since, q.next + 1, p.next); }
  }

  // ---------------------------------------------------------------- a whole pull

  lemma Abut(log: seq<Change>, a: nat, b: nat, c: nat)
    requires a <= b <= c <= |log|
    ensures log[a..b] + log[b..c] == log[a..c]
  {
  }

  /** The pages one pull received; before each of them the log may have grown. The first
      page fixes the bound and the later ones name it. */
  predicate PullTrace(logs: seq<seq<Change>>, pages: seq<Page>, since: nat, limit: int) {
    var n := |pages|;
    && |logs| == n > 0
    && if n == 1 then IsPage(logs[0], since, 0, limit, pages[0])
       else PullTrace(logs[..n - 1], pages[..n - 1], since, limit) && logs[n - 2] <= logs[n - 1] &&
            pages[n - 2].hasMore && IsPage(logs[n - 1], pages[n - 2].next, pages[n - 2].through, limit, pages[n - 1])
  }

  function Received(pages: seq<Page>): seq<Change> {
    if pages == [] then [] else Received(pages[..|pages| - 1]) + pages[|pages| - 1].changes
  }

  /** A page has at most as many rows as asked for, 200 if that is not between 1 and 500, and at most 4 MiB
      unless it is one row; and it stops short of its bound only where the next row would be one too many. */
  lemma PageFull(log: seq<Change>, since: nat, through: nat, limit: int, page: Page)
    requires IsPage(log, since, through, limit, page)
    ensures var n, most := |page.changes|, if 1 <= limit <= 500 then limit else 200;
            && n <= most && (n > 1 ==> Bytes(page.changes) <= 4 * 1024 * 1024)
            && page.through == (if through == 0 then |log| else through)
            && (page.hasMore <==> since + n < page.through)
            && (page.hasMore ==>
                n == most || (n > 0 && Bytes(page.changes) + log[since + n].env.size > 4 * 1024 * 1024))
  {
    if page.hasMore { BytesSnoc(log, since, page.next); }
  }

  lemma PageProgress(log: seq<Change>, since: nat, through: nat, limit: int, page: Page)
    requires IsPage(log, since, through, limit, page)
    ensures page.hasMore ==> since < page.next
    ensures !page.hasMore ==> page.next == page.through
  {
  }

  /** However the log grows meanwhile, the pages concatenate to the rows after `since` up to
      the last cursor, each page that announces more is not empty, so there are at most as
      many pages as rows plus one; a pull that ends has every row through the first bound. */
  lemma {:induction false} PagesCoverOnce(logs: seq<seq<Change>>, pages: seq<Page>, since: nat, limit: int)
    requires PullTrace(logs, pages, since, limit)
    ensures var last := pages[|pages| - 1]; var through := |logs[0]|;
            && logs[0] <= logs[|logs| - 1]
            && last.through == through && since <= last.next <= through
            && Received(pages) == logs[0][since..last.next]
            && (last.hasMore ==> last.changes != [] && since + |pages| <= last.next)
            && (!last.hasMore ==> last.next == through && |pages| <= through - since + 1)
  {
    var n := |pages|;
    var last := pages[n - 1];
    if n == 1 {
      assert Received(pages[..0]) == [];
      PageProgress(logs[0], since, 0, limit, last);
    } else {
      PagesCoverOnce(logs[..n - 1], pages[..n - 1], since, limit);
      var prev := pages[n - 2];
      PageProgress(logs[n - 1], prev.next, prev.through, limit, last);
      assert last.changes == logs[0][prev.next..last.next];
      Abut(logs[0], since, prev.next, last.next);
    }
  }
}
