/** What the mailbox consumer of frontend/webui/messaging_live.py has done, as values: the pages it
    completed, the rows it showed and the checkpoints it saved; and what keeps them in step. */
module MessagingPages {
  import opened MailboxLog

  const MAX_CURSOR: nat := 9223372036854775807
  const PAGE_LIMIT: nat := 50

  datatype Error = Cancelled | Unauthorized | OtherError

  datatype Await = Fine | Fails(error: Error)

  /** How `reconcile` ends: normally while the page is active, by an early return, or by raising. */
  datatype Ended = Completed | Inactive | Raised(error: Error)

  /** The checkpoint in the browser's storage, as the page reads it back. */
  datatype Stored = Absent | Number(value: int) | Garbage

  datatype Hint = Available(cursor: int) | BadCursor | Heartbeat | Unknown

  /** What the page is told at the end of a reconciliation: of new messages and tests among them, of the
      number of unread ones, and that its list is out of date. */
  datatype Notice = Summary(count: nat, tests: nat) | Unread | Refresh

  datatype Transport = WebSocket | EventStream

  function Clamp(v: int): nat { if v < 0 then 0 else if v > MAX_CURSOR then MAX_CURSOR else v }

  /** `int(value or 0)` brought into range; a value that is no number counts as a failed load. */
  function Checkpoint(s: Stored): nat {
    match s
    case Absent => 0
    case Number(v) => Clamp(v)
    case Garbage => 0
  }

  /** A number in range is taken as it is, others are brought to the nearer end. */
  lemma CheckpointIs(v: int)
    ensures Checkpoint(Absent) == 0 == Checkpoint(Garbage) && 0 <= Checkpoint(Number(v)) <= MAX_CURSOR
    ensures (0 <= v <= MAX_CURSOR ==> Checkpoint(Number(v)) == v) && (v < 0 ==> Checkpoint(Number(v)) == 0)
    ensures v > MAX_CURSOR ==> Checkpoint(Number(v)) == MAX_CURSOR
  {}

  /** Storing a checkpoint never takes back a higher one. */
  function Kept(stored: Stored, value: nat): Stored {
    if stored.Number? && stored.value >= value then stored else Number(value)
  }

  /** Each transport in turn. */
  ghost predicate Alternating(used: seq<Transport>) {
    forall i :: 0 <= i < |used| ==> used[i] == if i % 2 == 0 then WebSocket else EventStream
  }

  /** Each pause is twice the one before, up to 30, or a single second again if hints had come. */
  ghost predicate Doubling(pauses: seq<nat>, connections: seq<seq<Hint>>) {
    |pauses| <= |connections| && forall i :: 0 <= i < |pauses| ==>
      pauses[i] == (if i == 0 then 1 else if pauses[i - 1] > 15 then 30 else 2 * pauses[i - 1]) ||
      (pauses[i] == 1 && connections[i] != [])
  }

  function Other(t: Transport): Transport { if t.WebSocket? then EventStream else WebSocket }

  function Doubled(pause: nat): nat { if pause * 2 < 30 then pause * 2 else 30 }

  /** The next transport, and the next pause if no hint comes. */
  ghost predicate InTurn(used: seq<Transport>, pauses: seq<nat>, transport: Transport, backoff: nat) {
    transport == (if |used| % 2 == 0 then WebSocket else EventStream) && |pauses| == |used| && 1 <= backoff <= 30 &&
    backoff == if pauses == [] then 1 else Doubled(pauses[|pauses| - 1])
  }

  lemma AtFirst(connections: seq<seq<Hint>>)
    ensures Alternating([]) && Doubling([], connections) && InTurn([], [], WebSocket, 1)
  {}

  lemma Again(used: seq<Transport>, pauses: seq<nat>, transport: Transport, backoff: nat, pause: nat,
              connections: seq<seq<Hint>>)
    requires Alternating(used) && Doubling(pauses, connections) && InTurn(used, pauses, transport, backoff)
    requires |used| < |connections| && (pause == backoff || (pause == 1 && connections[|used|] != []))
    ensures Alternating(used + [transport]) && Doubling(pauses + [pause], connections)
    ensures InTurn(used + [transport], pauses + [pause], Other(transport), Doubled(pause)) && 1 <= Doubled(pause) <= 30
  {}

  /** The run goes on after any error but a cancellation and a refused user, which end it. */
  lemma CaughtIs(e: Ended)
    ensures Caught(e) == Completed <==> e == Completed || e == Raised(OtherError)
    ensures e == Inactive || e == Raised(Cancelled) || e == Raised(Unauthorized) ==> Caught(e) == e
  {}

  lemma OneMore(log: seq<Row>, high: nat, r: Row)
    requires IsLog(log, high) && high < r.at
    ensures Grown(log, high, log + [r], r.at)
  {
    forall i | 0 <= i < |log| ensures log[i].at <= high { assert log[i] in log; }
  }

  lemma GrownTwice(a: seq<Row>, ha: nat, b: seq<Row>, hb: nat, c: seq<Row>, hc: nat)
    requires Grown(a, ha, b, hb) && Grown(b, hb, c, hc)
    ensures Grown(a, ha, c, hc) && ha <= hb <= hc
  {
    forall i | |a| <= i < |c| ensures c[i].at > ha {
      if i < |b| { assert c[i] == b[i]; }
    }
  }

  // ---- what a page has done ----

  /** A completed page: the cursor interval it covered, its rows, and where in the shown
      messages its own begin and end. */
  datatype Fetch = Fetch(from: nat, to: nat, rows: seq<Row>, live: bool, start: nat, end: nat)

  /** The fetches cover `(a, b]` piece by piece, without gap or overlap. */
  ghost predicate Tiled(fetches: seq<Fetch>, a: nat, b: nat) {
    if fetches == [] then a == b
    else
      var last := fetches[|fetches| - 1];
      last.from <= last.to == b && Tiled(fetches[..|fetches| - 1], a, last.from)
  }

  /** Every page holds exactly the rows of its interval, of which nothing was still to come. */
  ghost predicate Exact(log: seq<Row>, high: nat, fetches: seq<Fetch>) {
    forall f :: f in fetches ==> f.rows == Between(log, f.from, f.to) && (f.to <= high || f.to <= f.from)
  }

  /** Live pages were shown whole and in order before the cursor passed them, page after page. */
  ghost predicate ShownInOrder(fetches: seq<Fetch>, shown: seq<Row>) {
    (forall f :: f in fetches ==> f.start <= f.end <= |shown| && (f.live ==> shown[f.start..f.end] == f.rows)) &&
    (forall i, j :: 0 <= i < j < |fetches| ==> fetches[i].end <= fetches[j].start)
  }

  /** Nothing is shown once the cursor passed it. */
  ghost predicate NoRepeat(fetches: seq<Fetch>, shown: seq<Row>) {
    forall f, j :: f in fetches && f.end <= j < |shown| ==> shown[j].at > f.to
  }

  ghost predicate SavesFollow(saves: seq<nat>, cursor: nat) {
    (forall i :: 0 <= i < |saves| ==> saves[i] <= cursor) &&
      (forall i, j :: 0 <= i < j < |saves| ==> saves[i] <= saves[j])
  }

  /** Every row above the floor and up to `c` was delivered by some page. */
  ghost predicate Covers(log: seq<Row>, high: nat, delivered: seq<Row>, floor: nat, c: nat) {
    (c <= floor || c <= high) && forall r :: r in log && floor < r.at <= c ==> r in delivered
  }

  lemma CoversLater(log: seq<Row>, high: nat, later: seq<Row>, laterHigh: nat, delivered: seq<Row>, floor: nat, c: nat)
    requires Covers(log, high, delivered, floor, c) && Grown(log, high, later, laterHigh)
    ensures Covers(later, laterHigh, delivered, floor, c)
  {
    forall r | r in later && floor < r.at <= c ensures r in log {
      var i :| 0 <= i < |later| && later[i] == r;
      if i < |log| { assert log[i] == r; }
    }
  }

  lemma {:induction false} TiledWithin(fetches: seq<Fetch>, a: nat, b: nat)
    requires Tiled(fetches, a, b)
    ensures a <= b && forall f :: f in fetches ==> a <= f.from <= f.to <= b
  {
    if fetches != [] {
      var n := |fetches| - 1;
      TiledWithin(fetches[..n], a, fetches[n].from);
      assert fetches == fetches[..n] + [fetches[n]];
    }
  }

  function Gathered(fetches: seq<Fetch>): seq<Row> {
    if fetches == [] then [] else Gathered(fetches[..|fetches| - 1]) + fetches[|fetches| - 1].rows
  }

  /** All pages together delivered exactly the durable rows between the two cursors. */
  lemma {:induction false} GatheredIsBetween(log: seq<Row>, high: nat, fetches: seq<Fetch>, a: nat, b: nat)
    requires Increasing(log) && Tiled(fetches, a, b) && Exact(log, high, fetches)
    ensures Gathered(fetches) == Between(log, a, b)
  {
    if fetches == [] {
      NoneBetween(log, a, b);
    } else {
      var n := |fetches| - 1;
      var last := fetches[n];
      assert last in fetches;
      assert forall f :: f in fetches[..n] ==> f in fetches;
      TiledWithin(fetches[..n], a, last.from);
      GatheredIsBetween(log, high, fetches[..n], a, last.from);
      BetweenJoins(log, a, last.from, b);
    }
  }

  /** The last of these pages, from a cursor on. */
  lemma {:induction false} LastPages(fetches: seq<Fetch>, n: nat, a: nat, mid: nat, b: nat)
    requires n <= |fetches| && Tiled(fetches[..n], a, mid) && Tiled(fetches, a, b)
    ensures Tiled(fetches[n..], mid, b)
    decreases |fetches|
  {
    var last := |fetches| - 1;
    if n == |fetches| {
      assert fetches[..n] == fetches;
    } else {
      assert fetches[..last][..n] == fetches[..n] && fetches[n..][..last - n] == fetches[..last][n..];
      LastPages(fetches[..last], n, a, mid, fetches[last].from);
    }
  }

  lemma ExactLater(log: seq<Row>, high: nat, later: seq<Row>, laterHigh: nat, fetches: seq<Fetch>)
    requires Grown(log, high, later, laterHigh) && Exact(log, high, fetches)
    ensures Exact(later, laterHigh, fetches)
  {
    forall f | f in fetches ensures f.rows == Between(later, f.from, f.to) {
      BetweenStable(log, high, later, laterHigh, f.from, f.to);
    }
  }

  // ---- what single steps keep ----

  /** An answer that `reconcile` refuses. */
  predicate Misplaced(page: Page, cursor: nat) {
    page.nextCursor < cursor || (page.hasMore && page.nextCursor <= cursor)
  }

  /** What the `except` clauses of `run` let through. */
  function Caught(e: Ended): Ended { if e == Raised(OtherError) then Completed else e }

  lemma StartsFresh(log: seq<Row>, high: nat, delivered: seq<Row>, floor: nat, c: nat)
    requires Covers(log, high, delivered, floor, c)
    ensures Covers(log, high, delivered, floor, 0) && Exact(log, high, [])
    ensures c == 0 || c <= high || c <= floor
  {}

  /** `after` is `before`, or one page more. */
  ghost predicate AddsPage(before: seq<Fetch>, after: seq<Fetch>, live: bool) {
    after == before || (after != [] && after[..|after| - 1] == before && after[|after| - 1].live == live)
  }

  /** `after` is `before` and then only pages of one mode. */
  ghost predicate Extends(before: seq<Fetch>, after: seq<Fetch>, live: bool) {
    before <= after && forall f :: f in after[|before|..] ==> f.live == live
  }

  /** What is told at the end of a reconciliation over some rows, in this order. */
  ghost function Notices(summary: bool, total: nat, tests: nat): seq<Notice> {
    (if summary && total > 0 then [Summary(total, tests)] else []) + [Unread] + if total > 0 then [Refresh] else []
  }

  /** A completed reconciliation over these rows tells all of this, and one that fails the first part of it. */
  ghost predicate Announced(e: Ended, summary: bool, rows: seq<Row>, before: seq<Notice>, after: seq<Notice>) {
    before <= after && after[|before|..] <= Notices(summary, |rows|, Tests(rows)) &&
    (e.Completed? ==> after[|before|..] == Notices(summary, |rows|, Tests(rows)))
  }

  lemma NotAnnounced(e: Ended, summary: bool, rows: seq<Row>, before: seq<Notice>)
    requires !e.Completed?
    ensures Announced(e, summary, rows, before, before)
  {}

  lemma IsAnnounced(e: Ended, summary: bool, log: seq<Row>, high: nat, later: seq<Row>, laterHigh: nat,
                    start: nat, end: nat,
                    total: nat, testTotal: nat, before: seq<Notice>, after: seq<Notice>)
    requires Grown(log, high, later, laterHigh) && (end == start || end <= high)
    requires Counted(log, start, end, total, testTotal)
    requires before <= after && after[|before|..] <= Notices(summary, total, testTotal)
    requires e.Completed? ==> after[|before|..] == Notices(summary, total, testTotal)
    ensures Announced(e, summary, Between(later, start, end), before, after) && high <= laterHigh
  {
    BetweenStable(log, high, later, laterHigh, start, end);
  }

  lemma EndsBy(fetches: seq<Fetch>, shown: seq<Row>)
    requires ShownInOrder(fetches, shown)
    ensures forall f :: f in fetches ==> f.end <= |shown|
  {}

  lemma BeforePages(log: seq<Row>, high: nat, cursor: nat, fetches: seq<Fetch>, live: bool)
    requires IsLog(log, high)
    ensures Grown(log, high, log, high) && Extends(fetches, fetches, live)
    ensures Counted(log, cursor, cursor, 0, 0)
  {
    NoneBetween(log, cursor, cursor);
  }

  /** The numbers of rows and of test rows between two cursors. */
  ghost predicate Counted(log: seq<Row>, a: nat, b: nat, count: nat, tests: nat) {
    count == |Between(log, a, b)| && tests == Tests(Between(log, a, b))
  }

  /** The tally of a reconciliation over one more page. */
  lemma Tally(log: seq<Row>, high: nat, later: seq<Row>, laterHigh: nat, start: nat, mid: nat, end: nat,
              total: nat, testTotal: nat, count: nat, tests: nat)
    requires Grown(log, high, later, laterHigh) && start <= mid <= end && (mid == start || mid <= high)
    requires Counted(log, start, mid, total, testTotal) && Counted(later, mid, end, count, tests)
    ensures Counted(later, start, end, total + count, testTotal + tests)
  {
    BetweenStable(log, high, later, laterHigh, start, mid);
    BetweenJoins(later, start, mid, end);
    TestsAppend(Between(later, start, mid), Between(later, mid, end));
  }

  lemma PagesFollow(log0: seq<Row>, high0: nat, log1: seq<Row>, high1: nat, log2: seq<Row>, high2: nat,
                    first: seq<Fetch>, before: seq<Fetch>, after: seq<Fetch>, live: bool)
    requires Grown(log0, high0, log1, high1) && Grown(log1, high1, log2, high2)
    requires Extends(first, before, live)
    requires AddsPage(before, after, live)
    ensures Grown(log0, high0, log2, high2) && high0 <= high1 && Extends(first, after, live)
  {
    GrownTwice(log0, high0, log1, high1, log2, high2);
    if after != before {
      assert after[|first|..] == before[|first|..] + [after[|after| - 1]];
    }
  }

  /** What the client knows of a page that was read at (log, high) and arrived later. */
  lemma PageRead(log0: seq<Row>, high0: nat, log: seq<Row>, high: nat, log1: seq<Row>, high1: nat, cursor: nat,
      page: Page)
    requires Grown(log0, high0, log, high) && Grown(log, high, log1, high1)
    requires page == CatchUp(log, high, cursor, PAGE_LIMIT) ||
      page.nextCursor < cursor || (page.hasMore && page.nextCursor == cursor)
    ensures Grown(log0, high0, log1, high1) && high0 <= high <= high1
    ensures page == CatchUp(log, high, cursor, PAGE_LIMIT) ==> !Misplaced(page, cursor)
    ensures !Misplaced(page, cursor) ==>
      PageHolds(log1, high1, cursor, page) && (!page.hasMore ==> page.nextCursor >= high)
  {
    GrownTwice(log0, high0, log, high, log1, high1);
    PageIsExact(log, high, cursor, PAGE_LIMIT);
    if !Misplaced(page, cursor) {
      BetweenStable(log, high, log1, high1, cursor, page.nextCursor);
      BetweenSorted(log1, cursor, page.nextCursor);
    }
  }

  ghost predicate PageHolds(log: seq<Row>, high: nat, cursor: nat, page: Page) {
    page.items == Between(log, cursor, page.nextCursor) && page.nextCursor >= cursor &&
    (page.nextCursor == cursor || page.nextCursor <= high) && (page.hasMore ==> cursor < page.nextCursor <= high) &&
    Increasing(page.items) && forall r :: r in page.items ==> r.at > cursor
  }

  lemma PageFits(log: seq<Row>, high: nat, cursor: nat, page: Page)
    requires PageHolds(log, high, cursor, page)
    ensures page.items == Between(log, cursor, page.nextCursor) && page.nextCursor >= cursor
    ensures page.nextCursor == cursor || page.nextCursor <= high
  {}

  lemma RowsStay(log0: seq<Row>, high0: nat, log: seq<Row>, high: nat, later: seq<Row>, laterHigh: nat, cursor: nat,
      page: Page)
    requires Grown(log0, high0, log, high) && Grown(log, high, later, laterHigh) && PageHolds(log, high, cursor, page)
    ensures PageHolds(later, laterHigh, cursor, page) && Grown(log0, high0, later, laterHigh) && high <= laterHigh
    ensures Counted(later, cursor, page.nextCursor, |page.items|, Tests(page.items))
  {
    GrownTwice(log0, high0, log, high, later, laterHigh);
    BetweenStable(log, high, later, laterHigh, cursor, page.nextCursor);
  }

  lemma GrownToItself(log: seq<Row>, high: nat)
    requires IsLog(log, high)
    ensures Grown(log, high, log, high)
  {}

  lemma CoversMore(log: seq<Row>, high: nat, delivered: seq<Row>, floor: nat, c: nat, next: nat)
    requires Covers(log, high, delivered, floor, c) && c <= next && (next == c || next <= high)
    ensures Covers(log, high, delivered + Between(log, c, next), floor, next)
  {
    forall r | r in log && floor < r.at <= next ensures r in delivered + Between(log, c, next) {
      InBetween(log, c, next, r);
    }
  }

  lemma CoversStill(log: seq<Row>, high: nat, delivered: seq<Row>, more: seq<Row>, floor: nat, c: nat)
    requires Covers(log, high, delivered, floor, c)
    ensures Covers(log, high, delivered + more, floor, c)
  {}

  /** The checkpoint in the storage is the one the run found or one that it saved, and not a lower one. */
  ghost predicate StoredBy(entry: Stored, saves: seq<nat>, stored: Stored) {
    (stored == entry || exists v :: v in saves && stored == Number(v)) && Checkpoint(entry) <= Checkpoint(stored)
  }

  lemma StoredNext(entry: Stored, saves: seq<nat>, stored: Stored, value: nat, next: Stored)
    requires StoredBy(entry, saves, stored) && value <= MAX_CURSOR && (next == stored || next == Kept(stored, value))
    ensures StoredBy(entry, saves + [value], next)
  {
    assert forall v :: v in saves ==> v in saves + [value];
    assert value in saves + [value];
  }

  /** So it is never ahead of the cursor, unless it was when the run began. */
  lemma StoredBound(entry: Stored, saves: seq<nat>, stored: Stored, cursor: nat)
    requires StoredBy(entry, saves, stored) && SavesFollow(saves, cursor) && cursor <= MAX_CURSOR
    ensures Checkpoint(stored) <= Checkpoint(entry) || Checkpoint(stored) <= cursor
  {
    if stored != entry {
      var v :| v in saves && stored == Number(v);
      var i :| 0 <= i < |saves| && saves[i] == v;
    }
  }

  lemma GatheredNext(fetches: seq<Fetch>, f: Fetch)
    ensures Gathered(fetches + [f]) == Gathered(fetches) + f.rows
  {
    assert (fetches + [f])[..|fetches|] == fetches;
  }

  lemma AdvanceTiles(log: seq<Row>, high: nat, fetches: seq<Fetch>, loaded: nat, cursor: nat, f: Fetch)
    requires Tiled(fetches, loaded, cursor) && Exact(log, high, fetches)
    requires f.from == cursor <= f.to && f.rows == Between(log, f.from, f.to) && (f.to == cursor || f.to <= high)
    ensures Tiled(fetches + [f], loaded, f.to) && Exact(log, high, fetches + [f])
  {
    hide Between;
    assert (fetches + [f])[..|fetches + [f]| - 1] == fetches;
  }

  lemma AdvanceShows(log: seq<Row>, fetches: seq<Fetch>, shown: seq<Row>, f: Fetch)
    requires ShownInOrder(fetches, shown) && NoRepeat(fetches, shown)
    requires f.start <= f.end == |shown| && (f.live ==> shown[f.start..] == f.rows) &&
      forall g :: g in fetches ==> g.end <= f.start
    ensures ShownInOrder(fetches + [f], shown) && NoRepeat(fetches + [f], shown)
  {
    var all := fetches + [f];
    assert shown[f.start..f.end] == shown[f.start..];
    assert forall g :: g in all ==> g in fetches || g == f;
    forall i, j | 0 <= i < j < |all| ensures all[i].end <= all[j].start {
      assert all[i] in fetches;
    }
  }

  lemma ShowOne(fetches: seq<Fetch>, shown: seq<Row>, row: Row)
    requires ShownInOrder(fetches, shown) && NoRepeat(fetches, shown)
    requires forall f :: f in fetches ==> f.to < row.at
    ensures ShownInOrder(fetches, shown + [row]) && NoRepeat(fetches, shown + [row])
  {
    forall f | f in fetches && f.live ensures (shown + [row])[f.start..f.end] == f.rows {
      assert (shown + [row])[f.start..f.end] == shown[f.start..f.end];
    }
  }
}
