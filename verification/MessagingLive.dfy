/** The browser page's mailbox consumer of frontend/webui/messaging_live.py. At every await the
    world may move: rows arrive, the page may become inactive, and the awaited call may fail. */
module MessagingLive {
  import opened MailboxLog
  import opened MessagingPages
  import opened MessagingSteps

  // ---- the world outside the page ----

  class World {
    /** No sequence number above this is ever given out: the log is finite. */
    const bound: nat
    /** Where the first session of this account's checkpoint started. */
    ghost const floor: nat
    var log: seq<Row>
    var high: nat
    var active: bool
    var stored: Stored
    /** The rows of all pages that were completed, by any session. */
    ghost var delivered: seq<Row>
    /** How often an awaited call failed, an answer was wrong, or the page was found inactive. */
    ghost var faults: nat

    constructor (bound: nat, stored: Stored)
      requires bound <= MAX_CURSOR
      ensures this.bound == bound && this.stored == stored && floor == Checkpoint(stored) && Sound()
      ensures log == [] && high == 0 && delivered == []
    {
      this.bound, this.floor, this.stored := bound, Checkpoint(stored), stored;
      log, high, active, delivered, faults := [], 0, true, [], 0;
    }

    ghost predicate Sound()
      reads this
    {
      IsLog(log, high) && high <= bound <= MAX_CURSOR && Covers(log, high, delivered, floor, Checkpoint(stored))
    }

    /** Anything that can happen while the page waits. */
    method Drift()
      requires Sound()
      modifies `log, `high, `active, `faults
      ensures Sound() && Grown(old(log), old(high), log, high)
      ensures faults >= old(faults) && (faults == old(faults) ==> active)
    {
      ghost var log0, high0 := log, high;
      var steps: nat := *;
      while steps > 0
        invariant Sound() && Grown(log0, high0, log, high) && faults == old(faults)
      {
        var number: nat, test: bool, used: bool := *, *, *;
        if high < number <= bound {
          if used {
            OneMore(log, high, Row(number, test));
            GrownTwice(log0, high0, log, high, log + [Row(number, test)], number);
            CoversLater(log, high, log + [Row(number, test)], number, delivered, floor, Checkpoint(stored));
            log := log + [Row(number, test)];
          } else {
            GrownTwice(log0, high0, log, high, log, number);
            CoversLater(log, high, log, number, delivered, floor, Checkpoint(stored));
          }
          high := number;
        }
        steps := steps - 1;
      }
      active := *;
      if !active { faults := faults + 1; }
    }

    /** The checkpoint arrives at the storage, or does not. */
    method Store(value: nat)
      requires Sound() && Covers(log, high, delivered, floor, value) && value <= MAX_CURSOR
      modifies `stored, `faults
      ensures Sound() && (stored == old(stored) || stored == Kept(old(stored), value))
      ensures faults >= old(faults) && (faults == old(faults) ==> Checkpoint(stored) >= value)
    {
      hide Covers, IsLog;
      var arrives: bool := *;
      if arrives { stored := Kept(stored, value); } else { faults := faults + 1; }
    }

    /** How an awaited call ends. */
    method Result() returns (a: Await)
      requires Sound()
      modifies `faults
      ensures Sound() && faults >= old(faults) && (faults == old(faults) ==> a.Fine?)
    {
      var fails: bool, error: Error := *, *;
      if fails { faults := faults + 1; }
      a := if fails then Fails(error) else Fine;
    }
  }

  // ---- the mailbox ----

  class LiveMailbox {
    const world: World
    var cursor: nat
    /** What the page was told at the end of reconciliations. */
    var notices: seq<Notice>
    /** The steps of the task of the run; overlapping reconciliations of other tasks are not among them. */
    ghost var steps: seq<Step>
    ghost var loaded: nat
    /** What was stored, and what had been delivered, when the run began. */
    ghost var entry: Stored
    ghost var before: seq<Row>
    ghost var fetches: seq<Fetch>
    ghost var shown: seq<Row>
    ghost var saves: seq<nat>

    constructor (world: World)
      requires world.Sound()
      ensures this.world == world && Valid() && cursor == 0
      ensures entry == world.stored && before == world.delivered && fetches == [] && shown == [] && saves == []
    {
      this.world := world;
      cursor, notices, steps := 0, [], [];
      loaded, fetches, shown, saves := 0, [], [], [];
      entry, before := world.stored, world.delivered;
    }

    /** What holds at every await of every run. */
    ghost predicate Valid()
      reads `cursor, `loaded, `entry, `before, `fetches, `shown, `saves, world
    {
      world.Sound() && loaded <= MAX_CURSOR &&
      Tiled(fetches, loaded, cursor) && (cursor == loaded || cursor <= world.high) &&
      Exact(world.log, world.high, fetches) && ShownInOrder(fetches, shown) && NoRepeat(fetches, shown) &&
      SavesFollow(saves, cursor) && StoredBy(entry, saves, world.stored) &&
      world.delivered == before + Gathered(fetches) &&
      Covers(world.log, world.high, world.delivered, world.floor, cursor)
    }

    method Wait() returns (a: Await)
      requires Valid()
      modifies world`log, world`high, world`active, world`faults
      ensures Valid() && Grown(old(world.log), old(world.high), world.log, world.high)
      ensures world.faults >= old(world.faults) && (world.faults == old(world.faults) ==> world.active && a.Fine?)
    {
      ghost var log, high := world.log, world.high;
      world.Drift();
      a := world.Result();
      ExactLater(log, high, world.log, world.high, fetches);
      CoversLater(log, high, world.log, world.high, world.delivered, world.floor, cursor);
    }

    method PresentMessage(row: Row) returns (a: Await)
      requires Valid() && row.at > cursor
      modifies world`log, world`high, world`active, world`faults, `shown
      ensures Valid() && Grown(old(world.log), old(world.high), world.log, world.high)
      ensures shown == old(shown) || shown == old(shown) + [row]
      ensures a.Fine? ==> shown == old(shown) + [row]
      ensures world.faults >= old(world.faults) && (world.faults == old(world.faults) ==> world.active && a.Fine?)
    {
      a := Wait();
      ghost var displayed: bool := *;
      if a.Fine? || displayed {
        TiledWithin(fetches, loaded, cursor);
        ShowOne(fetches, shown, row);
        shown := shown + [row];
      }
    }

    method SaveCursor(value: nat) returns (a: Await)
      requires Valid() && value == cursor
      modifies world`log, world`high, world`active, world`faults, world`stored, `saves
      ensures Valid() && Grown(old(world.log), old(world.high), world.log, world.high)
      ensures world.stored == old(world.stored) || world.stored == Kept(old(world.stored), value)
      ensures world.faults == old(world.faults) ==> Checkpoint(world.stored) >= value
      ensures saves == old(saves) + [value]
      ensures world.faults >= old(world.faults) && (world.faults == old(world.faults) ==> world.active && a.Fine?)
    {
      hide Tiled, Exact, ShownInOrder, NoRepeat, Covers, Grown, IsLog, Checkpoint, StoredBy, Gathered;
      world.Store(value);
      StoredNext(entry, saves, old(world.stored), value, world.stored);
      saves := saves + [value];
      a := Wait();
    }

    /** One catch-up request: the server reads its log at some moment of the wait. An answer that is
        not the page asked for has a cursor that goes back or, with more to come, stays. */
    method Request() returns (a: Await, page: Page, ghost log: seq<Row>, ghost high: nat)
      requires Valid()
      modifies world`log, world`high, world`active, world`faults
      ensures Valid() && Grown(old(world.log), old(world.high), log, high) && Grown(log, high, world.log, world.high)
      ensures page == CatchUp(log, high, cursor, PAGE_LIMIT) ||
        page.nextCursor < cursor || (page.hasMore && page.nextCursor == cursor)
      ensures world.faults >= old(world.faults)
      ensures world.faults == old(world.faults) ==>
        world.active && a.Fine? && page == CatchUp(log, high, cursor, PAGE_LIMIT)
    {
      var sent := Wait();
      log, high := world.log, world.high;
      page := CatchUp(world.log, world.high, cursor, PAGE_LIMIT);
      var wrong: Page := *;
      PageIsExact(world.log, world.high, cursor, PAGE_LIMIT);
      if wrong.nextCursor < cursor || (wrong.hasMore && wrong.nextCursor == cursor) {
        page, world.faults := wrong, world.faults + 1;
      }
      a := Wait();
      if sent.Fails? { a := sent; }
      GrownToItself(log, high);
    }

    /** The first half of a turn of the loop of `reconcile`: a page, received and checked. */
    method ReadPage() returns (e: Ended, page: Page, ghost seen: nat)
      requires Valid()
      modifies world`log, world`high, world`active, world`faults
      ensures Valid() && Grown(old(world.log), old(world.high), world.log, world.high)
      ensures e.Completed? ==> PageHolds(world.log, world.high, cursor, page)
      ensures e.Completed? ==> old(world.high) <= seen <= world.high && (!page.hasMore ==> page.nextCursor >= seen)
      ensures world.faults >= old(world.faults) && (world.faults == old(world.faults) ==> world.active && e.Completed?)
    {
      hide Tiled, Exact, ShownInOrder, NoRepeat, SavesFollow, StoredBy, Gathered, Covers, CatchUp, Grown, Increasing;
      ghost var log0, high0 := world.log, world.high;
      var a;
      ghost var log, high;
      a, page, log, high := Request();
      seen := high;
      PageRead(log0, high0, log, high, world.log, world.high, cursor, page);
      e := if a.Fails? then Raised(a.error) else if !world.active then Inactive
           else if Misplaced(page, cursor) then Raised(OtherError) else Completed;
    }

    /** Show the rows of a live page one by one, as long as the page is active. */
    method PresentAll(rows: seq<Row>) returns (e: Ended)
      requires Valid() && Increasing(rows) && forall r :: r in rows ==> r.at > cursor
      modifies world`log, world`high, world`active, world`faults, `shown
      ensures Valid() && Grown(old(world.log), old(world.high), world.log, world.high)
      ensures old(shown) <= shown
      ensures e.Completed? ==> shown == old(shown) + rows
      ensures world.faults >= old(world.faults)
      ensures world.faults == old(world.faults) && old(world.active) ==> world.active && e.Completed?
    {
      hide Tiled, Exact, ShownInOrder, NoRepeat, SavesFollow, StoredBy, Gathered, Covers, Grown, IsLog;
      ghost var log, high := world.log, world.high;
      GrownToItself(log, high);
      var i := 0;
      while i < |rows|
        invariant i <= |rows| && Valid() && Grown(log, high, world.log, world.high)
        invariant shown == old(shown) + rows[..i]
        invariant world.faults >= old(world.faults) &&
          (world.faults == old(world.faults) && old(world.active) ==> world.active)
      {
        if !world.active { return Inactive; }
        ghost var now, nowHigh := world.log, world.high;
        var a := PresentMessage(rows[i]);
        GrownTwice(log, high, now, nowHigh, world.log, world.high);
        if a.Fails? { return Raised(a.error); }
        assert rows[..i + 1] == rows[..i] + [rows[i]];
        i := i + 1;
      }
      assert rows[..i] == rows;
      return Completed;
    }

    /** Move past a page whose rows were shown from `start` on, if they were shown at all. */
    method Advance(page: Page, live: bool, ghost start: nat)
      requires Valid() && page.nextCursor >= cursor && (page.nextCursor == cursor || page.nextCursor <= world.high)
      requires page.items == Between(world.log, cursor, page.nextCursor)
      requires start <= |shown| && forall f :: f in fetches ==> f.end <= start
      requires if live then shown[start..] == page.items else start == |shown|
      modifies `cursor, `fetches, world`delivered
      ensures Valid() && cursor == page.nextCursor && world.delivered == old(world.delivered) + page.items
      ensures fetches == old(fetches) + [Fetch(old(cursor), cursor, page.items, live, start, |shown|)]
    {
      hide Tiled, Exact, ShownInOrder, NoRepeat, Covers, IsLog, Between, Checkpoint, StoredBy, Gathered;
      ghost var f := Fetch(cursor, page.nextCursor, page.items, live, start, |shown|);
      AdvanceTiles(world.log, world.high, fetches, loaded, cursor, f);
      AdvanceShows(world.log, fetches, shown, f);
      GatheredNext(fetches, f);
      CoversMore(world.log, world.high, world.delivered, world.floor, cursor, page.nextCursor);
      CoversStill(world.log, world.high, world.delivered, page.items, world.floor, Checkpoint(world.stored));
      assert world.delivered + page.items == before + (Gathered(fetches) + page.items);
      world.delivered := world.delivered + page.items;
      cursor := page.nextCursor;
      fetches := fetches + [f];
    }

    /** The second half: a checked page is shown, if it is to be, and passed, and the cursor saved. */
    method TakePage(page: Page, summary: bool) returns (e: Ended)
      requires Valid() && PageHolds(world.log, world.high, cursor, page)
      modifies world`log, world`high, world`active, world`faults, world`stored, world`delivered
      modifies `cursor, `fetches, `shown, `saves
      ensures Valid() && Grown(old(world.log), old(world.high), world.log, world.high)
      ensures PageHolds(world.log, world.high, old(cursor), page)
      ensures cursor == old(cursor) || cursor == page.nextCursor
      ensures old(shown) <= shown && old(saves) <= saves && AddsPage(old(fetches), fetches, !summary)
      ensures e.Completed? ==> cursor == page.nextCursor
      ensures world.faults >= old(world.faults)
      ensures world.faults == old(world.faults) && old(world.active) ==>
        world.active && e.Completed? && Checkpoint(world.stored) >= cursor
    {
      hide Valid, Grown, PageHolds, Counted, Checkpoint;
      ghost var log0, high0, begin := world.log, world.high, |shown|;
      ShownSoFar();
      e := Show(page, !summary);
      if e.Completed? {
        ghost var log1, high1 := world.log, world.high;
        PageFits(log1, high1, cursor, page);
        Advance(page, !summary, begin);
        var a := SaveCursor(page.nextCursor);
        RowsStay(log0, high0, log1, high1, world.log, world.high, old(cursor), page);
        if a.Fails? { e := Raised(a.error); }
      }
    }

    /** A page is shown if it is live; either way the world goes on. */
    method Show(page: Page, live: bool) returns (e: Ended)
      requires Valid() && PageHolds(world.log, world.high, cursor, page)
      modifies world`log, world`high, world`active, world`faults, `shown
      ensures Valid() && Grown(old(world.log), old(world.high), world.log, world.high)
      ensures PageHolds(world.log, world.high, cursor, page) && old(shown) <= shown
      ensures e.Completed? ==> if live then shown[|old(shown)|..] == page.items else |shown| == |old(shown)|
      ensures world.faults >= old(world.faults)
      ensures world.faults == old(world.faults) && old(world.active) ==> world.active && e.Completed?
    {
      hide Valid, Grown, Increasing, Counted;
      ghost var log0, high0 := world.log, world.high;
      GrownFromHere();
      e := Completed;
      if live { e := PresentAll(page.items); }
      RowsStay(log0, high0, log0, high0, world.log, world.high, cursor, page);
    }

    /** One turn of the loop of `reconcile`. */
    method OnePage(summary: bool) returns (e: Ended, count: nat, tests: nat, again: bool, ghost seen: nat)
      requires Valid()
      modifies world`log, world`high, world`active, world`faults, world`stored, world`delivered
      modifies `cursor, `fetches, `shown, `saves
      ensures Valid() && Grown(old(world.log), old(world.high), world.log, world.high)
      ensures cursor >= old(cursor) && old(shown) <= shown && old(saves) <= saves
      ensures AddsPage(old(fetches), fetches, !summary)
      ensures e.Completed? ==> Counted(world.log, old(cursor), cursor, count, tests)
      ensures e.Completed? && again ==> old(cursor) < cursor <= world.bound
      ensures e.Completed? && !again ==> old(world.high) <= seen <= world.high && cursor >= seen
      ensures world.faults >= old(world.faults)
      ensures world.faults == old(world.faults) && old(world.active) ==>
        world.active && e.Completed? && Checkpoint(world.stored) >= cursor
    {
      hide Valid, Grown, Increasing, Checkpoint;
      ghost var log0, high0 := world.log, world.high;
      var page;
      e, page, seen := ReadPage();
      count, tests, again := |page.items|, Tests(page.items), page.hasMore;
      if e.Completed? {
        ghost var log1, high1 := world.log, world.high;
        e := TakePage(page, summary);
        GrownTwice(log0, high0, log1, high1, world.log, world.high);
      }
      HighIsBounded();
    }

    lemma ShownSoFar()
      requires Valid()
      ensures forall f :: f in fetches ==> f.end <= |shown|
    {
      EndsBy(fetches, shown);
    }

    lemma HighIsBounded()
      requires Valid()
      ensures world.high <= world.bound
    {}

    /** The loop of `reconcile`: pages until there are no more. `seen` is the last sequence number
        given out when the last page was read. */
    method ReadPages(summary: bool) returns (e: Ended, total: nat, testTotal: nat, ghost seen: nat)
      requires Valid()
      modifies world`log, world`high, world`active, world`faults, world`stored, world`delivered, `cursor, `fetches,
        `shown, `saves
      ensures Valid() && Grown(old(world.log), old(world.high), world.log, world.high)
      ensures old(shown) <= shown && old(saves) <= saves
      ensures cursor >= old(cursor) && Extends(old(fetches), fetches, !summary)
      ensures e.Completed? ==> old(world.high) <= seen <= world.high && cursor >= seen
      ensures e.Completed? ==> Counted(world.log, old(cursor), cursor, total, testTotal)
      ensures world.faults >= old(world.faults)
      ensures world.faults == old(world.faults) && old(world.active) ==>
        world.active && e.Completed? && Checkpoint(world.stored) >= cursor
    {
      hide Tiled, Exact, ShownInOrder, NoRepeat, SavesFollow, StoredBy, Gathered, Covers, Grown, Extends,
        Counted, IsLog;
      TiledWithin(fetches, loaded, cursor);
      BeforePages(world.log, world.high, cursor, fetches, !summary);
      ghost var log0, high0, start := world.log, world.high, cursor;
      total, testTotal, seen, e := 0, 0, 0, Completed;
      var more := true;
      while e.Completed? && more && world.active
        invariant Valid() && Grown(log0, high0, world.log, world.high)
        invariant loaded <= start <= cursor && Extends(old(fetches), fetches, !summary)
        invariant old(shown) <= shown && old(saves) <= saves
        invariant e.Completed? ==> Counted(world.log, start, cursor, total, testTotal)
        invariant e.Completed? && !more ==> high0 <= seen <= world.high && cursor >= seen
        invariant world.faults >= old(world.faults)
        invariant world.faults == old(world.faults) && old(world.active) ==>
          world.active && e.Completed? && (more || Checkpoint(world.stored) >= cursor)
        decreases e.Completed?, more, if cursor <= world.bound then world.bound - cursor else 0
      {
        ghost var log1, high1, mid, fetched := world.log, world.high, cursor, fetches;
        var count, tests;
        e, count, tests, more, seen := OnePage(summary);
        PagesFollow(log0, high0, log1, high1, world.log, world.high, old(fetches), fetched, fetches, !summary);
        if e.Completed? {
          Tally(log1, high1, world.log, world.high, start, mid, cursor, total, testTotal, count, tests);
          total, testTotal := total + count, testTotal + tests;
        }
      }
      if e.Completed? && !world.active { e := Inactive; }
    }

    /** `reconcile`, from the moment it has the lock. */
    method Locked(summary: bool) returns (e: Ended, ghost seen: nat)
      requires Valid()
      modifies world`log, world`high, world`active, world`faults, world`stored, world`delivered, `cursor, `notices,
        `fetches, `shown, `saves
      ensures Valid() && Grown(old(world.log), old(world.high), world.log, world.high)
      ensures old(shown) <= shown && old(saves) <= saves
      ensures cursor >= old(cursor) && Extends(old(fetches), fetches, !summary)
      ensures e.Completed? ==> old(world.high) <= seen <= world.high && cursor >= seen
      ensures Announced(e, summary, Between(world.log, old(cursor), cursor), old(notices), notices)
      ensures world.faults >= old(world.faults)
      ensures world.faults == old(world.faults) && old(world.active) ==>
        world.active && e.Completed? && Checkpoint(world.stored) >= cursor
    {
      hide Tiled, Exact, ShownInOrder, NoRepeat, SavesFollow, StoredBy, Gathered, Covers, Grown, Announced, Extends,
        Counted, IsLog;
      TiledWithin(fetches, loaded, cursor);
      ghost var log0, high0, start := world.log, world.high, cursor;
      var total, testTotal;
      e, total, testTotal, seen := ReadPages(summary);
      if !e.Completed? {
        NotAnnounced(e, summary, Between(world.log, start, cursor), notices);
        return;
      }
      ghost var log1, high1 := world.log, world.high;
      e := Announce(summary, total, testTotal);
      GrownTwice(log0, high0, log1, high1, world.log, world.high);
      IsAnnounced(e, summary, log1, high1, world.log, world.high, start, cursor, total, testTotal, old(notices),
        notices);
    }

    /** `reconcile`: it waits for the lock, while other calls may have it, and goes on alone. */
    method Reconcile(summary: bool) returns (e: Ended)
      requires Valid()
      modifies world`log, world`high, world`active, world`faults, world`stored, world`delivered
      modifies `cursor, `notices, `fetches, `shown, `saves, `steps
      ensures Valid() && Grown(old(world.log), old(world.high), world.log, world.high) && world.high >= old(world.high)
      ensures cursor >= old(cursor) && old(fetches) <= fetches && old(shown) <= shown && old(saves) <= saves
      ensures Worked(old(steps), steps, summary, e) && LastWork(steps[|old(steps)|])
      ensures e.Completed? ==> cursor >= old(world.high)
      ensures world.faults >= old(world.faults)
      ensures world.faults == old(world.faults) && old(world.active) ==>
        world.active && e.Completed? && Checkpoint(world.stored) >= cursor
    {
      hide Valid, Grown, Announced, Checkpoint, Extends, Done;
      ghost var log, high := world.log, world.high;
      GrownFromHere();
      Meanwhile(log, high);
      ghost var log1, high1, seen, from, pages, told := world.log, world.high, 0, cursor, fetches, notices;
      TiledSoFar();
      e, seen := Locked(summary);
      GrownTwice(log, high, log1, high1, world.log, world.high);
      WorkIsDone(summary, from, pages, told, e);
      steps := steps + [Reconciled(Work(summary, from, cursor, fetches[|pages|..], notices[|told|..], e))];
    }

    /** The pages and notices of this reconciliation are the last ones, and it ended at this cursor. */
    ghost predicate LastWork(s: Step)
      reads this
    {
      s.Reconciled? && s.work.to == cursor && |s.work.pages| <= |fetches| && |s.work.told| <= |notices| &&
      fetches[|fetches| - |s.work.pages|..] == s.work.pages && notices[|notices| - |s.work.told|..] == s.work.told
    }

    lemma TiledSoFar()
      requires Valid()
      ensures Tiled(fetches, loaded, cursor)
    {}

    lemma WorkIsDone(summary: bool, from: nat, pages: seq<Fetch>, told: seq<Notice>, e: Ended)
      requires Valid() && Tiled(pages, loaded, from) && Extends(pages, fetches, !summary)
      requires Announced(e, summary, Between(world.log, from, cursor), told, notices)
      ensures pages <= fetches && told <= notices
      ensures Done(Work(summary, from, cursor, fetches[|pages|..], notices[|told|..], e))
    {
      hide Covers, ShownInOrder, NoRepeat, SavesFollow, StoredBy, Notices;
      var more := fetches[|pages|..];
      assert fetches[..|pages|] == pages;
      LastPages(fetches, |pages|, loaded, from, cursor);
      GatheredIsBetween(world.log, world.high, more, from, cursor);
    }

    lemma GrownFromHere()
      requires Valid()
      ensures Grown(world.log, world.high, world.log, world.high)
    {
      GrownToItself(world.log, world.high);
    }

    /** What overlapping calls of `reconcile` may do while this task waits outside the lock: any
        number of pages, live or not, and announcements. */
    method Meanwhile(ghost log0: seq<Row>, ghost high0: nat)
      requires Valid() && Grown(log0, high0, world.log, world.high)
      modifies world`log, world`high, world`active, world`faults, world`stored, world`delivered
      modifies `cursor, `notices, `fetches, `shown, `saves
      ensures Valid() && Grown(log0, high0, world.log, world.high) && world.high >= old(world.high)
      ensures cursor >= old(cursor) && old(fetches) <= fetches && old(shown) <= shown && old(saves) <= saves
      ensures world.faults >= old(world.faults)
      ensures world.faults == old(world.faults) && old(world.active) ==> world.active
      ensures world.faults == old(world.faults) && old(world.active) && old(Checkpoint(world.stored) >= cursor) ==>
        Checkpoint(world.stored) >= cursor
    {
      hide Valid, Grown, Counted, Checkpoint;
      var steps: nat := *;
      while steps > 0
        invariant Valid() && Grown(log0, high0, world.log, world.high) && world.high >= old(world.high)
        invariant cursor >= old(cursor) && old(fetches) <= fetches && old(shown) <= shown && old(saves) <= saves
        invariant world.faults >= old(world.faults)
        invariant world.faults == old(world.faults) && old(world.active) ==> world.active
        invariant world.faults == old(world.faults) && old(world.active) && old(Checkpoint(world.stored) >= cursor) ==>
          Checkpoint(world.stored) >= cursor
      {
        ghost var log1, high1 := world.log, world.high;
        var page: bool, summary: bool, total: nat, testTotal: nat := *, *, *, *;
        if page {
          var e, count, tests, again, seen := OnePage(summary);
        } else {
          var e := Announce(summary, total, testTotal);
        }
        GrownTwice(log0, high0, log1, high1, world.log, world.high);
        steps := steps - 1;
      }
    }

    /** One notice; if it fails it may have been seen all the same. */
    method Tell(notice: Notice, ghost log0: seq<Row>, ghost high0: nat) returns (a: Await)
      requires Valid() && Grown(log0, high0, world.log, world.high)
      modifies world`log, world`high, world`active, world`faults, `notices
      ensures Valid() && Grown(log0, high0, world.log, world.high) && world.high >= old(world.high)
      ensures notices == old(notices) || notices == old(notices) + [notice]
      ensures a.Fine? ==> notices == old(notices) + [notice]
      ensures world.faults >= old(world.faults) && (world.faults == old(world.faults) ==> world.active && a.Fine?)
    {
      hide Valid, Grown;
      a := WaitFrom(log0, high0);
      var seen: bool := *;
      if a.Fine? || seen { notices := notices + [notice]; }
    }

    /** The unread count is asked for; then the summary if there is one, the count and the refresh. */
    method Announce(summary: bool, total: nat, testTotal: nat) returns (e: Ended)
      requires Valid()
      modifies world`log, world`high, world`active, world`faults, `notices
      ensures Valid() && Grown(old(world.log), old(world.high), world.log, world.high)
      ensures old(notices) <= notices && notices[|old(notices)|..] <= Notices(summary, total, testTotal)
      ensures e.Completed? ==> notices[|old(notices)|..] == Notices(summary, total, testTotal)
      ensures world.faults >= old(world.faults) && (world.faults == old(world.faults) ==> world.active && e.Completed?)
    {
      hide Valid, Grown;
      ghost var log0, high0 := world.log, world.high;
      GrownFromHere();
      var a := WaitFrom(log0, high0);
      if a.Fails? { return Raised(a.error); }
      if !world.active { return Inactive; }
      if summary && total > 0 {
        a := Tell(Summary(total, testTotal), log0, high0);
        if a.Fails? { return Raised(a.error); }
      }
      a := Tell(Unread, log0, high0);
      if a.Fails? { return Raised(a.error); }
      if total > 0 {
        a := Tell(Refresh, log0, high0);
        if a.Fails? { return Raised(a.error); }
      }
      return Completed;
    }

    /** The checkpoint is read back, or the run starts at zero. */
    method Load() returns (e: Ended, ghost a: Await)
      requires Valid()
      modifies world`log, world`high, world`active, world`faults, `cursor, `loaded, `entry, `before, `fetches,
        `shown, `saves
      ensures Valid() && Grown(old(world.log), old(world.high), world.log, world.high)
      ensures world.high >= old(world.high) && (e.Completed? ==> fetches == [] && shown == [] && saves == [])
      ensures e == if a == Fails(Cancelled) then Raised(Cancelled) else Completed
      ensures e.Completed? ==> cursor == loaded == if a.Fine? then Checkpoint(world.stored) else 0
      ensures e.Completed? ==> entry == world.stored && before == world.delivered
      ensures !e.Completed? ==> entry == old(entry) && before == old(before) && fetches == old(fetches)
      ensures world.faults >= old(world.faults)
      ensures world.faults == old(world.faults) ==> world.active && e.Completed? && loaded == Checkpoint(world.stored)
    {
      hide Exact, Covers, IsLog, Grown, Increasing;
      ghost var log, high := world.log, world.high;
      GrownFromHere();
      var answer := WaitFrom(log, high);
      a := answer;
      if answer == Fails(Cancelled) { return Raised(Cancelled), a; }
      cursor := if answer.Fails? then 0 else Checkpoint(world.stored);
      loaded, fetches, shown, saves := cursor, [], [], [];
      entry, before := world.stored, world.delivered;
      assert before + [] == before;
      StartsFresh(world.log, world.high, world.delivered, world.floor, Checkpoint(world.stored));
      return Completed, a;
    }

    /** The start of `run`, which is its first step. */
    method Start(ghost connections: seq<seq<Hint>>) returns (e: Ended)
      requires Valid()
      modifies world`log, world`high, world`active, world`faults, `cursor, `loaded, `entry, `before, `fetches,
        `shown, `saves, `steps
      ensures Valid() && Grown(old(world.log), old(world.high), world.log, world.high)
      ensures Begun(old(entry), old(before), old(fetches), old(world.stored), old(world.delivered))
      ensures e.Completed? ==> entry == old(world.stored) && before == old(world.delivered)
      ensures AllDone(steps) && After(steps, connections) == if e.Completed? then Ready(0, 1) else Over(e)
      ensures world.high >= old(world.high) && world.faults >= old(world.faults) && e != Raised(OtherError)
      ensures world.faults == old(world.faults) ==> world.active && e.Completed?
    {
      hide Valid, Grown, AllDone, After;
      ghost var a;
      e, a := Load();
      AtStart(a, connections);
      steps := [Loaded(a)];
    }

    /** One hint of the stream. A hint at or below the cursor changes nothing; any other one but
        a heartbeat leads to a reconciliation over all that is durable. */
    method OnHint(hint: Hint) returns (e: Ended)
      requires Valid()
      modifies world`log, world`high, world`active, world`faults, world`stored, world`delivered
      modifies `cursor, `notices, `fetches, `shown, `saves, `steps
      ensures Valid() && Grown(old(world.log), old(world.high), world.log, world.high)
      ensures cursor >= old(cursor) && old(fetches) <= fetches && old(shown) <= shown && old(saves) <= saves
      ensures hint.Unknown? ==> Worked(old(steps), steps, true, e)
      ensures hint.Available? && hint.cursor > old(cursor) ==> Worked(old(steps), steps, false, e)
      ensures hint.BadCursor? || hint.Heartbeat? || (hint.Available? && hint.cursor <= old(cursor)) ==>
        steps == old(steps)
      ensures hint.Heartbeat? || (hint.Available? && hint.cursor <= old(cursor)) ==>
        e == Completed && fetches == old(fetches) && shown == old(shown) && unchanged(world)
      ensures hint.Unknown? || (hint.Available? && hint.cursor > old(cursor)) ==>
        (e.Completed? ==> cursor >= old(world.high))
      ensures hint.BadCursor? ==> e == Raised(OtherError)
      ensures world.faults >= old(world.faults)
      ensures world.faults == old(world.faults) && old(world.active) ==>
        world.active && (e.Completed? || hint.BadCursor?)
    {
      hide Valid, Grown, Checkpoint, Worked, LastWork;
      GrownFromHere();
      match hint {
        case Unknown => e := Reconcile(true);
        case Heartbeat => e := Completed;
        case BadCursor => e := Raised(OtherError);
        case Available(c) =>
          if c > cursor { e := Reconcile(false); } else { e := Completed; }
      }
    }

    /** The wait for the next hint and what the hint leads to. */
    method Hear(hint: Hint, backoff: nat, ghost connections: seq<seq<Hint>>, ghost c: nat, ghost i: nat)
      returns (e: Ended, next: nat)
      requires Valid() && c < |connections| && i < |connections[c]| && hint == connections[c][i]
      requires AllDone(steps) && After(steps, connections) == Listening(c, i, backoff)
      modifies world`log, world`high, world`active, world`faults, world`stored, world`delivered, `cursor, `notices,
        `fetches, `shown, `saves, `steps
      ensures Valid() && Grown(old(world.log), old(world.high), world.log, world.high)
      ensures cursor >= old(cursor) && old(fetches) <= fetches && old(shown) <= shown && old(saves) <= saves
      ensures AllDone(steps) && After(steps, connections) == Then(e, c, i + 1, next)
      ensures next == backoff || next == 1
      ensures world.faults >= old(world.faults)
      ensures world.faults == old(world.faults) && old(world.active) ==>
        world.active && Caught(e).Completed? && next == 1
    {
      hide Valid, Grown, Checkpoint, Worked, AllDone, After;
      ghost var log, high := world.log, world.high;
      GrownFromHere();
      next := backoff;
      var a := WaitFrom(log, high);
      Meanwhile(log, high);
      ghost var steps0, heard := steps, Heard(a, world.active, hint, cursor);
      steps := steps + [heard];
      if a.Fails? || !world.active {
        Unheard(steps0, heard, connections, c, i, backoff);
        e := if a.Fails? then Raised(a.error) else Inactive;
      } else {
        ghost var log1, high1 := world.log, world.high;
        next := 1;
        e := OnHint(hint);
        GrownTwice(log, high, log1, high1, world.log, world.high);
        Answered(steps0, hint, heard.cursor, steps, e, connections, c, i, backoff);
        if e.Inactive? { e := Completed; }
      }
    }

    /** One connection: its hints in turn, until it ends, breaks off or the page is left. */
    method Follow(hints: seq<Hint>, backoff: nat, ghost connections: seq<seq<Hint>>, ghost c: nat)
      returns (e: Ended, next: nat)
      requires Valid() && 1 <= backoff <= 30
      requires c < |connections| && hints == connections[c] && AllDone(steps) &&
        After(steps, connections) == Listening(c, 0, backoff)
      modifies world`log, world`high, world`active, world`faults, world`stored, world`delivered, `cursor, `notices,
        `fetches, `shown, `saves, `steps
      ensures Valid() && Grown(old(world.log), old(world.high), world.log, world.high)
      ensures AllDone(steps) && After(steps, connections) == Finished(e, c, next)
      ensures old(shown) <= shown && old(saves) <= saves
      ensures cursor >= old(cursor) && old(fetches) <= fetches && (next == backoff || (next == 1 && hints != []))
      ensures world.faults >= old(world.faults)
      ensures world.faults == old(world.faults) && old(world.active) ==>
        world.active && Caught(e).Completed? && (hints != [] ==> next == 1)
    {
      hide Valid, Grown, Checkpoint, AllDone, After;
      ghost var log, high := world.log, world.high;
      GrownFromHere();
      e, next := Completed, backoff;
      var i := 0;
      while e.Completed? && i < |hints|
        invariant Valid() && Grown(log, high, world.log, world.high) && i <= |hints|
        invariant cursor >= old(cursor) && old(fetches) <= fetches && (next == backoff || (next == 1 && hints != []))
        invariant AllDone(steps) && After(steps, connections) == Then(e, c, i, next)
        invariant old(shown) <= shown && old(saves) <= saves
        invariant world.faults >= old(world.faults)
        invariant world.faults == old(world.faults) && old(world.active) ==>
          world.active && Caught(e).Completed? && (i > 0 ==> next == 1) && (i == 0 ==> e.Completed?)
      {
        ghost var log1, high1 := world.log, world.high;
        e, next := Hear(hints[i], next, connections, c, i);
        GrownTwice(log, high, log1, high1, world.log, world.high);
        i := i + 1;
      }
      if e.Completed? {
        var a := WaitFrom(log, high);
        AtEnd(steps, a, connections, c, i, next);
        steps := steps + [Closed(a)];
        if a.Fails? { e := Raised(a.error); }
      }
    }

    /** `run` over the given connections: WebSocket and event stream in turn, a reconciliation after
        each, and a pause that doubles up to half a minute while no hint arrives. */
    method Run(connections: seq<seq<Hint>>) returns (end: Ended, used: seq<Transport>, pauses: seq<nat>)
      requires Valid()
      modifies world`log, world`high, world`active, world`faults, world`stored, world`delivered
      modifies `cursor, `notices, `loaded, `entry, `before, `fetches, `shown, `saves, `steps
      ensures Valid() && Grown(old(world.log), old(world.high), world.log, world.high)
      ensures Begun(old(entry), old(before), old(fetches), old(world.stored), old(world.delivered))
      ensures Alternating(used) && Doubling(pauses, connections) && end != Raised(OtherError)
      ensures world.faults == old(world.faults) && old(world.active) ==>
        forall i :: 0 <= i < |pauses| && connections[i] != [] ==> pauses[i] == 1
      ensures AllDone(steps) && (!end.Completed? ==> After(steps, connections) == Over(end))
      ensures end.Completed? ==> After(steps, connections).Ready? && After(steps, connections).c == |connections|
      ensures world.faults >= old(world.faults)
      ensures world.faults == old(world.faults) && old(world.active) ==> world.active && end.Completed?
      ensures world.faults == old(world.faults) && old(world.active) && connections != [] ==>
        cursor >= old(world.high) && Checkpoint(world.stored) >= cursor
    {
      hide Valid, Grown, Alternating, Doubling, Checkpoint, InTurn, Doubled, AllDone, After;
      ghost var log, high := world.log, world.high;
      AtFirst(connections);
      used, pauses := [], [];
      end := Start(connections);
      var transport, backoff := WebSocket, 1;
      while end.Completed? && world.active && |used| < |connections|
        invariant Valid() && Grown(log, high, world.log, world.high) && world.high >= high && |used| <= |connections|
        invariant Alternating(used) && Doubling(pauses, connections) && end != Raised(OtherError)
        invariant |pauses| <= |used| && (world.faults == old(world.faults) && old(world.active) ==>
          forall i :: 0 <= i < |pauses| && connections[i] != [] ==> pauses[i] == 1)
        invariant Begun(old(entry), old(before), old(fetches), old(world.stored), old(world.delivered))
        invariant used != [] || end.Completed? ==> entry == old(world.stored) && before == old(world.delivered)
        invariant 1 <= backoff <= 30 && (end.Completed? ==> InTurn(used, pauses, transport, backoff))
        invariant AllDone(steps) &&
          After(steps, connections) == if end.Completed? then Ready(|used|, backoff) else Over(end)
        invariant world.faults >= old(world.faults)
        invariant world.faults == old(world.faults) && old(world.active) ==>
          world.active && end.Completed? && (used != [] ==> cursor >= high && Checkpoint(world.stored) >= cursor)
        decreases |connections| - |used|, end.Completed?
      {
        var pause, slept;
        end, pause, slept := Round(connections[|used|], backoff, log, high, connections, |used|);
        Again(used, pauses, transport, backoff, pause, connections);
        used := used + [transport];
        if slept {
          transport, pauses, backoff := Other(transport), pauses + [pause], Doubled(pause);
        }
      }
      if end.Completed? && |used| < |connections| {
        Look(steps, false, connections);
        steps := steps + [Checked(false)];
        end := Inactive;
      }
    }

    /** The run has its own account of what was stored and delivered when it began; one that was
        cancelled before it began has done nothing. */
    ghost predicate Begun(entry0: Stored, before0: seq<Row>, fetches0: seq<Fetch>, stored: Stored, delivered: seq<Row>)
      reads this, world
    {
      (entry == stored && before == delivered) ||
      (entry == entry0 && before == before0 && fetches == fetches0 && world.stored == stored &&
        world.delivered == delivered)
    }

    /** One turn of the loop of `run`: a connection, the reconciliation and the pause after it. */
    method Round(hints: seq<Hint>, backoff: nat, ghost log0: seq<Row>, ghost high0: nat,
                 ghost connections: seq<seq<Hint>>, ghost c: nat)
      returns (end: Ended, pause: nat, slept: bool)
      requires Valid() && 1 <= backoff <= 30 && Grown(log0, high0, world.log, world.high) && world.active
      requires c < |connections| && hints == connections[c] && AllDone(steps) &&
        After(steps, connections) == Ready(c, backoff)
      modifies world`log, world`high, world`active, world`faults, world`stored, world`delivered, `cursor, `notices,
        `fetches, `shown, `saves, `steps
      ensures AllDone(steps) &&
        After(steps, connections) == if end.Completed? then Ready(c + 1, Doubled(pause)) else Over(end)
      ensures Valid() && Grown(log0, high0, world.log, world.high) && world.high >= old(world.high)
      ensures cursor >= old(cursor) && old(fetches) <= fetches && old(shown) <= shown && old(saves) <= saves
      ensures (pause == backoff || (pause == 1 && hints != [])) && end != Raised(OtherError) &&
        (end.Completed? ==> slept)
      ensures world.faults >= old(world.faults)
      ensures world.faults == old(world.faults) && old(world.active) && hints != [] ==> pause == 1
      ensures world.faults == old(world.faults) && old(world.active) ==>
        world.active && end.Completed? && cursor >= old(world.high) && Checkpoint(world.stored) >= cursor
    {
      hide Valid, Grown, Checkpoint, AllDone, After;
      end, pause := Turn(hints, backoff, log0, high0, connections, c);
      slept := end.Completed?;
      if slept { end := Sleep(pause, log0, high0, connections, c); }
    }

    /** The pause between two connections, which only a cancellation ends early. */
    method Sleep(pause: nat, ghost log0: seq<Row>, ghost high0: nat, ghost connections: seq<seq<Hint>>, ghost c: nat)
      returns (e: Ended)
      requires Valid() && Grown(log0, high0, world.log, world.high)
      requires AllDone(steps) && After(steps, connections) == Resting(c, pause)
      modifies world`log, world`high, world`active, world`faults, world`stored, world`delivered
      modifies `cursor, `notices, `fetches, `shown, `saves, `steps
      ensures AllDone(steps) &&
        After(steps, connections) == if e.Completed? then Ready(c + 1, Doubled(pause)) else Over(e)
      ensures Valid() && Grown(log0, high0, world.log, world.high) && world.high >= old(world.high)
      ensures cursor >= old(cursor) && old(fetches) <= fetches && old(shown) <= shown && old(saves) <= saves
      ensures world.faults >= old(world.faults)
      ensures world.faults == old(world.faults) && old(world.active) ==> world.active && e.Completed?
      ensures world.faults == old(world.faults) && old(world.active) && old(Checkpoint(world.stored) >= cursor) ==>
        Checkpoint(world.stored) >= cursor
      ensures e.Completed? || e == Raised(Cancelled)
    {
      hide Valid, Grown, Checkpoint, AllDone, After;
      var a := WaitFrom(log0, high0);
      Meanwhile(log0, high0);
      OneStep(steps, Slept(pause, a), connections);
      MoreDone(steps, Slept(pause, a));
      steps := steps + [Slept(pause, a)];
      e := if a == Fails(Cancelled) then Raised(Cancelled) else Completed;
    }

    /** A connection and the reconciliation that follows it; only a completed turn goes on. */
    method Turn(hints: seq<Hint>, backoff: nat, ghost log0: seq<Row>, ghost high0: nat,
                ghost connections: seq<seq<Hint>>, ghost c: nat)
      returns (end: Ended, next: nat)
      requires Valid() && 1 <= backoff <= 30 && Grown(log0, high0, world.log, world.high) && world.active
      requires c < |connections| && hints == connections[c] && AllDone(steps) &&
        After(steps, connections) == Ready(c, backoff)
      modifies world`log, world`high, world`active, world`faults, world`stored, world`delivered, `cursor, `notices,
        `fetches, `shown, `saves, `steps
      ensures AllDone(steps) && After(steps, connections) == if end.Completed? then Resting(c, next) else Over(end)
      ensures Valid() && Grown(log0, high0, world.log, world.high) && world.high >= old(world.high)
      ensures old(shown) <= shown && old(saves) <= saves
      ensures cursor >= old(cursor) && old(fetches) <= fetches && end != Raised(OtherError)
      ensures next == backoff || (next == 1 && hints != [])
      ensures world.faults >= old(world.faults)
      ensures world.faults == old(world.faults) && old(world.active) && hints != [] ==> next == 1
      ensures world.faults == old(world.faults) && old(world.active) ==>
        world.active && end.Completed? && cursor >= old(world.high) && Checkpoint(world.stored) >= cursor
    {
      hide Valid, Grown, Checkpoint, AllDone, After;
      ghost var log1, high1 := world.log, world.high;
      Look(steps, world.active, connections);
      steps := steps + [Checked(world.active)];
      end, next := Follow(hints, backoff, connections, c);
      GrownTwice(log0, high0, log1, high1, world.log, world.high);
      end := Caught(end);
      if end.Completed? { end := CatchUpAfter(log0, high0, connections, c, next); }
    }

    /** The reconciliation with a summary after a connection, if the page is still active. */
    method CatchUpAfter(ghost log0: seq<Row>, ghost high0: nat, ghost connections: seq<seq<Hint>>, ghost c: nat,
                        ghost pause: nat)
      returns (end: Ended)
      requires Valid() && Grown(log0, high0, world.log, world.high)
      requires AllDone(steps) && After(steps, connections) == Lost(c, pause)
      modifies world`log, world`high, world`active, world`faults, world`stored, world`delivered, `cursor, `notices,
        `fetches, `shown, `saves, `steps
      ensures Valid() && Grown(log0, high0, world.log, world.high) && world.high >= old(world.high)
      ensures cursor >= old(cursor) && old(fetches) <= fetches && old(shown) <= shown && old(saves) <= saves
      ensures AllDone(steps) && After(steps, connections) == if end.Completed? then Resting(c, pause) else Over(end)
      ensures world.faults >= old(world.faults) && end != Raised(OtherError)
      ensures world.faults == old(world.faults) && old(world.active) ==>
        world.active && end.Completed? && cursor >= old(world.high) && Checkpoint(world.stored) >= cursor
    {
      hide Valid, Grown, Checkpoint, AllDone, After, Worked, LastWork;
      Look(steps, world.active, connections);
      steps := steps + [Checked(world.active)];
      if !world.active { return Inactive; }
      ghost var log1, high1, steps1 := world.log, world.high, steps;
      end := Reconcile(true);
      GrownTwice(log0, high0, log1, high1, world.log, world.high);
      WorkDone(steps1, steps, true, end, connections);
      end := if end.Inactive? then Completed else Caught(end);
    }

    /** `Wait`, seen from an earlier state of the log. */
    method WaitFrom(ghost log0: seq<Row>, ghost high0: nat) returns (a: Await)
      requires Valid() && (Grown(log0, high0, world.log, world.high) || (log0 == world.log && high0 == world.high))
      modifies world`log, world`high, world`active, world`faults
      ensures Valid() && Grown(log0, high0, world.log, world.high) && world.high >= old(world.high)
      ensures world.faults >= old(world.faults) && (world.faults == old(world.faults) ==> world.active && a.Fine?)
    {
      ghost var log, high := world.log, world.high;
      a := Wait();
      if Grown(log0, high0, log, high) { GrownTwice(log0, high0, log, high, world.log, world.high); }
    }
  }

  /** Whatever the cursor has passed since the run began was delivered, so a hint at or below the
      cursor says nothing new. */
  lemma IgnoredHintLosesNothing(mailbox: LiveMailbox, hint: Hint, r: Row)
    requires mailbox.Valid()
    requires hint.Available? && hint.cursor <= mailbox.cursor
    requires r in mailbox.world.log && mailbox.loaded < r.at <= hint.cursor
    ensures r in Gathered(mailbox.fetches)
  {
    var w := mailbox.world;
    GatheredIsBetween(w.log, w.high, mailbox.fetches, mailbox.loaded, mailbox.cursor);
    InBetween(w.log, mailbox.loaded, mailbox.cursor, r);
  }

  /** At every await, the checkpoint in the storage is not ahead of the cursor, unless the run found it there. */
  lemma CheckpointBehindCursor(mailbox: LiveMailbox)
    requires mailbox.Valid()
    ensures Checkpoint(mailbox.world.stored) <= Checkpoint(mailbox.entry) ||
      Checkpoint(mailbox.world.stored) <= mailbox.cursor
  {
    StoredBound(mailbox.entry, mailbox.saves, mailbox.world.stored, mailbox.cursor);
  }

  /** The rows of the pages of all sessions. */
  function AllGathered(sessions: seq<seq<Fetch>>): seq<Row> {
    if sessions == [] then [] else AllGathered(sessions[..|sessions| - 1]) + Gathered(sessions[|sessions| - 1])
  }

  ghost predicate AllExact(log: seq<Row>, high: nat, sessions: seq<seq<Fetch>>) {
    forall i :: 0 <= i < |sessions| ==> Exact(log, high, sessions[i])
  }

  lemma AllExactNext(log: seq<Row>, high: nat, later: seq<Row>, laterHigh: nat, sessions: seq<seq<Fetch>>,
      fetches: seq<Fetch>)
    requires Grown(log, high, later, laterHigh) && AllExact(log, high, sessions) && Exact(later, laterHigh, fetches)
    ensures AllExact(later, laterHigh, sessions + [fetches])
    ensures AllGathered(sessions + [fetches]) == AllGathered(sessions) + Gathered(fetches)
  {
    hide Exact, Grown;
    forall i | 0 <= i < |sessions| ensures Exact(later, laterHigh, sessions[i]) {
      ExactLater(log, high, later, laterHigh, sessions[i]);
    }
    assert (sessions + [fetches])[..|sessions|] == sessions;
  }

  /** Page after page on the same account, each with a mailbox of its own and wherever it was cut off.
      `pages` are the pages that each of them completed. Every row between the very first checkpoint and
      the present one is on one of these pages, or had been delivered before. */
  method Sessions(world: World, sessions: seq<seq<seq<Hint>>>) returns (ghost pages: seq<seq<Fetch>>)
    requires world.Sound()
    modifies world`log, world`high, world`active, world`faults, world`stored, world`delivered
    ensures world.Sound() && Grown(old(world.log), old(world.high), world.log, world.high)
    ensures |pages| == |sessions| && AllExact(world.log, world.high, pages)
    ensures world.delivered == old(world.delivered) + AllGathered(pages)
    ensures forall r :: r in world.log && world.floor < r.at <= Checkpoint(world.stored) ==>
      r in old(world.delivered) || r in AllGathered(pages)
  {
    hide Grown, IsLog, AllExact;
    ghost var log, high := world.log, world.high;
    GrownToItself(log, high);
    pages := [];
    NoSessions(world.log, world.high);
    var i := 0;
    while i < |sessions|
      invariant i == |pages| <= |sessions| && world.Sound() && Grown(log, high, world.log, world.high)
      invariant AllExact(world.log, world.high, pages) && world.delivered == old(world.delivered) + AllGathered(pages)
    {
      pages := Session(world, sessions[i], pages, log, high);
      i := i + 1;
    }
  }

  lemma NoSessions(log: seq<Row>, high: nat)
    ensures AllExact(log, high, [])
  {}

  /** One more of these pages. */
  method Session(world: World, session: seq<seq<Hint>>, ghost before: seq<seq<Fetch>>, ghost log0: seq<Row>,
      ghost high0: nat)
    returns (ghost pages: seq<seq<Fetch>>)
    requires world.Sound() && Grown(log0, high0, world.log, world.high) && AllExact(world.log, world.high, before)
    modifies world`log, world`high, world`active, world`faults, world`stored, world`delivered
    ensures world.Sound() && Grown(log0, high0, world.log, world.high)
    ensures |pages| == |before| + 1 && pages[..|before|] == before && AllExact(world.log, world.high, pages)
    ensures old(world.delivered) + Gathered(pages[|before|]) == world.delivered
    ensures AllGathered(pages) == AllGathered(before) + Gathered(pages[|before|])
  {
    hide Grown, IsLog, AllExact, Gathered;
    ghost var log, high := world.log, world.high;
    var mailbox := new LiveMailbox(world);
    var end, used, pauses := mailbox.Run(session);
    GrownTwice(log0, high0, log, high, world.log, world.high);
    AllExactNext(log, high, world.log, world.high, before, mailbox.fetches);
    pages := before + [mailbox.fetches];
  }
}
