/** A recipient's mailbox as the server keeps it: rows in the order of their mailbox sequence,
    which is also the order in which they become visible, and the catch-up query over them. */
module MailboxLog {

  datatype Row = Row(at: nat, isTest: bool)

  datatype Page = Page(items: seq<Row>, nextCursor: nat, hasMore: bool)

  ghost predicate Increasing(rows: seq<Row>) {
    forall i, j :: 0 <= i < j < |rows| ==> rows[i].at < rows[j].at
  }

  ghost predicate Within(rows: seq<Row>, a: nat, b: nat) { forall r :: r in rows ==> a < r.at <= b }

  /** Rows have increasing sequence numbers, none above the last number given out. */
  ghost predicate IsLog(rows: seq<Row>, high: nat) {
    Increasing(rows) && Within(rows, 0, high)
  }

  /** `later` is the same mailbox at a later time; numbers may be given out and never used. */
  ghost predicate Grown(rows: seq<Row>, high: nat, later: seq<Row>, laterHigh: nat) {
    rows <= later && high <= laterHigh && IsLog(later, laterHigh) &&
    forall i :: |rows| <= i < |later| ==> later[i].at > high
  }

  /** The rows with `a < at <= b`. */
  function Between(rows: seq<Row>, a: nat, b: nat): seq<Row> {
    if rows == [] then [] else Only(rows[0], a, b) + Between(rows[1..], a, b)
  }

  function Only(r: Row, a: nat, b: nat): seq<Row> { if a < r.at <= b then [r] else [] }

  lemma {:induction false} InBetween(rows: seq<Row>, a: nat, b: nat, r: Row)
    ensures r in Between(rows, a, b) <==> r in rows && a < r.at <= b
  {
    if rows != [] { InBetween(rows[1..], a, b, r); }
  }

  lemma {:induction false} NoneBetween(rows: seq<Row>, a: nat, b: nat)
    requires forall r :: r in rows ==> !(a < r.at <= b)
    ensures Between(rows, a, b) == []
  {
    if rows != [] {
      assert rows[0] in rows;
      NoneBetween(rows[1..], a, b);
    }
  }

  lemma TailIncreasing(rows: seq<Row>)
    requires Increasing(rows) && rows != []
    ensures Increasing(rows[1..]) && forall r :: r in rows[1..] ==> r.at > rows[0].at
  {
    forall r | r in rows[1..] ensures r.at > rows[0].at {
      var i :| 0 <= i < |rows[1..]| && rows[1..][i] == r;
      assert rows[i + 1] == r;
    }
  }

  /** Adjacent intervals split the rows. */
  lemma {:induction false} BetweenJoins(rows: seq<Row>, a: nat, b: nat, c: nat)
    requires a <= b <= c
    requires Increasing(rows)
    ensures Between(rows, a, c) == Between(rows, a, b) + Between(rows, b, c)
  {
    if rows != [] {
      var tail := rows[1..];
      TailIncreasing(rows);
      BetweenJoins(tail, a, b, c);
      if rows[0].at > b { NoneBetween(tail, a, b); }
      OnlyJoins(rows[0], a, b, c, Between(tail, a, b), Between(tail, b, c));
    }
  }

  lemma OnlyJoins(r: Row, a: nat, b: nat, c: nat, below: seq<Row>, above: seq<Row>)
    requires a <= b <= c && (r.at > b ==> below == [])
    ensures Only(r, a, c) + (below + above) == (Only(r, a, b) + below) + (Only(r, b, c) + above)
  {}

  lemma {:induction false} BetweenAppend(rows: seq<Row>, more: seq<Row>, a: nat, b: nat)
    ensures Between(rows + more, a, b) == Between(rows, a, b) + Between(more, a, b)
  {
    if rows == [] {
      assert rows + more == more;
    } else {
      assert (rows + more)[0] == rows[0] && (rows + more)[1..] == rows[1..] + more;
      BetweenAppend(rows[1..], more, a, b);
    }
  }

  /** What lies up to a cursor the server gave out never changes. */
  lemma BetweenStable(rows: seq<Row>, high: nat, later: seq<Row>, laterHigh: nat, a: nat, b: nat)
    requires Grown(rows, high, later, laterHigh) && (b <= high || b <= a)
    ensures Between(later, a, b) == Between(rows, a, b)
  {
    var more := later[|rows|..];
    assert later == rows + more;
    forall r | r in more ensures !(a < r.at <= b) {
      var i :| 0 <= i < |more| && more[i] == r;
      assert later[|rows| + i] == r;
    }
    NoneBetween(more, a, b);
    BetweenAppend(rows, more, a, b);
  }

  /** The first `n` rows after `after`, and whether there are others. */
  function CatchUp(rows: seq<Row>, high: nat, after: nat, limit: nat): (p: Page)
    requires limit > 0
  {
    var found := Between(rows, after, if after <= high then high else after);
    if |found| > limit then Page(found[..limit], found[limit - 1].at, true)
    else Page(found, if after <= high then high else after, false)
  }

  lemma {:induction false} BetweenSorted(rows: seq<Row>, a: nat, b: nat)
    requires Increasing(rows)
    ensures Increasing(Between(rows, a, b)) && Within(Between(rows, a, b), a, b)
  {
    if rows != [] {
      var tail := Between(rows[1..], a, b);
      TailIncreasing(rows);
      BetweenSorted(rows[1..], a, b);
      forall i | 0 <= i < |tail| ensures rows[0].at < tail[i].at {
        InBetween(rows[1..], a, b, tail[i]);
      }
    }
  }

  lemma {:induction false} CutAt(found: seq<Row>, a: nat, b: nat, n: nat)
    requires 0 < n <= |found|
    requires Increasing(found) && Within(found, a, b)
    ensures Between(found, a, found[n - 1].at) == found[..n]
  {
    var c := found[n - 1].at;
    assert found == found[..n] + found[n..];
    BetweenAppend(found[..n], found[n..], a, c);
    AllBetween(found[..n], a, c);
    NoneBetween(found[n..], a, c);
  }

  lemma {:induction false} AllBetween(rows: seq<Row>, a: nat, b: nat)
    requires Within(rows, a, b)
    ensures Between(rows, a, b) == rows
  {
    if rows != [] {
      assert rows[0] in rows;
      AllBetween(rows[1..], a, b);
    }
  }

  lemma {:induction false} BetweenTwice(rows: seq<Row>, a: nat, b: nat, c: nat)
    requires c <= b
    ensures Between(Between(rows, a, b), a, c) == Between(rows, a, c)
  {
    if rows != [] {
      var head := Only(rows[0], a, b);
      BetweenTwice(rows[1..], a, b, c);
      BetweenAppend(head, Between(rows[1..], a, b), a, c);
      if head != [] { assert head[1..] == []; }
    }
  }

  /** A page holds exactly the rows between the cursor asked for and the next one; when there
      are more the cursor moves, and otherwise nothing durable is left above it. */
  lemma PageIsExact(rows: seq<Row>, high: nat, after: nat, limit: nat)
    requires IsLog(rows, high) && limit > 0
    ensures var p := CatchUp(rows, high, after, limit);
      p.items == Between(rows, after, p.nextCursor) && after <= p.nextCursor && |p.items| <= limit &&
      (p.hasMore ==> after < p.nextCursor <= high) &&
      (!p.hasMore ==> p.nextCursor == (if after <= high then high else after))
  {
    var b := if after <= high then high else after;
    var found := Between(rows, after, b);
    if |found| > limit {
      BetweenSorted(rows, after, b);
      CutAt(found, after, b, limit);
      BetweenTwice(rows, after, b, found[limit - 1].at);
    }
  }

  function Tests(rows: seq<Row>): (n: nat)
    ensures n <= |rows|
  {
    if rows == [] then 0 else (if rows[|rows| - 1].isTest then 1 else 0) + Tests(rows[..|rows| - 1])
  }

  /** It counts the rows marked as tests. */
  lemma {:induction false} TestsCount(rows: seq<Row>)
    ensures Tests(rows) == |set i | 0 <= i < |rows| && rows[i].isTest|
  {
    if rows != [] {
      var n := |rows| - 1;
      TestsCount(rows[..n]);
      var before, all := set i | 0 <= i < n && rows[..n][i].isTest, set i | 0 <= i < |rows| && rows[i].isTest;
      assert all == before + (if rows[n].isTest then {n} else {});
    }
  }

  lemma {:induction false} TestsAppend(rows: seq<Row>, more: seq<Row>)
    ensures Tests(rows + more) == Tests(rows) + Tests(more)
  {
    if more == [] {
      assert rows + more == rows;
    } else {
      var n := |more| - 1;
      assert (rows + more)[..|rows + more| - 1] == rows + more[..n];
      TestsAppend(rows, more[..n]);
    }
  }
}
