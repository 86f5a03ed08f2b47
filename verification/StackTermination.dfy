/** `terminate_owned` of tools/local_stack_control.py, over a process table that changes at every
    step: processes fork, exit, leave orphans, and their pids are used again. */
module StackTermination {
  import opened Wrappers
  import opened ProcessTable
  import opened ProcessTree

  datatype Event = Term(target: Record) | Kill(target: Record) | Remember(all: set<Record>)

  /** When an entry of the log was made, and what the host was like at that moment. */
  datatype Stamp = Stamp(when: int, os: Os)

  datatype Ending = Returned | Raised(remaining: set<Record>)

  /** A snapshot, when it was taken, what was known then, and what was found. */
  datatype Look = Look(at: Os, when: int, known: set<Record>, live: set<Record>)

  /** When a shutdown compared the clock with the end of the grace period; and from its last look there
      on the looks, the time the second deadline counts from, the times that was compared with, and the
      host at the end. */
  datatype Course = Course(asks: seq<int>, looks: seq<Look>, mark: int, checks: seq<int>, end: Os)

  // ---- whose processes these are ----

  /** `r` is one of the processes the caller named. */
  ghost predicate Root(os: Os, given: set<Record>, r: Identity) {
    r in os.place && os.place[r] > 1 && Record(os.place[r], Some(r)) in given
  }

  /** `i` is one of them or truly descends from one. */
  ghost predicate Descended(os: Os, given: set<Record>, i: Identity) {
    i in os.line && exists r :: r in os.line[i] && Root(os, given, r)
  }

  ghost predicate Unbroken(os: Os, r: Identity, i: Identity)
    requires i in os.line
  {
    forall m :: m in os.line[i] && m > r ==> m !in os.missed
  }

  /** `i` descends from a named process through processes none of which was both forked and
      orphaned between two snapshots. */
  ghost predicate Traced(os: Os, given: set<Record>, i: Identity) {
    i in os.line && exists r :: r in os.line[i] && Root(os, given, r) && Unbroken(os, r, i)
  }

  /** The parent of this process still runs, and forked it. */
  ghost predicate UnderParent(os: Os, p: Pid)
    requires p in os.table
  {
    var i, q := os.table[p].identity, os.table[p].parent;
    q > 1 && q in os.table && os.table[q].identity < i && os.table[q].identity in os.line && i in os.line &&
    os.line[i] == os.line[os.table[q].identity] + {i}
  }

  /** A process forked since the last snapshot whose parent still runs. */
  ghost predicate Attached(os: Os, p: Pid)
    requires p in os.table
  {
    os.table[p].identity in os.born && os.table[p].identity !in os.missed && UnderParent(os, p)
  }

  ghost predicate InSight(os: Os, given: set<Record>, known: set<Record>, p: Pid)
    requires p in os.table
  {
    Traced(os, given, os.table[p].identity) ==> Record(p, Some(os.table[p].identity)) in known || Attached(os, p)
  }

  /** No traced process escapes: it is known, or the next snapshot will find it under its parent. */
  ghost predicate Tracked(os: Os, given: set<Record>, known: set<Record>) {
    forall p :: p in os.table ==> InSight(os, given, known, p)
  }

  /** What is known was named or truly descends from what was named. */
  ghost predicate Rightful(os: Os, given: set<Record>, known: set<Record>) {
    forall k :: k in known ==> k in given || (k.identity.Some? && Descended(os, given, k.identity.value))
  }

  /** A process that was there before a fork is traced as before. */
  lemma TracedBefore(os: Os, q: Pid, p: Pid, given: set<Record>, i: Identity)
    requires Sound(os) && CanFork(os, q, p) && i in os.line && Traced(Fork(os, q, p), given, i)
    ensures Traced(os, given, i)
  {
    hide Linked, Placed;
    var os' := Fork(os, q, p);
    var r :| r in os'.line[i] && Root(os', given, r) && Unbroken(os', r, i);
    assert Lineage(os, i);
    assert Root(os, given, r) && Unbroken(os, r, i);
  }

  lemma ChildInSight(os: Os, q: Pid, p: Pid, given: set<Record>, known: set<Record>)
    requires Sound(os) && CanFork(os, q, p) && given <= known
    ensures InSight(Fork(os, q, p), given, known, p)
  {
    hide Linked, Lineage;
    var os' := Fork(os, q, p);
    var i := os'.table[p].identity;
    assert Placed(os, q);
    if Traced(os', given, i) {
      var r :| r in os'.line[i] && Root(os', given, r) && Unbroken(os', r, i);
      assert r == i ==> Record(p, Some(i)) in known;
    }
  }

  lemma ForkInSight(os: Os, q: Pid, p: Pid, given: set<Record>, known: set<Record>, c: Pid)
    requires Sound(os) && CanFork(os, q, p) && Tracked(os, given, known) && given <= known
    requires c in Fork(os, q, p).table
    ensures InSight(Fork(os, q, p), given, known, c)
  {
    hide Linked, Lineage, Traced;
    if c == p {
      ChildInSight(os, q, p, given, known);
    } else {
      assert Placed(os, c) && InSight(os, given, known, c);
      if Traced(Fork(os, q, p), given, os.table[c].identity) {
        TracedBefore(os, q, p, given, os.table[c].identity);
      }
    }
  }

  lemma ExitInSight(os: Os, p: Pid, heirs: map<Pid, Pid>, given: set<Record>, known: set<Record>, c: Pid)
    requires Sound(os) && CanExit(os, p, heirs) && Tracked(os, given, known) && given <= known
    requires c in Exit(os, p, heirs).table
    ensures InSight(Exit(os, p, heirs), given, known, c)
  {
    var os' := Exit(os, p, heirs);
    var i := os.table[c].identity;
    assert Placed(os, c) && InSight(os, given, known, c);
    if Traced(os', given, i) {
      var r :| r in os'.line[i] && Root(os', given, r) && Unbroken(os', r, i);
      assert Lineage(os, i) && Root(os, given, r) && Unbroken(os, r, i);
      if os.table[c].parent == p {
        assert i in os.born ==> i in os'.missed;
        assert r == i ==> Record(c, Some(i)) in known;
      } else {
        forall d | d in os.table && os.table[d].parent == p ensures os.table[d].identity != i {
          assert Placed(os, d);
        }
      }
    }
  }

  lemma {:induction false} TracedIsFound(os: Os, given: set<Record>, known: set<Record>, owned: map<Pid, Proc>, p: Pid)
    requires Sound(os) && Tracked(os, given, known) && given <= known
    requires p in os.table && Traced(os, given, os.table[p].identity)
    requires forall r :: r in known && Matches(os.table, r) ==> r.pid in owned
    requires forall c :: c in os.table && c > 1 && os.table[c].parent in owned ==> c in owned
    ensures p in owned
    decreases os.table[p].identity
  {
    var i, q := os.table[p].identity, os.table[p].parent;
    assert Placed(os, p) && InSight(os, given, known, p);
    var r :| r in os.line[i] && Root(os, given, r) && Unbroken(os, r, i);
    if Record(p, Some(i)) in known {
      assert Matches(os.table, Record(p, Some(i)));
    } else {
      assert r != i;
      assert Unbroken(os, r, os.table[q].identity);
      TracedIsFound(os, given, known, owned, q);
    }
  }

  lemma MatchedDescends(os: Os, given: set<Record>, known: set<Record>, k: Record)
    requires Sound(os) && Rightful(os, given, known) && k in known && Matches(os.table, k)
    ensures Descended(os, given, k.identity.value)
  {
    assert Placed(os, k.pid);
    if k in given { assert Root(os, given, k.identity.value); }
  }

  lemma {:induction false} PathDescends(os: Os, given: set<Record>, known: set<Record>, path: seq<Pid>)
    requires Sound(os) && Rightful(os, given, known) && Path(os.table, known, path)
    ensures path[|path| - 1] > 1 && path[|path| - 1] in os.table &&
      Descended(os, given, os.table[path[|path| - 1]].identity)
  {
    if |path| == 1 {
      var k :| k in known && k.pid == path[0] && Matches(os.table, k);
      MatchedDescends(os, given, known, k);
    } else {
      var p, q := path[|path| - 1], path[|path| - 2];
      assert path[..|path| - 1][|path| - 2] == q;
      PathDescends(os, given, known, path[..|path| - 1]);
      assert Linked(os, p) && Placed(os, p);
      var r :| r in os.line[os.table[q].identity] && Root(os, given, r);
      assert r in os.line[os.table[p].identity];
    }
  }

  // ---- the host ----

  class Host {
    var os: Os
    /** In milliseconds. */
    var clock: int

    constructor (os: Os)
      requires Sound(os)
      ensures this.os == os
    {
      this.os, clock := os, 0;
    }

    /** Anything that can happen between two steps of the caller. `tracked` says whether to follow
        what the caller knows. */
    method Evolve(ghost given: set<Record>, ghost known: set<Record>, ghost tracked: bool)
      requires Sound(os) && given <= known && (tracked ==> Tracked(os, given, known))
      modifies this
      ensures Sound(os) && Later(old(os), os) && clock >= old(clock) && (tracked ==> Tracked(os, given, known))
    {
      hide Sound, Tracked, Later;
      ghost var os0 := os;
      LaterItself(os);
      var steps: nat := *;
      while steps > 0
        invariant Sound(os) && Later(os0, os) && clock == old(clock) && (tracked ==> Tracked(os, given, known))
      {
        var fork: bool, q: Pid, p: Pid, heirs: map<Pid, Pid> := *, *, *, *;
        if fork && CanFork(os, q, p) {
          ForkKeeps(os0, os, q, p, given, known, tracked);
          os := Fork(os, q, p);
        } else if !fork && CanExit(os, p, heirs) {
          ExitKeeps(os0, os, p, heirs, given, known, tracked);
          os := Exit(os, p, heirs);
        }
        steps := steps - 1;
      }
      var passed: int := *;
      if passed > 0 { clock := clock + passed; }
    }
  }

  lemma LaterItself(os: Os)
    ensures Later(os, os)
  {}

  lemma ForkKeeps(os0: Os, os: Os, q: Pid, p: Pid, given: set<Record>, known: set<Record>, tracked: bool)
    requires Sound(os) && Later(os0, os) && CanFork(os, q, p) && given <= known &&
      (tracked ==> Tracked(os, given, known))
    ensures var os' := Fork(os, q, p); Sound(os') && Later(os0, os') && (tracked ==> Tracked(os', given, known))
  {
    hide Sound, Later, InSight, Fork;
    ForkIsSound(os, q, p);
    LaterTwice(os0, os, Fork(os, q, p));
    if tracked {
      forall c | c in Fork(os, q, p).table ensures InSight(Fork(os, q, p), given, known, c) {
        ForkInSight(os, q, p, given, known, c);
      }
    }
  }

  lemma ExitKeeps(os0: Os, os: Os, p: Pid, heirs: map<Pid, Pid>, given: set<Record>, known: set<Record>, tracked: bool)
    requires Sound(os) && Later(os0, os) && CanExit(os, p, heirs) && given <= known &&
      (tracked ==> Tracked(os, given, known))
    ensures var os' := Exit(os, p, heirs); Sound(os') && Later(os0, os') && (tracked ==> Tracked(os', given, known))
  {
    hide Sound, Later, InSight, Exit;
    ExitIsSound(os, p, heirs);
    LaterTwice(os0, os, Exit(os, p, heirs));
    if tracked {
      forall c | c in Exit(os, p, heirs).table ensures InSight(Exit(os, p, heirs), given, known, c) {
        ExitInSight(os, p, heirs, given, known, c);
      }
    }
  }

  // ---- the log of what was done ----

  ghost function RememberedIn(log: seq<Event>): set<Record> {
    if log == [] then {}
    else RememberedIn(log[..|log| - 1]) + if log[|log| - 1].Remember? then log[|log| - 1].all else {}
  }

  /** Only named processes and true descendants are signalled, at the pid they have. */
  ghost predicate OnlyOwned(log: seq<Event>, os: Os, given: set<Record>) {
    forall e :: e in log && !e.Remember? ==> Rightly(e.target, os, given)
  }

  ghost predicate Rightly(t: Record, os: Os, given: set<Record>) {
    t.identity.Some? && t.identity.value in os.place && os.place[t.identity.value] == t.pid &&
      Descended(os, given, t.identity.value)
  }

  ghost predicate AskedOnce(log: seq<Event>) {
    forall i, j :: 0 <= i < j < |log| && log[i].Term? && log[j].Term? ==> log[i].target != log[j].target
  }

  ghost predicate Asked(log: seq<Event>, sent: set<Record>) {
    forall e :: e in log && e.Term? ==> e.target in sent
  }

  /** Whatever is signalled was named by the caller or told to the callback before. */
  ghost predicate RememberedFirst(log: seq<Event>, given: set<Record>) {
    forall k :: 0 <= k < |log| && !log[k].Remember? ==> log[k].target in given + RememberedIn(log[..k])
  }

  predicate Runs(os: Os, t: Record) { t.identity.Some? && t.pid >= 0 && Alive(os, t.pid, t.identity.value) }

  /** Each target got the signal or had ended before its turn. */
  ghost predicate Reached(log: seq<Event>, os: Os, targets: set<Record>, force: bool) {
    forall t :: t in targets && Runs(os, t) ==> (if force then Kill(t) else Term(t)) in log
  }

  ghost predicate Usable(t: Record, os: Os) { t.identity.Some? && t.pid > 1 && t.identity.value < os.next }

  // ---- the last looks ----

  /** What was found is what was owned, no more and no less. */
  ghost predicate Exact(look: Look) {
    (forall r :: r in look.live ==>
      r.identity.Some? && r.pid >= 0 && Alive(look.at, r.pid, r.identity.value) &&
        Owned(look.at.table, look.known, r.pid)) &&
    forall p :: p in look.at.table && Owned(look.at.table, look.known, p) ==>
      Record(p, Some(look.at.table[p].identity)) in look.live
  }

  lemma LiveIsExact(os: Os, when: int, known: set<Record>, owned: map<Pid, Proc>)
    requires forall p :: p in owned <==> Owned(os.table, known, p)
    requires forall p :: p in owned ==> p in os.table && owned[p] == os.table[p]
    ensures Exact(Look(Snapped(os), when, known, Live(owned)))
  {
    hide Owned;
  }

  /** The clock is compared at least a tenth of a second apart, and only the last comparison, if the
      waiting is over, finds the deadline passed. */
  ghost predicate Waits(times: seq<int>, from: int, wait: int, over: bool) {
    (over ==> times != [] && times[|times| - 1] >= from + wait) &&
    (forall i :: 0 <= i < |times| ==> from <= times[i]) &&
    (forall i :: 0 <= i < |times| - 1 ==> times[i] + 100 <= times[i + 1]) &&
    forall i :: 0 <= i < |times| && !(over && i == |times| - 1) ==> times[i] < from + wait
  }

  lemma WaitsMore(times: seq<int>, from: int, wait: int, now: int)
    requires Waits(times, from, wait, false) && from <= now && (times != [] ==> times[|times| - 1] + 100 <= now)
    ensures Waits(times + [now], from, wait, now >= from + wait)
  {}

  /** The looks follow one another, with one comparison before each but the first. */
  ghost predicate Going(c: Course) {
    c.looks != [] && |c.checks| >= |c.looks| - 1 && c.looks[0].when <= c.mark &&
    (forall look :: look in c.looks ==> Exact(look) && Later(look.at, c.end)) &&
    forall i :: 0 <= i < |c.looks| - 1 ==>
      Later(c.looks[i].at, c.looks[i + 1].at) && c.checks[i] <= c.looks[i + 1].when
  }

  /** The grace period is over before the first look. */
  ghost predicate GraceOver(c: Course, begin: int, grace: int) {
    Waits(c.asks, begin, grace, true) && c.looks != [] && c.asks[|c.asks| - 1] <= c.looks[0].when
  }

  /** It returns right after a look that found nothing, in the grace period or after a comparison with the
      second deadline. It raises when that deadline has come, with what the last look found; each look
      after the first had found something. */
  ghost predicate Ends(c: Course, begin: int, grace: int, killWait: int, e: Ending) {
    Going(c) && (forall i :: 1 <= i < |c.looks| - 1 ==> c.looks[i].live != {}) &&
    var last := c.looks[|c.looks| - 1];
    match e
    case Returned =>
      |c.checks| == |c.looks| - 1 && last.live == {} && Waits(c.checks, c.mark, killWait, false) &&
      ((GraceOver(c, begin, grace) && |c.looks| > 1) || (Waits(c.asks, begin, grace, false) && |c.looks| == 1))
    case Raised(remaining) =>
      |c.checks| == |c.looks| && remaining == last.live && Waits(c.checks, c.mark, killWait, true) &&
      GraceOver(c, begin, grace) && (|c.looks| > 1 ==> last.live != {})
  }

  /** The looks so far: each after the first had found something, unless the last one ended it all. */
  ghost predicate Looked(c: Course, killWait: int, ended: bool, live: set<Record>) {
    c.looks != [] && |c.checks| == |c.looks| - 1 && c.looks[|c.looks| - 1].live == live &&
    (ended ==> live == {} && |c.looks| > 1) && Waits(c.checks, c.mark, killWait, false) &&
    (!ended && |c.looks| > 1 ==> live != {}) && forall i :: 1 <= i < |c.looks| - 1 ==> c.looks[i].live != {}
  }

  /** The earliest time of the next comparison with the deadline. */
  function Due(c: Course): int { if c.checks == [] then c.mark else c.checks[|c.checks| - 1] + 100 }

  lemma FirstLook(c: Course, killWait: int)
    requires |c.looks| == 1 && c.checks == [] && c.looks[0].when <= c.mark
    requires Exact(c.looks[0]) && Later(c.looks[0].at, c.end)
    ensures Going(c) && Looked(c, killWait, false, c.looks[0].live)
  {}

  lemma EndedEarly(c: Course, begin: int, grace: int, killWait: int)
    requires |c.looks| == 1 && c.checks == [] && c.looks[0].when <= c.mark && c.looks[0].live == {}
    requires Exact(c.looks[0]) && Later(c.looks[0].at, c.end) && Waits(c.asks, begin, grace, false)
    ensures Ends(c, begin, grace, killWait, Returned)
  {}

  lemma NextLook(c: Course, killWait: int, now: int, look: Look, os: Os)
    requires Going(c) && Looked(c, killWait, false, c.looks[|c.looks| - 1].live) && Due(c) <= now < c.mark + killWait
    requires Exact(look) && now <= look.when && Later(c.end, look.at) && Later(look.at, os) && Later(c.end, os)
    ensures var c' := c.(looks := c.looks + [look], checks := c.checks + [now], end := os);
      Going(c') && Looked(c', killWait, look.live == {}, look.live) && c'.looks[0] == c.looks[0]
  {
    hide Later, Exact, Waits;
    var c' := c.(looks := c.looks + [look], checks := c.checks + [now], end := os);
    forall l | l in c.looks ensures Later(l.at, os) { LaterTwice(l.at, c.end, os); }
    LaterTwice(c.looks[|c.looks| - 1].at, c.end, look.at);
    LastCheck(c, killWait);
    WaitsMore(c.checks, c.mark, killWait, now);
  }

  lemma LastCheck(c: Course, killWait: int)
    requires Waits(c.checks, c.mark, killWait, false)
    ensures c.mark <= Due(c)
  {}

  lemma Ended(c: Course, begin: int, grace: int, killWait: int)
    requires Going(c) && Looked(c, killWait, true, {}) && GraceOver(c, begin, grace)
    ensures Ends(c, begin, grace, killWait, Returned)
  {
    hide Going, Waits, GraceOver;
  }

  lemma Overdue(c: Course, begin: int, grace: int, killWait: int, now: int, live: set<Record>)
    requires Going(c) && Looked(c, killWait, false, live) && Due(c) <= now && c.mark + killWait <= now
    requires GraceOver(c, begin, grace)
    ensures Ends(c.(checks := c.checks + [now]), begin, grace, killWait, Raised(live))
  {
    hide Later, Exact, Waits;
    LastCheck(c, killWait);
    WaitsMore(c.checks, c.mark, killWait, now);
  }

  /** Every signal went to a process that ran at that moment, with the pid and the identity recorded. */
  ghost predicate Aimed(log: seq<Event>, stamps: seq<Stamp>, now: int) {
    |stamps| == |log| && (forall i :: 0 <= i < |stamps| ==> stamps[i].when <= now) &&
    forall i :: 0 <= i < |log| && !log[i].Remember? ==>
      var t := log[i].target;
      t.identity.Some? && t.pid in stamps[i].os.table && stamps[i].os.table[t.pid].identity == t.identity.value
  }

  /** The entries from index `from` on were made at `start` or later, and are no signals to end by force
      if they are `mild`. */
  ghost predicate Since(log: seq<Event>, stamps: seq<Stamp>, from: nat, start: int, mild: bool) {
    |stamps| == |log| && forall i :: from <= i < |log| ==> stamps[i].when >= start && (mild ==> !log[i].Kill?)
  }

  lemma AimedMore(log: seq<Event>, stamps: seq<Stamp>, e: Event, now: int, os: Os)
    requires Aimed(log, stamps, now) && (e.Remember? || Runs(os, e.target))
    ensures Aimed(log + [e], stamps + [Stamp(now, os)], now)
  {}

  lemma SinceMore(log: seq<Event>, stamps: seq<Stamp>, from: nat, start: int, mild: bool, e: Event, now: int, os: Os)
    requires Since(log, stamps, from, start, mild) && start <= now && (mild ==> !e.Kill?)
    ensures Since(log + [e], stamps + [Stamp(now, os)], from, start, mild)
  {}

  lemma NoWait(from: int, wait: int)
    ensures Waits([], from, wait, false)
  {}

  lemma SinceNow(log: seq<Event>, stamps: seq<Stamp>, now: int, mild: bool)
    requires Aimed(log, stamps, now)
    ensures Since(log, stamps, |log|, now, mild)
  {}

  lemma SinceTwice(log1: seq<Event>, stamps1: seq<Stamp>, log2: seq<Event>, stamps2: seq<Stamp>, from: nat,
                   start1: int, mild1: bool, start2: int, mild2: bool)
    requires log1 <= log2 && stamps1 <= stamps2 && start1 <= start2 && (mild1 ==> mild2)
    requires Since(log1, stamps1, from, start1, mild1) && Since(log2, stamps2, |log1|, start2, mild2)
    ensures Since(log2, stamps2, from, start1, mild1)
  {
    forall i | from <= i < |log2| ensures stamps2[i].when >= start1 && (mild1 ==> !log2[i].Kill?) {
      if i < |log1| { assert log2[i] == log1[i] && stamps2[i] == stamps1[i]; }
    }
  }

  lemma NoneKilled(log: seq<Event>, stamps: seq<Stamp>, from: nat, start: int)
    requires Since(log, stamps, from, start, true)
    ensures |stamps| == |log| && forall i :: from <= i < |log| ==> !log[i].Kill?
  {}

  lemma LastAsk(asks: seq<int>, begin: int, grace: int)
    requires Waits(asks, begin, grace, true)
    ensures asks != [] && asks[|asks| - 1] >= begin + grace
  {}

  /** All signals to end by force were sent after the first part of the log. */
  lemma KilledLate(log1: seq<Event>, stamps1: seq<Stamp>, log: seq<Event>, stamps: seq<Stamp>, from: nat,
      start: int, late: int)
    requires log1 <= log && Since(log1, stamps1, from, start, true) && Since(log, stamps, |log1|, late, false)
    ensures |stamps| == |log| && forall i :: from <= i < |log| && log[i].Kill? ==> stamps[i].when >= late
  {
    forall i | from <= i < |log1| ensures !log[i].Kill? { assert log[i] == log1[i]; }
  }

  lemma LastLook(c: Course, killWait: int, live: set<Record>)
    requires Looked(c, killWait, false, live)
    ensures c.looks != [] && c.looks[|c.looks| - 1].live == live
  {}

  // ---- the shutdown ----

  class Shutdown {
    const host: Host
    ghost const given: set<Record>
    const remember: bool
    ghost const tracked: bool
    var known: set<Record>
    var sent: set<Record>
    var log: seq<Event>
    ghost var stamps: seq<Stamp>

    constructor (host: Host, processes: set<Record>, remember: bool)
      requires Sound(host.os)
      ensures this.host == host && this.remember == remember && given == set p | p in processes && p.identity.Some?
      ensures Valid() && Settled(log, host.os, sent) && known == given && sent == {} && log == []
      ensures tracked == Tracked(host.os, given, given)
    {
      this.host, this.remember := host, remember;
      known := set p | p in processes && p.identity.Some?;
      given := set p | p in processes && p.identity.Some?;
      tracked := Tracked(host.os, set p | p in processes && p.identity.Some?,
                         set p | p in processes && p.identity.Some?);
      sent, log, stamps := {}, [], [];
    }

    ghost predicate Valid()
      reads this, host
    {
      Sound(host.os) && given <= known && Rightful(host.os, given, known) &&
        (tracked ==> Tracked(host.os, given, known)) &&
      OnlyOwned(log, host.os, given) && AskedOnce(log) && Aimed(log, stamps, host.clock) &&
      (remember ==> known <= given + RememberedIn(log) && RememberedFirst(log, given))
    }

    method Wait()
      requires Valid()
      modifies host
      ensures Valid() && Later(old(host.os), host.os) && host.clock >= old(host.clock)
    {
      hide Sound, Tracked, Later, Rightful, OnlyOwned, AskedOnce, RememberedFirst;
      ghost var os := host.os;
      host.Evolve(given, known, tracked);
      RightfulLater(os, host.os, given, known);
      OnlyOwnedLater(os, host.os, given, log);
    }

    /** `discover`: a snapshot; what it finds is known from then on. */
    method Discover() returns (live: set<Record>, ghost look: Look)
      requires Valid() && Settled(log, host.os, sent)
      modifies host, `known, `log, `stamps
      ensures Valid() && Settled(log, host.os, sent) && host.clock >= old(host.clock) && Later(old(host.os), host.os)
      ensures old(log) <= log && look.live == live && look.known == old(known) && Exact(look)
      ensures old(stamps) <= stamps && Since(log, stamps, |old(log)|, old(host.clock), true)
      ensures old(host.clock) <= look.when <= host.clock
      ensures Later(old(host.os), look.at) && Later(look.at, host.os)
      ensures old(known) <= known && live <= known && forall t :: t in live ==> Usable(t, host.os)
      ensures Covered(old(known), old(host.os), host.os, live)
      ensures live == {} && tracked ==> NoneTraced(host.os, given)
    {
      hide Covered, Sound, Tracked, Later, Rightful, OnlyOwned, AskedOnce, RememberedFirst, RememberedIn, Settled,
        NoneTraced, Usable, Snapped, Owned, Exact, Aimed, Since;
      ghost var os0 := host.os;
      SinceNow(log, stamps, host.clock, true);
      Wait();
      SettledLater(os0, host.os, log, sent);
      var owned := OwnedTree(host.os.table, known);
      live := Live(owned);
      SnapshotCovers(os0, host.os, known, owned);
      SnapshotKeeps(host.os, given, known, owned, tracked);
      SnapshotLogs(host.os, given, log, sent);
      LiveIsExact(host.os, host.clock, known, owned);
      look := Look(Snapped(host.os), host.clock, known, live);
      LaterItself(look.at);
      host.os := Snapped(host.os);
      var added := !(live <= known);
      known := known + live;
      assert !added ==> known == old(known);
      if remember && added {
        RememberKeeps(log, host.os, given, sent, known);
        AimedMore(log, stamps, Remember(known), host.clock, host.os);
        SinceMore(log, stamps, |old(log)|, old(host.clock), true, Remember(known), host.clock, host.os);
        log, stamps := log + [Remember(known)], stamps + [Stamp(host.clock, host.os)];
        ghost var os1 := host.os;
        Wait();
        SettledLater(os1, host.os, log, sent);
        UsableLater(os1, host.os, live);
        LaterTwice(os0, os1, host.os);
        CoveredLater(old(known), os0, os1, host.os, live);
      }
    }

    /** A tenth of a second. */
    method Sleep()
      requires Valid() && Settled(log, host.os, sent)
      modifies host
      ensures Valid() && Settled(log, host.os, sent) && Later(old(host.os), host.os) &&
        host.clock >= old(host.clock) + 100
    {
      hide Sound, Tracked, Later, Rightful, OnlyOwned, AskedOnce, RememberedFirst, Settled;
      Pause();
      host.clock := host.clock + 100;
    }

    method Pause()
      requires Valid() && Settled(log, host.os, sent)
      modifies host
      ensures Valid() && Settled(log, host.os, sent) && Later(old(host.os), host.os) && host.clock >= old(host.clock)
    {
      hide Sound, Tracked, Later, Rightful, OnlyOwned, AskedOnce, RememberedFirst, Settled;
      ghost var os := host.os;
      Wait();
      SettledLater(os, host.os, log, sent);
    }

    /** The grace period: everything owned is asked once to end, also what appears meanwhile. It ends
        early right after a look that finds nothing. */
    method AskToEnd(grace: int) returns (ended: bool, ghost look: Look, ghost asks: seq<int>)
      requires Valid() && Settled(log, host.os, sent)
      modifies host, `known, `sent, `log, `stamps
      ensures Valid() && Settled(log, host.os, sent) && old(known) <= known && old(log) <= log && old(stamps) <= stamps
      ensures Later(old(host.os), host.os) && host.clock >= old(host.clock)
      ensures Waits(asks, old(host.clock), grace, !ended) && (asks != [] ==> asks[|asks| - 1] <= host.clock)
      ensures Since(log, stamps, |old(log)|, old(host.clock), true)
      ensures ended ==>
        Exact(look) && look.live == {} && Later(look.at, host.os) && (tracked ==> NoneTraced(host.os, given))
      ensures !ended ==> Covered(old(known), old(host.os), host.os, sent)
    {
      hide Valid, Later, Settled, NoneTraced, Usable, Covered, Exact, Waits, Since;
      ghost var os0 := host.os;
      LaterItself(os0);
      NothingLogged();
      var deadline, more := host.clock + grace, true;
      ended, look, asks := false, Look(os0, host.clock, {}, {}), [];
      NoWait(host.clock, grace);
      while more && !ended
        invariant Valid() && Settled(log, host.os, sent) && old(known) <= known && old(log) <= log &&
          old(stamps) <= stamps
        invariant Later(os0, host.os) && host.clock >= old(host.clock) && (more || !ended)
        invariant Waits(asks, old(host.clock), grace, !more)
        invariant asks != [] ==> asks[|asks| - 1] + (if more && !ended then 100 else 0) <= host.clock
        invariant Since(log, stamps, |old(log)|, old(host.clock), true)
        invariant ended ==>
          Exact(look) && look.live == {} && Later(look.at, host.os) && (tracked ==> NoneTraced(host.os, given))
        invariant !more ==> Covered(old(known), os0, host.os, sent)
        decreases !ended, more, deadline - host.clock
      {
        ghost var log1, stamps1, clock1 := log, stamps, host.clock;
        var live;
        live, look := Ask(old(known), os0);
        SinceTwice(log1, stamps1, log, stamps, |old(log)|, old(host.clock), true, clock1, true);
        if live == {} {
          ended := true;
        } else {
          WaitsMore(asks, old(host.clock), grace, host.clock);
          asks := asks + [host.clock];
          if host.clock >= deadline {
            more := false;
          } else {
            ghost var os1 := host.os;
            Sleep();
            LaterTwice(os0, os1, host.os);
          }
        }
      }
    }

    lemma NothingLogged()
      requires Valid()
      ensures Since(log, stamps, |log|, host.clock, true)
    {
      SinceNow(log, stamps, host.clock, true);
    }

    /** One turn of the grace period: a look, and a request to what was not asked before. */
    method Ask(ghost known0: set<Record>, ghost os0: Os) returns (live: set<Record>, ghost look: Look)
      requires Valid() && Settled(log, host.os, sent) && known0 <= known && Later(os0, host.os)
      modifies host, `known, `sent, `log, `stamps
      ensures Valid() && Settled(log, host.os, sent) && old(known) <= known && old(log) <= log && old(stamps) <= stamps
      ensures Later(os0, host.os) && host.clock >= old(host.clock)
      ensures Since(log, stamps, |old(log)|, old(host.clock), true)
      ensures look.live == live && Exact(look) && Later(look.at, host.os)
      ensures live == {} && tracked ==> NoneTraced(host.os, given)
      ensures live != {} ==> Covered(known0, os0, host.os, sent)
    {
      hide Sound, Tracked, Later, Rightful, OnlyOwned, AskedOnce, RememberedFirst, Settled, NoneTraced, Usable,
        Reached, Covered, Exact, Since;
      ghost var os1, known1, clock1, log1 := host.os, known, host.clock, log;
      live, look := Discover();
      LaterTwice(os0, os1, host.os);
      if live != {} {
        ghost var os2, log2, stamps2, clock2 := host.os, log, stamps, host.clock;
        var unasked := live - sent;
        SignalOwned(unasked, false);
        SinceTwice(log2, stamps2, log, stamps, |log1|, clock1, true, clock2, true);
        assert live <= sent + unasked;
        sent := sent + unasked;
        ghost var os3 := host.os;
        LaterTwice(look.at, os2, os3);
        Pause();
        LaterTwice(look.at, os3, host.os);
        CoveredByEnd(known0, os0, known1, os1, os2, os3, host.os, live, sent);
      }
    }

    /** One look, after which everything found is forced to end. */
    method Strike() returns (live: set<Record>, ghost look: Look)
      requires Valid() && Settled(log, host.os, sent)
      modifies host, `known, `log, `stamps
      ensures Valid() && Settled(log, host.os, sent) && host.clock >= old(host.clock) && Later(old(host.os), host.os)
      ensures old(known) <= known && old(log) <= log && old(stamps) <= stamps
      ensures Since(log, stamps, |old(log)|, old(host.clock), false)
      ensures look.live == live && look.known == old(known) && Exact(look)
      ensures old(host.clock) <= look.when <= host.clock
      ensures Later(old(host.os), look.at) && Later(look.at, host.os)
      ensures live == {} && tracked ==> NoneTraced(host.os, given)
      ensures Covered(old(known), old(host.os), host.os, live) && Reached(log, host.os, live, true)
      ensures forall t :: t in live ==> Usable(t, host.os)
    {
      hide Valid, Later, Settled, NoneTraced, Usable, Reached, Covered, Exact;
      ghost var os0, log0, clock0 := host.os, log, host.clock;
      live, look := Discover();
      NoneReached(log, host.os, true);
      if live != {} {
        ghost var os1, log1, stamps1, clock1 := host.os, log, stamps, host.clock;
        SignalOwned(live, true);
        SinceTwice(log1, stamps1, log, stamps, |log0|, clock0, false, clock1, false);
        LaterTwice(os0, os1, host.os);
        LaterTwice(look.at, os1, host.os);
        CoveredLater(old(known), os0, os1, host.os, live);
      }
    }

    /** `terminate_owned`. It returns right after a look that found nothing, which means that no process
        is left that descends from the named ones, unless one was forked and orphaned unseen. It raises
        with what the last look found; every process known at the start that still runs was then sent
        both signals. */
    method Terminate(grace: int, killWait: int) returns (e: Ending, ghost course: Course)
      requires Valid() && Settled(log, host.os, sent)
      modifies host, `known, `sent, `log, `stamps
      ensures Valid() && Settled(log, host.os, sent) && old(log) <= log && old(stamps) <= stamps
      ensures Ends(course, old(host.clock), grace, killWait, e) && course.end == host.os
      ensures forall i :: |old(log)| <= i < |log| && log[i].Kill? ==> stamps[i].when >= old(host.clock) + grace
      ensures e.Returned? && tracked ==> NoneTraced(host.os, given)
      ensures e.Raised? ==>
        Covered(old(known), old(host.os), host.os, sent * e.remaining) && Reached(log, host.os, e.remaining, true)
    {
      hide Valid, Later, Settled, NoneTraced, Reached, Covered, Exact, Going, Ends, Waits, Since;
      ghost var os0, log0, clock0 := host.os, log, host.clock;
      var ended, look, asks := AskToEnd(grace);
      NoneKilled(log, stamps, |log0|, clock0);
      if ended {
        course := Course(asks, [look], look.when, [], host.os);
        EndedEarly(course, clock0, grace, killWait);
        return Returned, course;
      }
      ghost var log1, stamps1, clock1 := log, stamps, host.clock;
      LastAsk(asks, clock0, grace);
      e, course := Force(clock0, grace, asks, killWait, old(known), os0);
      KilledLate(log1, stamps1, log, stamps, |log0|, clock0, clock1);
    }

    /** A strike, and the time that passes after it: a tenth of a second or any. What it covers stays covered. */
    method StrikeAndWait(rested: bool, ghost known0: set<Record>, ghost os0: Os)
      returns (live: set<Record>, ghost look: Look)
      requires Valid() && Settled(log, host.os, sent) && known0 <= known && Later(os0, host.os)
      requires Covered(known0, os0, host.os, sent)
      modifies host, `known, `log, `stamps
      ensures Valid() && Settled(log, host.os, sent) && old(known) <= known && old(log) <= log && old(stamps) <= stamps
      ensures Since(log, stamps, |old(log)|, old(host.clock), false) && old(host.clock) <= look.when <= host.clock
      ensures host.clock >= old(host.clock) + if rested && live != {} then 100 else 0
      ensures look.live == live && Exact(look) && Later(old(host.os), look.at) && Later(look.at, host.os)
      ensures Later(os0, host.os) && Later(old(host.os), host.os)
      ensures live == {} && tracked ==> NoneTraced(host.os, given)
      ensures Covered(known0, os0, host.os, sent) && Covered(known0, os0, host.os, live) &&
        Reached(log, host.os, live, true)
    {
      hide Valid, Later, Settled, NoneTraced, Usable, Reached, Covered, Exact, Since;
      ghost var os1, known1 := host.os, known;
      live, look := Strike();
      ghost var os2 := host.os;
      LaterItself(os2);
      if live != {} && rested {
        Sleep();
      } else if live != {} {
        Pause();
      }
      LaterTwice(look.at, os2, host.os);
      CoveredByEnd(known0, os0, known1, os1, os2, os2, host.os, live, live);
      CoveredLater(known0, os0, os1, host.os, sent);
      ReachedLater(os2, host.os, log, log, live, true);
    }

    /** Time between two statements. */
    method Tick()
      requires Valid()
      modifies host`clock
      ensures Valid() && host.clock >= old(host.clock)
    {
      hide Sound, Tracked, Rightful, OnlyOwned, AskedOnce, RememberedFirst;
      var passed: int := *;
      if passed > 0 { host.clock := host.clock + passed; }
    }

    /** The forced end, by the two kinds of signal, once the grace period is over. */
    method Force(ghost begin: int, ghost grace: int, ghost asks: seq<int>, killWait: int, ghost known0: set<Record>,
                 ghost os0: Os)
      returns (e: Ending, ghost course: Course)
      requires Valid() && Settled(log, host.os, sent) && known0 <= known && Later(os0, host.os)
      requires Covered(known0, os0, host.os, sent)
      requires asks != [] && asks[|asks| - 1] <= host.clock && Waits(asks, begin, grace, true)
      modifies host, `known, `log, `stamps
      ensures Valid() && Settled(log, host.os, sent) && old(log) <= log && old(stamps) <= stamps
      ensures Ends(course, begin, grace, killWait, e) && course.end == host.os
      ensures Since(log, stamps, |old(log)|, old(host.clock), false)
      ensures e.Returned? && tracked ==> NoneTraced(host.os, given)
      ensures e.Raised? ==>
        Covered(known0, os0, host.os, sent * e.remaining) && Reached(log, host.os, e.remaining, true)
    {
      hide Valid, Later, Settled, NoneTraced, Reached, Covered, Exact, Going, Ends, Looked, Waits, Since;
      ghost var log0, clock0 := log, host.clock;
      var live, look := StrikeAndWait(false, known0, os0);
      course := Course(asks, [look], host.clock, [], host.os);
      FirstLook(course, killWait);
      var deadline, ended := host.clock + killWait, false;
      Tick();
      while host.clock < deadline && !ended
        invariant Valid() && Settled(log, host.os, sent) && known0 <= known && Later(os0, host.os)
        invariant log0 <= log && old(stamps) <= stamps && Since(log, stamps, |log0|, clock0, false)
        invariant clock0 <= host.clock
        invariant Covered(known0, os0, host.os, sent)
        invariant ended && tracked ==> NoneTraced(host.os, given)
        invariant !ended ==> Covered(known0, os0, host.os, live) && Reached(log, host.os, live, true)
        invariant Going(course) && Looked(course, killWait, ended, live) && GraceOver(course, begin, grace)
        invariant course.end == host.os && deadline == course.mark + killWait && (ended ==> live == {})
        invariant !ended ==> host.clock >= Due(course)
        decreases !ended, deadline - host.clock
      {
        ghost var now, log1, stamps1 := host.clock, log, stamps;
        LastLook(course, killWait, live);
        live, look := StrikeAndWait(true, known0, os0);
        SinceTwice(log1, stamps1, log, stamps, |log0|, clock0, false, now, false);
        NextLook(course, killWait, now, look, host.os);
        course := course.(looks := course.looks + [look], checks := course.checks + [now], end := host.os);
        ended := live == {};
      }
      if ended {
        Ended(course, begin, grace, killWait);
        return Returned, course;
      }
      CoveredTwice(known0, os0, host.os, sent, live);
      Overdue(course, begin, grace, killWait, host.clock, live);
      course := course.(checks := course.checks + [host.clock]);
      return Raised(live), course;
    }

    /** `signal_owned`, over the targets in any order. */
    method SignalOwned(targets: set<Record>, force: bool)
      requires Valid() && Settled(log, host.os, sent) && targets <= known &&
        forall t :: t in targets ==> Usable(t, host.os)
      requires !force ==> targets !! sent
      modifies host, `log, `stamps
      ensures Valid() && Settled(log, host.os, if force then sent else sent + targets) && host.clock >= old(host.clock)
      ensures Reached(log, host.os, targets, force) && forall t :: t in targets ==> Usable(t, host.os)
      ensures Later(old(host.os), host.os) && old(log) <= log && old(stamps) <= stamps
      ensures Since(log, stamps, |old(log)|, old(host.clock), !force)
      ensures forall i :: |old(log)| <= i < |log| ==>
        !log[i].Remember? && log[i].Kill? == force && log[i].target in targets
    {
      hide Sound, Tracked, Later, Rightful, OnlyOwned, AskedOnce, RememberedFirst, RememberedIn, Settled, Usable,
        Reached, Runs, Aimed, Since;
      ghost var os0 := host.os;
      SinceNow(log, stamps, host.clock, !force);
      LaterItself(os0);
      var rest := targets;
      assert targets - rest == {} && sent + {} == sent;
      NoneReached(log, host.os, force);
      while rest != {}
        invariant Valid() && rest <= targets && host.clock >= old(host.clock) &&
          forall t :: t in targets ==> Usable(t, host.os)
        invariant Settled(log, host.os, if force then sent else sent + (targets - rest))
        invariant Reached(log, host.os, targets - rest, force) && Later(os0, host.os)
        invariant old(log) <= log && old(stamps) <= stamps && Since(log, stamps, |old(log)|, old(host.clock), !force)
        invariant forall i :: |old(log)| <= i < |log| ==>
          !log[i].Remember? && log[i].Kill? == force && log[i].target in targets
      {
        var t :| t in rest;
        ghost var os, asked := host.os, if force then sent else sent + (targets - rest);
        Wait();
        SettledLater(os, host.os, log, asked);
        LaterTwice(os0, os, host.os);
        UsableLater(os, host.os, targets);
        ReachedLater(os, host.os, log, log, targets - rest, force);
        var signal := if force then Kill(t) else Term(t);
        ghost var log0 := log;
        if Runs(host.os, t) {
          SignalKeeps(log, host.os, given, known, asked, signal, remember);
          AimedMore(log, stamps, signal, host.clock, host.os);
          SinceMore(log, stamps, |old(log)|, old(host.clock), !force, signal, host.clock, host.os);
          log, stamps := log + [signal], stamps + [Stamp(host.clock, host.os)];
        }
        OneMoreReached(log0, log, host.os, asked, targets - rest, t, force);
        assert targets - (rest - {t}) == targets - rest + {t};
        assert sent + (targets - rest + {t}) == sent + (targets - rest) + {t};
        rest := rest - {t};
      }
      assert targets - rest == targets;
    }
  }

  lemma RightfulLater(os: Os, later: Os, given: set<Record>, known: set<Record>)
    requires Later(os, later) && Rightful(os, given, known)
    ensures Rightful(later, given, known)
  {
    forall k | k in known && k !in given ensures k.identity.Some? && Descended(later, given, k.identity.value) {
      DescendedLater(os, later, given, k.identity.value);
    }
  }

  lemma DescendedLater(os: Os, later: Os, given: set<Record>, i: Identity)
    requires Later(os, later) && Descended(os, given, i)
    ensures Descended(later, given, i)
  {
    var r :| r in os.line[i] && Root(os, given, r);
    assert Root(later, given, r);
  }

  lemma OnlyOwnedLater(os: Os, later: Os, given: set<Record>, log: seq<Event>)
    requires Later(os, later) && OnlyOwned(log, os, given)
    ensures OnlyOwned(log, later, given)
  {
    forall e | e in log && !e.Remember? ensures Rightly(e.target, later, given) {
      DescendedLater(os, later, given, e.target.identity.value);
    }
  }

  /** All that were asked to end: no one else was, and each got the signal or had ended. */
  ghost predicate Settled(log: seq<Event>, os: Os, sent: set<Record>) {
    Asked(log, sent) && Reached(log, os, sent, false) && forall t :: t in sent ==> Usable(t, os)
  }

  ghost predicate NoneTraced(os: Os, given: set<Record>) {
    forall p :: p in os.table ==> !Traced(os, given, os.table[p].identity)
  }

  function Live(owned: map<Pid, Proc>): set<Record> { set p | p in owned :: Record(p, Some(owned[p].identity)) }

  /** Of the processes known at `os0`, those that still run at `os` are among the targets. */
  ghost predicate Covered(known: set<Record>, os0: Os, os: Os, targets: set<Record>) {
    forall k :: k in known && Usable(k, os0) && Runs(os, k) ==> k in targets
  }

  lemma CoveredLater(known: set<Record>, os0: Os, os: Os, later: Os, targets: set<Record>)
    requires Covered(known, os0, os, targets) && Later(os0, os) && Later(os, later)
    ensures Covered(known, os0, later, targets)
  {
    forall k | k in known && Usable(k, os0) && Runs(later, k) ensures k in targets { assert Runs(os, k); }
  }

  lemma CoveredTwice(known: set<Record>, os0: Os, os: Os, a: set<Record>, b: set<Record>)
    requires Covered(known, os0, os, a) && Covered(known, os0, os, b)
    ensures Covered(known, os0, os, a * b)
  {}

  /** What a snapshot covers stays covered until the end of a turn, also for what was known earlier. */
  lemma CoveredByEnd(known0: set<Record>, os0: Os, known1: set<Record>, os1: Os, os2: Os, os3: Os, os4: Os,
      live: set<Record>, targets: set<Record>)
    requires Later(os0, os1) && Later(os1, os2) && Later(os2, os3) && Later(os3, os4) && known0 <= known1
    requires Covered(known1, os1, os2, live) && live <= targets
    ensures Covered(known0, os0, os4, targets) && Later(os0, os4) && Later(os1, os4)
  {
    hide Later, Runs;
    LaterTwice(os0, os1, os2);
    LaterTwice(os0, os2, os3);
    LaterTwice(os0, os3, os4);
    LaterTwice(os1, os2, os3);
    LaterTwice(os1, os3, os4);
    LaterTwice(os2, os3, os4);
    CoveredLater(known1, os1, os2, os4, live);
    UsableLater(os0, os1, set k | k in known0 && Usable(k, os0));
    forall k | k in known0 && Usable(k, os0) && Runs(os4, k) ensures k in targets {
      assert k in set k | k in known0 && Usable(k, os0);
      assert Usable(k, os1);
    }
  }

  lemma SnapshotCovers(os0: Os, os: Os, known: set<Record>, owned: map<Pid, Proc>)
    requires forall p :: p in owned <==> Owned(os.table, known, p)
    requires forall p :: p in owned ==> p in os.table && owned[p] == os.table[p]
    requires Later(os0, os)
    ensures Covered(known, os0, Snapped(os), Live(owned)) && Later(os0, Snapped(os))
  {
    forall k | k in known && Usable(k, os0) && Runs(os, k) ensures k in Live(owned) {
      RootIsOwned(os.table, known, k);
      assert k == Record(k.pid, k.identity);
    }
    assert forall k :: Runs(Snapped(os), k) <==> Runs(os, k);
  }

  lemma UsableLater(os: Os, later: Os, targets: set<Record>)
    requires Later(os, later) && forall t :: t in targets ==> Usable(t, os)
    ensures forall t :: t in targets ==> Usable(t, later)
  {}

  lemma ReachedLater(os: Os, later: Os, log: seq<Event>, more: seq<Event>, targets: set<Record>, force: bool)
    requires Later(os, later) && log <= more && Reached(log, os, targets, force) &&
      forall t :: t in targets ==> Usable(t, os)
    ensures Reached(more, later, targets, force)
  {
    forall t | t in targets && Runs(later, t) ensures (if force then Kill(t) else Term(t)) in more {
      assert Runs(os, t);
      var i :| 0 <= i < |log| && log[i] == if force then Kill(t) else Term(t);
      assert more[i] == log[i];
    }
  }

  lemma SettledLater(os: Os, later: Os, log: seq<Event>, sent: set<Record>)
    requires Later(os, later) && Settled(log, os, sent)
    ensures Settled(log, later, sent)
  {
    ReachedLater(os, later, log, log, sent, false);
  }

  lemma NoneReached(log: seq<Event>, os: Os, force: bool)
    ensures Reached(log, os, {}, force)
  {}

  lemma FoundDescends(os: Os, given: set<Record>, known: set<Record>, owned: map<Pid, Proc>, p: Pid)
    requires Sound(os) && Rightful(os, given, known) && Owned(os.table, known, p)
    ensures p > 1 && p in os.table && os.table[p].identity < os.next && Descended(os, given, os.table[p].identity)
  {
    var path :| Path(os.table, known, path) && path[|path| - 1] == p;
    PathDescends(os, given, known, path);
    assert Placed(os, p);
  }

  lemma SnapshotKeeps(os: Os, given: set<Record>, known: set<Record>, owned: map<Pid, Proc>, tracked: bool)
    requires Sound(os) && given <= known && Rightful(os, given, known) && (tracked ==> Tracked(os, given, known))
    requires forall p :: p in owned <==> Owned(os.table, known, p)
    requires forall p :: p in owned ==> p in os.table && owned[p] == os.table[p]
    requires forall c :: c in os.table && c > 1 && os.table[c].parent in owned ==> c in owned
    ensures Sound(Snapped(os)) && Rightful(Snapped(os), given, known + Live(owned))
    ensures tracked ==> Tracked(Snapped(os), given, known + Live(owned))
    ensures tracked && Live(owned) == {} ==> NoneTraced(Snapped(os), given)
    ensures forall t :: t in Live(owned) ==> Usable(t, Snapped(os))
  {
    hide Owned, Path, Placed, Linked, Lineage;
    var live, os' := Live(owned), Snapped(os);
    forall p | p in owned ensures p > 1 && owned[p].identity < os.next && Descended(os, given, owned[p].identity) {
      FoundDescends(os, given, known, owned, p);
    }
    RightfulLater(os, os', given, known);
    SnapshotSound(os);
    forall p | p in owned ensures Descended(os', given, owned[p].identity) {
      DescendedLater(os, os', given, owned[p].identity);
    }
    if tracked {
      SnapshotFinds(os, given, known, owned);
    }
  }

  lemma SnapshotSound(os: Os)
    requires Sound(os)
    ensures Sound(Snapped(os)) && Later(os, Snapped(os))
  {
    forall p | p in os.table ensures Placed(Snapped(os), p) && Linked(Snapped(os), p) {
      assert Placed(os, p) && Linked(os, p);
    }
    SameLineage(os, Snapped(os));
  }

  lemma SnapshotFinds(os: Os, given: set<Record>, known: set<Record>, owned: map<Pid, Proc>)
    requires Sound(os) && given <= known && Tracked(os, given, known)
    requires forall p :: p in owned <==> Owned(os.table, known, p)
    requires forall p :: p in owned ==> p in os.table && owned[p] == os.table[p]
    requires forall c :: c in os.table && c > 1 && os.table[c].parent in owned ==> c in owned
    ensures Tracked(Snapped(os), given, known + Live(owned))
    ensures Live(owned) == {} ==> NoneTraced(Snapped(os), given)
  {
    forall r | r in known && Matches(os.table, r) ensures r.pid in owned {
      RootIsOwned(os.table, known, r);
    }
    forall p | p in os.table && Traced(Snapped(os), given, os.table[p].identity)
      ensures p in owned && Record(p, Some(os.table[p].identity)) in Live(owned)
    {
      TracedStays(os, given, os.table[p].identity);
      TracedIsFound(os, given, known, owned, p);
    }
  }

  lemma TracedStays(os: Os, given: set<Record>, i: Identity)
    requires Traced(Snapped(os), given, i)
    ensures Traced(os, given, i)
  {
    var r :| r in os.line[i] && Root(Snapped(os), given, r) && Unbroken(Snapped(os), r, i);
    assert Root(os, given, r) && Unbroken(os, r, i);
  }

  lemma SnapshotLogs(os: Os, given: set<Record>, log: seq<Event>, sent: set<Record>)
    requires OnlyOwned(log, os, given) && Settled(log, os, sent)
    ensures OnlyOwned(log, Snapped(os), given) && Settled(log, Snapped(os), sent)
  {
    forall e | e in log && !e.Remember? ensures Rightly(e.target, Snapped(os), given) {
      var r :| r in os.line[e.target.identity.value] && Root(os, given, r);
      assert Root(Snapped(os), given, r);
    }
    assert forall t :: t in sent && Runs(Snapped(os), t) ==> Runs(os, t);
  }

  lemma RememberKeeps(log: seq<Event>, os: Os, given: set<Record>, sent: set<Record>, known: set<Record>)
    requires OnlyOwned(log, os, given) && AskedOnce(log) && RememberedFirst(log, given) && Settled(log, os, sent)
    ensures var log' := log + [Remember(known)];
      OnlyOwned(log', os, given) && AskedOnce(log') && RememberedFirst(log', given) && Settled(log', os, sent) &&
      known <= RememberedIn(log')
  {
    var log' := log + [Remember(known)];
    assert log'[..|log|] == log;
    assert forall k :: 0 <= k < |log| ==> log'[..k] == log[..k];
    assert forall e :: e in log ==> e in log';
  }

  lemma SignalKeeps(log: seq<Event>, os: Os, given: set<Record>, known: set<Record>, asked: set<Record>, e: Event,
      remember: bool)
    requires Sound(os) && Rightful(os, given, known) && OnlyOwned(log, os, given) && AskedOnce(log) && Asked(log, asked)
    requires !e.Remember? && e.target in known && Runs(os, e.target) && Usable(e.target, os) &&
      (e.Term? ==> e.target !in asked)
    requires remember ==> known <= given + RememberedIn(log) && RememberedFirst(log, given)
    ensures var log' := log + [e];
      OnlyOwned(log', os, given) && AskedOnce(log') && RememberedIn(log') == RememberedIn(log) &&
      (remember ==> known <= given + RememberedIn(log') && RememberedFirst(log', given))
  {
    SignalIsRightful(log, os, given, known, e);
    SignalIsFirst(log, asked, e);
    SignalIsRemembered(log, given, known, e, remember);
  }

  lemma SignalIsRightful(log: seq<Event>, os: Os, given: set<Record>, known: set<Record>, e: Event)
    requires Sound(os) && Rightful(os, given, known) && OnlyOwned(log, os, given)
    requires !e.Remember? && e.target in known && Runs(os, e.target) && Usable(e.target, os)
    ensures OnlyOwned(log + [e], os, given)
  {
    hide Descended, Linked, Lineage;
    MatchedDescends(os, given, known, e.target);
    assert Placed(os, e.target.pid);
  }

  lemma SignalIsFirst(log: seq<Event>, asked: set<Record>, e: Event)
    requires AskedOnce(log) && Asked(log, asked) && !e.Remember? && (e.Term? ==> e.target !in asked)
    ensures AskedOnce(log + [e])
  {
    assert forall i :: 0 <= i < |log| && log[i].Term? ==> log[i] in log;
  }

  lemma SignalIsRemembered(log: seq<Event>, given: set<Record>, known: set<Record>, e: Event, remember: bool)
    requires !e.Remember? && e.target in known
    requires remember ==> known <= given + RememberedIn(log) && RememberedFirst(log, given)
    ensures var log' := log + [e];
      RememberedIn(log') == RememberedIn(log) &&
      (remember ==> known <= given + RememberedIn(log') && RememberedFirst(log', given))
  {
    var log' := log + [e];
    assert log'[..|log|] == log;
    assert forall k :: 0 <= k < |log| ==> log'[..k] == log[..k];
  }

  lemma OneMoreReached(log: seq<Event>, log': seq<Event>, os: Os, asked: set<Record>, done: set<Record>, t: Record,
      force: bool)
    requires var e := if force then Kill(t) else Term(t); log' == if Runs(os, t) then log + [e] else log
    requires Settled(log, os, asked) && Reached(log, os, done, force) && Usable(t, os)
    ensures Settled(log', os, if force then asked else asked + {t}) && Reached(log', os, done + {t}, force)
  {
    assert forall e :: e in log ==> e in log';
    assert Runs(os, t) ==> (if force then Kill(t) else Term(t)) in log';
  }

  // ---- what the two ends of a shutdown mean ----

  /** Once no traced process is left, none is left at all, if no descendant was both forked and
      orphaned between two snapshots. */
  lemma NoneIsLeft(os: Os, given: set<Record>)
    requires Sound(os) && NoneTraced(os, given)
    requires forall m :: m in os.missed ==> !Descended(os, given, m)
    ensures forall p :: p in os.table ==> !Descended(os, given, os.table[p].identity)
  {
    forall p | p in os.table
      ensures Descended(os, given, os.table[p].identity) ==> Traced(os, given, os.table[p].identity)
    {
      DescendedIsTraced(os, given, os.table[p].identity);
    }
  }

  lemma DescendedIsTraced(os: Os, given: set<Record>, i: Identity)
    requires Sound(os)
    requires forall m :: m in os.missed ==> !Descended(os, given, m)
    ensures Descended(os, given, i) ==> Traced(os, given, i)
  {
    hide Linked, Placed;
    if Descended(os, given, i) {
      var r :| r in os.line[i] && Root(os, given, r);
      assert Lineage(os, i);
      forall m | m in os.line[i] && m > r ensures m !in os.missed {
        assert r in os.line[m] && Descended(os, given, m);
      }
      assert Unbroken(os, r, i);
    }
  }

  /** A shutdown keeps track of everything if each descendant of the recorded processes is recorded or
      still under the parent that forked it; `Host.Evolve` keeps it so until the shutdown begins. */
  lemma TrackedWhenRecorded(os: Os, given: set<Record>)
    requires Sound(os)
    requires forall p :: p in os.table && Descended(os, given, os.table[p].identity) ==>
      Record(p, Some(os.table[p].identity)) in given || UnderParent(os, p)
    ensures var start := os.(born := os.line.Keys, missed := {}); Sound(start) && Tracked(start, given, given)
  {
    var start := os.(born := os.line.Keys, missed := {});
    forall p | p in os.table ensures Placed(start, p) && Linked(start, p) && InSight(start, given, given, p) {
      assert Placed(os, p) && Linked(os, p);
      if Traced(start, given, os.table[p].identity) {
        RootsStay(os, start, given, os.table[p].identity);
        assert UnderParent(os, p) ==> UnderParent(start, p);
      }
    }
    SameLineage(os, start);
  }

  lemma RootsStay(os: Os, start: Os, given: set<Record>, i: Identity)
    requires start.line == os.line && start.place == os.place && Traced(start, given, i)
    ensures Descended(os, given, i)
  {
    var r :| r in start.line[i] && Root(start, given, r) && Unbroken(start, r, i);
    assert Root(os, given, r);
  }

  // ---- raising although nothing is left ----

  /** It raises with nothing in hand exactly if the look at the end of the grace period found nothing and
      the deadline had come before the next one. */
  lemma RaisedWithNothing(c: Course, begin: int, grace: int, killWait: int, remaining: set<Record>)
    requires Ends(c, begin, grace, killWait, Raised(remaining))
    ensures remaining == {} <==> c.looks[0].live == {} && c.mark + killWait <= c.checks[0]
  {
    hide Later, Exact;
    assert |c.looks| > 1 ==> c.checks[0] < c.mark + killWait;
  }

  /** With no time to wait this happens whenever the last owned process ends just before that look. */
  lemma NoTimeToWait(os: Os, known: set<Record>, grace: nat, killWait: int)
    requires killWait <= 0 && forall p :: p in os.table ==> !Owned(os.table, known, p)
    ensures Ends(Course([grace], [Look(os, grace, known, {})], grace, [grace], os), 0, grace, killWait, Raised({}))
  {
    hide Owned;
    LaterItself(os);
  }

  /** A host with one process. */
  function Single(): Os { Os(map[5 := Proc(1, 0)], 1, map[0 := {0}], map[0 := 5], {}, {}) }

  lemma SingleIsSound()
    ensures Sound(Single()) && Later(Single(), Exit(Single(), 5, map[])) && Exit(Single(), 5, map[]).table == map[]
  {
    assert Placed(Single(), 5) && Linked(Single(), 5) && Lineage(Single(), 0);
    ExitIsSound(Single(), 5, map[]);
  }

  lemma SingleIsSeen(r: Record, when: int)
    requires r == Record(5, Some(0))
    ensures Exact(Look(Single(), when, {r}, {r}))
  {
    hide Owned;
    assert Single().table == map[5 := Proc(1, 0)];
    RootIsOwned(Single().table, {r}, r);
  }

  /** With time to wait it raises with a process that has ended since it was last seen, here during
      the final sleep. */
  lemma EndedWhileAsleep(grace: nat, killWait: int) returns (c: Course, r: Record)
    requires 0 < killWait <= 100
    ensures Ends(c, 0, grace, killWait, Raised({r})) && Sound(c.looks[0].at) && c.end.table == map[]
  {
    hide Sound, Exact, Later, Single, Exit;
    r := Record(5, Some(0));
    var look := Look(Single(), grace, {r}, {r});
    c := Course([grace], [look, look], grace, [grace, grace + 100], Exit(Single(), 5, map[]));
    SingleIsSound();
    SingleIsSeen(r, grace);
    LaterItself(Single());
  }
}
