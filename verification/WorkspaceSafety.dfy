/** What every history of WorkspaceProtocol keeps, and what can still be done after a crash. */
module WorkspaceSafety {
  import opened Wrappers
  import opened WorkspaceProtocol

  // ---- steps keep the invariant, clause by clause ----

  predicate Creation(e: Event) { e.Mkdir? || e.WriteReceipt? || e.MakeLock? }

  predicate Entering(e: Event) { e.Flock? || e.Register? }

  predicate Using(e: Event) { e.Write? || e.Delete? || e.Fork? || e.Leave? }

  predicate Cleaning(e: Event) { e.OpenLock? || e.TryLock? || e.StartErase? || e.EraseEntry? || e.Acknowledge? }

  predicate Removal(e: Event) { e.RemoveReceipt? || e.RemoveLock? || e.RemoveDirectory? }

  lemma DeadKept(s: State, e: Event)
    requires Enabled(s, e, true) && KnownTokens(s)
    ensures forall t :: t in s.tokens && Dead(s, t) ==> Dead(Apply(s, e, true), t)
  {}

  lemma UsersInPlaceMkdir(s: State, e: Event)
    requires Enabled(s, e, true) && e.Mkdir? && Creation(e) && UsersInPlace(s) && WindowPrivate(s) && WindowSole(s) &&
      KnownTokens(s)
    ensures UsersInPlace(Apply(s, e, true))
  {}

  lemma UsersInPlaceMaking(s: State, e: Event)
    requires Enabled(s, e, true) && !e.Mkdir? && Creation(e) && UsersInPlace(s) && WindowPrivate(s) && WindowSole(s) &&
      KnownTokens(s)
    ensures UsersInPlace(Apply(s, e, true))
  {}

  lemma UsersInPlaceCreation(s: State, e: Event)
    requires Enabled(s, e, true) && Creation(e) && UsersInPlace(s) && WindowPrivate(s) && WindowSole(s) &&
      KnownTokens(s)
    ensures UsersInPlace(Apply(s, e, true))
  {
    hide Apply, Enabled, UsersInPlace, WindowPrivate, WindowSole, KnownTokens;
    if e.Mkdir? { UsersInPlaceMkdir(s, e); } else { UsersInPlaceMaking(s, e); }
  }

  lemma UsersInPlaceFlock(s: State, e: Event)
    requires Enabled(s, e, true) && e.Flock? && Entering(e) && UsersInPlace(s) && WindowPrivate(s) && WindowSole(s) &&
      KnownTokens(s)
    ensures UsersInPlace(Apply(s, e, true))
  {}

  lemma UsersInPlaceRegister(s: State, e: Event)
    requires Enabled(s, e, true) && !e.Flock? && Entering(e) && UsersInPlace(s) && WindowPrivate(s) && WindowSole(s) &&
      KnownTokens(s)
    ensures UsersInPlace(Apply(s, e, true))
  {}

  lemma UsersInPlaceEntering(s: State, e: Event)
    requires Enabled(s, e, true) && Entering(e) && UsersInPlace(s) && WindowPrivate(s) && WindowSole(s) &&
      KnownTokens(s)
    ensures UsersInPlace(Apply(s, e, true))
  {
    hide Apply, Enabled, UsersInPlace, WindowPrivate, WindowSole, KnownTokens;
    if e.Flock? { UsersInPlaceFlock(s, e); } else { UsersInPlaceRegister(s, e); }
  }

  lemma UsersInPlaceUsing(s: State, e: Event)
    requires Enabled(s, e, true) && Using(e) && UsersInPlace(s)
    ensures UsersInPlace(Apply(s, e, true))
  {}

  lemma UsersInPlaceCleaning(s: State, e: Event)
    requires Enabled(s, e, true) && Cleaning(e) && UsersInPlace(s)
    ensures UsersInPlace(Apply(s, e, true))
  {}

  lemma UsersInPlaceRemoval(s: State, e: Event)
    requires Enabled(s, e, true) && Removal(e) && UsersInPlace(s) && HeldMeansDead(s)
    ensures UsersInPlace(Apply(s, e, true))
  {}

  lemma UsersHoldLocksCreation(s: State, e: Event)
    requires Enabled(s, e, true) && Creation(e) && UsersHoldLocks(s) && WindowPrivate(s) && WindowSole(s) &&
      KnownTokens(s)
    ensures UsersHoldLocks(Apply(s, e, true))
  {}

  lemma UsersHoldLocksEntering(s: State, e: Event)
    requires Enabled(s, e, true) && Entering(e) && UsersHoldLocks(s) && WindowPrivate(s) && WindowSole(s) &&
      KnownTokens(s)
    ensures UsersHoldLocks(Apply(s, e, true))
  {}

  lemma UsersHoldLocksUsing(s: State, e: Event)
    requires Enabled(s, e, true) && Using(e) && UsersHoldLocks(s)
    ensures UsersHoldLocks(Apply(s, e, true))
  {}

  lemma UsersHoldLocksCleaning(s: State, e: Event)
    requires Enabled(s, e, true) && Cleaning(e) && UsersHoldLocks(s)
    ensures UsersHoldLocks(Apply(s, e, true))
  {}

  lemma UsersHoldLocksRemoval(s: State, e: Event)
    requires Enabled(s, e, true) && Removal(e) && UsersHoldLocks(s)
    ensures UsersHoldLocks(Apply(s, e, true))
  {}

  lemma WindowPrivateMkdir(s: State, e: Event)
    requires Enabled(s, e, true) && e.Mkdir? && Creation(e) && WindowPrivate(s) && WindowSole(s) && KnownTokens(s)
    ensures WindowPrivate(Apply(s, e, true))
  {}

  lemma WindowPrivateMaking(s: State, e: Event)
    requires Enabled(s, e, true) && !e.Mkdir? && Creation(e) && WindowPrivate(s) && WindowSole(s) && KnownTokens(s)
    ensures WindowPrivate(Apply(s, e, true))
  {}

  lemma WindowPrivateCreation(s: State, e: Event)
    requires Enabled(s, e, true) && Creation(e) && WindowPrivate(s) && WindowSole(s) && KnownTokens(s)
    ensures WindowPrivate(Apply(s, e, true))
  {
    hide Apply, Enabled, UsersInPlace, WindowPrivate, WindowSole, KnownTokens;
    if e.Mkdir? { WindowPrivateMkdir(s, e); } else { WindowPrivateMaking(s, e); }
  }

  lemma WindowPrivateEntering(s: State, e: Event)
    requires Enabled(s, e, true) && Entering(e) && WindowPrivate(s) && WindowSole(s) && KnownTokens(s)
    ensures WindowPrivate(Apply(s, e, true))
  {}

  lemma WindowPrivateUsing(s: State, e: Event)
    requires Enabled(s, e, true) && Using(e) && WindowPrivate(s) && WindowSole(s)
    ensures WindowPrivate(Apply(s, e, true))
  {}

  lemma WindowPrivateCleaning(s: State, e: Event)
    requires Enabled(s, e, true) && Cleaning(e) && WindowPrivate(s) && WindowSole(s)
    ensures WindowPrivate(Apply(s, e, true))
  {}

  lemma WindowPrivateRemoval(s: State, e: Event)
    requires Enabled(s, e, true) && Removal(e) && WindowPrivate(s) && WindowSole(s)
    ensures WindowPrivate(Apply(s, e, true))
  {}

  lemma WindowSoleCreation(s: State, e: Event)
    requires Enabled(s, e, true) && Creation(e) && WindowSole(s) && KnownTokens(s)
    ensures WindowSole(Apply(s, e, true))
  {}

  lemma WindowSoleEntering(s: State, e: Event)
    requires Enabled(s, e, true) && Entering(e) && WindowSole(s) && KnownTokens(s)
    ensures WindowSole(Apply(s, e, true))
  {}

  lemma WindowSoleUsing(s: State, e: Event)
    requires Enabled(s, e, true) && Using(e) && WindowSole(s)
    ensures WindowSole(Apply(s, e, true))
  {}

  lemma WindowSoleCleaning(s: State, e: Event)
    requires Enabled(s, e, true) && Cleaning(e) && WindowSole(s)
    ensures WindowSole(Apply(s, e, true))
  {}

  lemma WindowSoleRemoval(s: State, e: Event)
    requires Enabled(s, e, true) && Removal(e) && WindowSole(s)
    ensures WindowSole(Apply(s, e, true))
  {}

  lemma CleanersAloneCreation(s: State, e: Event)
    requires Enabled(s, e, true) && Creation(e) && CleanersAlone(s) && WindowSole(s) && KnownTokens(s)
    ensures CleanersAlone(Apply(s, e, true))
  {
    hide Dead;
    DeadKept(s, e);
    assert e.MakeLock? ==> InWindow(s.acts[e.p], s.acts[e.p].token);
  }

  lemma CleanersAloneEntering(s: State, e: Event)
    requires Enabled(s, e, true) && Entering(e) && CleanersAlone(s) && WindowSole(s) && KnownTokens(s)
    ensures CleanersAlone(Apply(s, e, true))
  {
    hide Dead;
    DeadKept(s, e);
  }

  lemma CleanersAloneUsing(s: State, e: Event)
    requires Enabled(s, e, true) && Using(e) && CleanersAlone(s) && KnownTokens(s)
    ensures CleanersAlone(Apply(s, e, true))
  {
    hide Dead;
    DeadKept(s, e);
  }

  lemma CleanersAloneCleaning(s: State, e: Event)
    requires Enabled(s, e, true) && Cleaning(e) && CleanersAlone(s) && KnownTokens(s) && UsersInPlace(s)
    ensures CleanersAlone(Apply(s, e, true))
  {
    DeadKept(s, e);
  }

  lemma CleanersAloneRemoval(s: State, e: Event)
    requires Enabled(s, e, true) && Removal(e) && CleanersAlone(s) && KnownTokens(s)
    ensures CleanersAlone(Apply(s, e, true))
  {
    hide Dead;
    DeadKept(s, e);
  }

  lemma HeldMeansDeadCreation(s: State, e: Event)
    requires Enabled(s, e, true) && Creation(e) && HeldMeansDead(s) && KnownTokens(s)
    ensures HeldMeansDead(Apply(s, e, true))
  {
    hide Dead;
    DeadKept(s, e);
  }

  lemma HeldMeansDeadEntering(s: State, e: Event)
    requires Enabled(s, e, true) && Entering(e) && HeldMeansDead(s) && KnownTokens(s)
    ensures HeldMeansDead(Apply(s, e, true))
  {
    hide Dead;
    DeadKept(s, e);
  }

  lemma HeldMeansDeadUsing(s: State, e: Event)
    requires Enabled(s, e, true) && Using(e) && HeldMeansDead(s) && KnownTokens(s)
    ensures HeldMeansDead(Apply(s, e, true))
  {
    DeadKept(s, e);
  }

  lemma HeldMeansDeadLocking(s: State, e: Event)
    requires Enabled(s, e, true) && e.TryLock? && Cleaning(e) && HeldMeansDead(s) && CleanersAlone(s) &&
      KnownTokens(s) && UsersHoldLocks(s) && WindowSole(s)
    ensures HeldMeansDead(Apply(s, e, true))
  {
    DeadKept(s, e);
  }

  lemma HeldMeansDeadErasing(s: State, e: Event)
    requires Enabled(s, e, true) && !e.TryLock? && Cleaning(e) && HeldMeansDead(s) && CleanersAlone(s) &&
      KnownTokens(s) && UsersHoldLocks(s) && WindowSole(s)
    ensures HeldMeansDead(Apply(s, e, true))
  {
    DeadKept(s, e);
  }

  lemma HeldMeansDeadCleaning(s: State, e: Event)
    requires Enabled(s, e, true) && Cleaning(e) && HeldMeansDead(s) && CleanersAlone(s) && KnownTokens(s) &&
      UsersHoldLocks(s) && WindowSole(s)
    ensures HeldMeansDead(Apply(s, e, true))
  {
    hide Apply, Enabled, HeldMeansDead, CleanersAlone, KnownTokens, UsersHoldLocks, WindowSole;
    if e.TryLock? { HeldMeansDeadLocking(s, e); } else { HeldMeansDeadErasing(s, e); }
  }

  lemma HeldMeansDeadRemoval(s: State, e: Event)
    requires Enabled(s, e, true) && Removal(e) && HeldMeansDead(s) && KnownTokens(s)
    ensures HeldMeansDead(Apply(s, e, true))
  {
    hide Dead;
    DeadKept(s, e);
  }

  lemma WritersRegisteredKept(s: State, e: Event)
    requires Enabled(s, e, true) && WritersRegistered(s) && KnownTokens(s)
    ensures WritersRegistered(Apply(s, e, true))
  {}

  lemma AckedEmptyKept(s: State, e: Event)
    requires Enabled(s, e, true) && AckedEmpty(s) && KnownTokens(s) && HeldMeansDead(s)
    ensures AckedEmpty(Apply(s, e, true))
  {
    DeadKept(s, e);
  }

  lemma ContentCoveredUsing(s: State, e: Event)
    requires Enabled(s, e, true) && Using(e) && ContentCovered(s) && WritersRegistered(s) && UsersInPlace(s) &&
      KnownTokens(s)
    requires !Removal(e)
    ensures ContentCovered(Apply(s, e, true))
  {}

  lemma ContentCoveredOther(s: State, e: Event)
    requires Enabled(s, e, true) && !Using(e) && ContentCovered(s) && WritersRegistered(s) && UsersInPlace(s) &&
      KnownTokens(s)
    requires !Removal(e)
    ensures ContentCovered(Apply(s, e, true))
  {}

  lemma ContentCoveredKept(s: State, e: Event)
    requires Enabled(s, e, true) && ContentCovered(s) && WritersRegistered(s) && UsersInPlace(s) && KnownTokens(s)
    requires !Removal(e)
    ensures ContentCovered(Apply(s, e, true))
  {
    hide Apply, Enabled, ContentCovered, WritersRegistered, UsersInPlace, KnownTokens;
    if Using(e) { ContentCoveredUsing(s, e); } else { ContentCoveredOther(s, e); }
  }

  lemma ContentCoveredRemoval(s: State, e: Event)
    requires Enabled(s, e, true) && Removal(e) && ContentCovered(s) && HeldMeansDead(s) && AckedEmpty(s)
    ensures ContentCovered(Apply(s, e, true))
  {}

  lemma KnownTokensCreation(s: State, e: Event)
    requires Enabled(s, e, true) && Creation(e) && KnownTokens(s)
    ensures KnownTokens(Apply(s, e, true))
  {}

  lemma KnownTokensLater(s: State, e: Event)
    requires Enabled(s, e, true) && !Creation(e) && KnownTokens(s)
    ensures KnownTokens(Apply(s, e, true))
  {}

  lemma KnownTokensKept(s: State, e: Event)
    requires Enabled(s, e, true) && KnownTokens(s)
    ensures KnownTokens(Apply(s, e, true))
  {
    hide Apply, Enabled, KnownTokens;
    if Creation(e) { KnownTokensCreation(s, e); } else { KnownTokensLater(s, e); }
  }

  lemma HoldersLiveKept(s: State, e: Event)
    requires Enabled(s, e, true) && HoldersLive(s)
    ensures HoldersLive(Apply(s, e, true))
  {}

  lemma StepKeeps(s: State, e: Event)
    requires Inv(s) && Enabled(s, e, true)
    ensures Inv(Apply(s, e, true))
  {
    hide UsersInPlace, UsersHoldLocks, WritersRegistered, WindowPrivate, WindowSole, CleanersAlone, HeldMeansDead,
         AckedEmpty, ContentCovered, KnownTokens, HoldersLive, Apply, Enabled;
    WritersRegisteredKept(s, e);
    AckedEmptyKept(s, e);
    KnownTokensKept(s, e);
    HoldersLiveKept(s, e);
    if Removal(e) { ContentCoveredRemoval(s, e); } else { ContentCoveredKept(s, e); }
    if Creation(e) {
      UsersInPlaceCreation(s, e);
      UsersHoldLocksCreation(s, e);
      WindowPrivateCreation(s, e);
      WindowSoleCreation(s, e);
      CleanersAloneCreation(s, e);
      HeldMeansDeadCreation(s, e);
    } else if Entering(e) {
      UsersInPlaceEntering(s, e);
      UsersHoldLocksEntering(s, e);
      WindowPrivateEntering(s, e);
      WindowSoleEntering(s, e);
      CleanersAloneEntering(s, e);
      HeldMeansDeadEntering(s, e);
    } else if Using(e) {
      UsersInPlaceUsing(s, e);
      UsersHoldLocksUsing(s, e);
      WindowPrivateUsing(s, e);
      WindowSoleUsing(s, e);
      CleanersAloneUsing(s, e);
      HeldMeansDeadUsing(s, e);
    } else if Cleaning(e) {
      UsersInPlaceCleaning(s, e);
      UsersHoldLocksCleaning(s, e);
      WindowPrivateCleaning(s, e);
      WindowSoleCleaning(s, e);
      CleanersAloneCleaning(s, e);
      HeldMeansDeadCleaning(s, e);
    } else {
      UsersInPlaceRemoval(s, e);
      UsersHoldLocksRemoval(s, e);
      WindowPrivateRemoval(s, e);
      WindowSoleRemoval(s, e);
      CleanersAloneRemoval(s, e);
      HeldMeansDeadRemoval(s, e);
    }
  }

  lemma {:induction false} RunKeeps(s: State, es: seq<Event>)
    requires Inv(s) && Possible(s, es, true)
    ensures Inv(After(s, es, true))
    decreases |es|
  {
    hide Inv, Apply, Enabled;
    if es != [] {
      StepKeeps(s, es[0]);
      RunKeeps(Apply(s, es[0], true), es[1..]);
    }
  }

  // ---- histories ----

  lemma Then(s: State, e: Event, more: seq<Event>, guarded: bool)
    requires Enabled(s, e, guarded) && Possible(Apply(s, e, guarded), more, guarded)
    ensures Possible(s, [e] + more, guarded)
    ensures After(s, [e] + more, guarded) == After(Apply(s, e, guarded), more, guarded)
  {
    hide Apply, Enabled;
    assert ([e] + more)[1..] == more;
  }

  lemma {:induction false} Chain(s: State, es: seq<Event>, more: seq<Event>, guarded: bool)
    requires Possible(s, es, guarded) && Possible(After(s, es, guarded), more, guarded)
    ensures Possible(s, es + more, guarded)
    ensures After(s, es + more, guarded) == After(After(s, es, guarded), more, guarded)
    decreases |es|
  {
    hide Apply, Enabled;
    if es == [] {
      assert es + more == more;
    } else {
      assert (es + more)[0] == es[0] && (es + more)[1..] == es[1..] + more;
      Chain(Apply(s, es[0], guarded), es[1..], more, guarded);
    }
  }

  lemma {:induction false} Unchain(s: State, es: seq<Event>, more: seq<Event>, guarded: bool)
    requires Possible(s, es + more, guarded)
    ensures Possible(s, es, guarded) && Possible(After(s, es, guarded), more, guarded)
    ensures After(s, es + more, guarded) == After(After(s, es, guarded), more, guarded)
    decreases |es|
  {
    hide Apply, Enabled;
    if es == [] {
      assert es + more == more;
    } else {
      assert (es + more)[0] == es[0] && (es + more)[1..] == es[1..] + more;
      Unchain(Apply(s, es[0], guarded), es[1..], more, guarded);
    }
  }

  lemma {:induction false} AckedGrows(s: State, es: seq<Event>, guarded: bool)
    requires Possible(s, es, guarded)
    ensures s.acked <= After(s, es, guarded).acked
    decreases |es|
  {
    if es != [] {
      assert s.acked <= Apply(s, es[0], guarded).acked;
      AckedGrows(Apply(s, es[0], guarded), es[1..], guarded);
    }
  }

  /** Safety of every history: content has its receipt and was registered first, an
      acknowledged directory is empty, and while an owner past flock or a child uses a
      directory nobody erases or acknowledges it. */
  lemma Safe(es: seq<Event>)
    requires Possible(INIT, es, true)
    ensures var s := After(INIT, es, true);
      (forall t :: t in s.dirs && s.dirs[t].content != {} ==>
        s.dirs[t].receipt && t in s.registered && t !in s.acked) &&
      (forall p, t :: p in s.acts && Uses(s.acts[p], t) ==> t !in s.acked) &&
      (forall p, q :: p in s.acts && CleanerIn(s, q) && !s.acts[q].step.Opened? ==> !Uses(s.acts[p], s.acts[q].target))
  {
    hide Apply, Enabled, Possible, After, UsersInPlace, UsersHoldLocks, WindowPrivate, WindowSole, CleanersAlone;
    InitInv();
    RunKeeps(INIT, es);
  }

  lemma InitInv()
    ensures Inv(INIT)
  {}

  /** Once acknowledged, a directory is empty and out of every writer's reach for ever. */
  lemma AcknowledgedForEver(es: seq<Event>, more: seq<Event>, t: Token)
    requires Possible(INIT, es + more, true)
    requires Possible(INIT, es, true) && t in After(INIT, es, true).acked
    ensures var s := After(INIT, es + more, true);
      t in s.acked && Dead(s, t) && (t in s.dirs ==> s.dirs[t].content == {})
  {
    hide Apply, Enabled, Possible, After, UsersInPlace, UsersHoldLocks, WindowPrivate, WindowSole, CleanersAlone,
         HeldMeansDead, ContentCovered, WritersRegistered, Dead;
    Unchain(INIT, es, more, true);
    AckedGrows(After(INIT, es, true), more, true);
    InitInv();
    RunKeeps(INIT, es + more);
  }

  // ---- after a crash ----

  /** All processes end. */
  lemma {:induction false} Crash(s: State) returns (es: seq<Event>)
    requires Inv(s)
    ensures Possible(s, es, true)
    ensures var e := After(s, es, true); e.acts == map[] && e.dirs == s.dirs && e.acked == s.acked
    decreases |s.acts|
  {
    if s.acts == map[] {
      es := [];
    } else {
      var p :| p in s.acts;
      var next := Apply(s, Leave(p), true);
      StepKeeps(s, Leave(p));
      assert |next.acts.Keys| < |s.acts.Keys| by { assert next.acts.Keys == s.acts.Keys - {p}; }
      var rest := Crash(next);
      es := [Leave(p)] + rest;
      assert es[1..] == rest;
    }
  }

  lemma FreshInode(used: set<Inode>) returns (i: Inode)
    ensures i !in used
  {
    i := 0;
    var below: set<Inode> := {};
    while i in used
      invariant below <= used && forall j :: j in below <==> 0 <= j < i
      decreases |used| - |below|
    {
      assert |below| < |used| by { Smaller(below, used, i); }
      below := below + {i};
      i := i + 1;
      assert |below| <= |used| by { Subset(below, used); }
    }
  }

  lemma Subset(a: set<Inode>, b: set<Inode>)
    requires a <= b
    ensures |a| <= |b|
  {
    assert b == a + (b - a);
  }

  lemma Smaller(a: set<Inode>, b: set<Inode>, i: Inode)
    requires a <= b && i in b && i !in a
    ensures |a| < |b|
  {
    Subset(a + {i}, b);
  }

  /** One process of an otherwise idle system is erasing this directory, and has all this to do. */
  ghost predicate OneEraser(s: State, t: Token, todo: set<Name>) {
    t in s.dirs && s.dirs[t].content == todo && 0 in s.acts && s.acts.Keys == {0} && s.acts[0].Cleaner? &&
    s.acts[0].target == t && s.acts[0].step == Erasing(todo) && s.acts[0].recovering
  }

  lemma {:induction false} EraseAll(s: State, t: Token, todo: set<Name>) returns (es: seq<Event>)
    requires OneEraser(s, t, todo)
    ensures Possible(s, es, true)
    ensures var e := After(s, es, true); OneEraser(e, t, {}) && e.dirs - {t} == s.dirs - {t}
    decreases |todo|
  {
    if todo == {} {
      es := [];
    } else {
      var name :| name in todo;
      var next := Apply(s, EraseEntry(0, name), true);
      var rest := EraseAll(next, t, todo - {name});
      es := [EraseEntry(0, name)] + rest;
      assert es[1..] == rest;
      assert next.dirs - {t} == s.dirs - {t};
    }
  }

  lemma StartRecovery(s: State, t: Token) returns (es: seq<Event>)
    requires s.acts == map[] && s.holds == {} && t in s.dirs && s.dirs[t].receipt
    ensures Possible(s, es, true)
    ensures var e := After(s, es, true); OneEraser(e, t, s.dirs[t].content) && e.dirs - {t} == s.dirs - {t}
  {
    var i := FreshInode(s.inodes);
    var s1 := Apply(s, OpenLock(0, t, true, i), true);
    assert s1.acts[0] == Cleaner(t, if s.dirs[t].lock.None? then i else s.dirs[t].lock.value, Opened, true);
    assert s1.holds == {} && s1.dirs[t].receipt && s1.dirs[t].content == s.dirs[t].content;
    var s2 := Apply(s1, TryLock(0), true);
    assert s2.acts[0].step.Held? && s2.acts[0].target == t && s2.dirs == s1.dirs;
    var s3 := Apply(s2, StartErase(0), true);
    assert OneEraser(s3, t, s.dirs[t].content) && s3.dirs - {t} == s.dirs - {t};
    hide Apply, Enabled, OneEraser;
    Then(s2, StartErase(0), [], true);
    Then(s1, TryLock(0), [StartErase(0)] + [], true);
    Then(s, OpenLock(0, t, true, i), [TryLock(0)] + ([StartErase(0)] + []), true);
    es := [OpenLock(0, t, true, i)] + ([TryLock(0)] + ([StartErase(0)] + []));
  }

  lemma FinishRecovery(s: State, t: Token) returns (es: seq<Event>)
    requires OneEraser(s, t, {})
    ensures Possible(s, es, true)
    ensures var e := After(s, es, true); t !in e.dirs && t in e.acked && e.dirs == s.dirs - {t}
  {
    var s1 := Apply(s, Acknowledge(0), true);
    assert RemovingIn(s1, 0) && s1.acts[0].target == t && t in s1.acked && s1.dirs == s.dirs;
    es := RemoveAll(s1, t);
    Then(s, Acknowledge(0), es, true);
    es := [Acknowledge(0)] + es;
  }

  lemma RemoveAll(s: State, t: Token) returns (es: seq<Event>)
    requires RemovingIn(s, 0) && s.acts[0].target == t && s.dirs[t].content == {}
    ensures Possible(s, es, true)
    ensures var e := After(s, es, true); e.acked == s.acked && e.dirs == s.dirs - {t}
  {
    var s1 := Apply(s, RemoveReceipt(0), true);
    var s2 := Apply(s1, RemoveLock(0), true);
    assert s2.acts == s.acts && s2.acked == s.acked && s2.dirs[t] == Directory(false, None, {});
    assert s2.dirs - {t} == s.dirs - {t};
    assert Enabled(s1, RemoveLock(0), true) && Enabled(s2, RemoveDirectory(0), true);
    assert Apply(s2, RemoveDirectory(0), true) == s2.(dirs := s.dirs - {t});
    hide Apply, Enabled, RemovingIn;
    es := [];
    Then(s2, RemoveDirectory(0), es, true); es := [RemoveDirectory(0)] + es;
    Then(s1, RemoveLock(0), es, true); es := [RemoveLock(0)] + es;
    Then(s, RemoveReceipt(0), es, true); es := [RemoveReceipt(0)] + es;
  }

  /** Whatever happened so far and wherever everything crashed, a directory with content can
      be recovered: erased, acknowledged and removed, no other directory being touched. */
  lemma RecoverableAfterCrash(es: seq<Event>, t: Token) returns (more: seq<Event>)
    requires Possible(INIT, es, true)
    requires t in After(INIT, es, true).dirs && After(INIT, es, true).dirs[t].content != {}
    ensures Possible(INIT, es + more, true)
    ensures var e := After(INIT, es + more, true); t in e.acked && e.dirs == After(INIT, es, true).dirs - {t}
  {
    var s := After(INIT, es, true);
    InitInv();
    RunKeeps(INIT, es);
    var c := Crash(s);
    var s1 := After(s, c, true);
    RunKeeps(s, c);
    assert s1.holds == {};
    var a := StartRecovery(s1, t);
    var s2 := After(s1, a, true);
    var b := EraseAll(s2, t, s1.dirs[t].content);
    var s3 := After(s2, b, true);
    var d := FinishRecovery(s3, t);
    Chain(s2, b, d, true);
    Chain(s1, a, b + d, true);
    Chain(s, c, a + (b + d), true);
    more := c + (a + (b + d));
    Chain(INIT, es, more, true);
    assert s3.dirs - {t} == s.dirs - {t};
  }

  /** The directories with content. */
  function Full(s: State): set<Token> { set t | t in s.dirs && s.dirs[t].content != {} }

  /** And one after the other all of them can: there is one continuation after which no directory has
      content, and all that had are acknowledged and removed. */
  lemma {:induction false} AllRecoverableAfterCrash(es: seq<Event>) returns (more: seq<Event>)
    requires Possible(INIT, es, true)
    ensures Possible(INIT, es + more, true)
    ensures var s, e := After(INIT, es, true), After(INIT, es + more, true);
      Full(s) <= e.acked && e.dirs == s.dirs - Full(s) && Full(e) == {}
    decreases |Full(After(INIT, es, true))|
  {
    hide Possible, After, Enabled, Apply;
    var s := After(INIT, es, true);
    if Full(s) == {} {
      more := [];
      assert es + [] == es && s.dirs - {} == s.dirs;
    } else {
      var t :| t in Full(s);
      var first := RecoverableAfterCrash(es, t);
      var s1 := After(INIT, es + first, true);
      assert Full(s1) == Full(s) - {t};
      var rest := AllRecoverableAfterCrash(es + first);
      AckedGrowsBy(es + first, rest);
      more := first + rest;
      assert es + first + rest == es + more && s.dirs - {t} - (Full(s) - {t}) == s.dirs - Full(s);
    }
  }

  lemma AckedGrowsBy(es: seq<Event>, more: seq<Event>)
    requires Possible(INIT, es + more, true)
    ensures Possible(INIT, es, true) && After(INIT, es, true).acked <= After(INIT, es + more, true).acked
  {
    Unchain(INIT, es, more, true);
    AckedGrows(After(INIT, es, true), more, true);
  }

  // ---- why the window matters ----

  /** The owner has made its lock file, and has not locked it yet. */
  function Unlocked(acked: set<Token>): State {
    State(map[0 := Directory(true, Some(7), {})], map[0 := 7], {}, map[0 := Owner(0, LockMade(7))], {0}, {7}, {}, acked)
  }

  lemma RaceOpening() returns (es: seq<Event>)
    ensures Possible(INIT, es, false) && After(INIT, es, false) == Unlocked({})
  {
    var s1 := Apply(INIT, Mkdir(0, 0), false);
    var s2 := Apply(s1, WriteReceipt(0), false);
    assert Apply(s2, MakeLock(0, 7), false) == Unlocked({});
    es := [];
    Then(s2, MakeLock(0, 7), es, false); es := [MakeLock(0, 7)] + es;
    Then(s1, WriteReceipt(0), es, false); es := [WriteReceipt(0)] + es;
    Then(INIT, Mkdir(0, 0), es, false); es := [Mkdir(0, 0)] + es;
  }

  function Racing(step: CleanPhase, holds: set<(Proc, Inode)>, acked: set<Token>): State {
    Unlocked(acked).(acts := map[0 := Owner(0, LockMade(7)), 1 := Cleaner(0, 7, step, true)], holds := holds)
  }

  lemma RaceCleaning() returns (es: seq<Event>)
    ensures Possible(Unlocked({}), es, false) && After(Unlocked({}), es, false) == Unlocked({0})
  {
    RaceLock();
    RaceAcknowledge();
    hide Apply, Enabled, Unlocked, Racing;
    es := [];
    Then(Racing(Removing, {(1, 7)}, {0}), Leave(1), es, false); es := [Leave(1)] + es;
    Then(Racing(Erasing({}), {(1, 7)}, {}), Acknowledge(1), es, false); es := [Acknowledge(1)] + es;
    Then(Racing(Held, {(1, 7)}, {}), StartErase(1), es, false); es := [StartErase(1)] + es;
    Then(Racing(Opened, {}, {}), TryLock(1), es, false); es := [TryLock(1)] + es;
    Then(Unlocked({}), OpenLock(1, 0, true, 8), es, false); es := [OpenLock(1, 0, true, 8)] + es;
  }

  lemma RaceLock()
    ensures Enabled(Unlocked({}), OpenLock(1, 0, true, 8), false)
    ensures Apply(Unlocked({}), OpenLock(1, 0, true, 8), false) == Racing(Opened, {}, {})
    ensures Enabled(Racing(Opened, {}, {}), TryLock(1), false)
    ensures Apply(Racing(Opened, {}, {}), TryLock(1), false) == Racing(Held, {(1, 7)}, {})
  {}

  lemma RaceAcknowledge()
    ensures Enabled(Racing(Held, {(1, 7)}, {}), StartErase(1), false)
    ensures Apply(Racing(Held, {(1, 7)}, {}), StartErase(1), false) == Racing(Erasing({}), {(1, 7)}, {})
    ensures Enabled(Racing(Erasing({}), {(1, 7)}, {}), Acknowledge(1), false)
    ensures Apply(Racing(Erasing({}), {(1, 7)}, {}), Acknowledge(1), false) == Racing(Removing, {(1, 7)}, {0})
    ensures Enabled(Racing(Removing, {(1, 7)}, {0}), Leave(1), false)
    ensures Apply(Racing(Removing, {(1, 7)}, {0}), Leave(1), false) == Unlocked({0})
  {}

  /** The owner goes on as if nothing had happened. */
  function Going(phase: OwnerPhase, registered: set<Token>, content: set<Name>): State {
    Unlocked({0}).(acts := map[0 := Owner(0, phase)], holds := {(0, 7)}, registered := registered,
                   dirs := map[0 := Directory(true, Some(7), content)])
  }

  lemma RaceWriting(name: Name)
    ensures Enabled(Unlocked({0}), Flock(0), false)
    ensures Apply(Unlocked({0}), Flock(0), false) == Going(Locked, {}, {})
    ensures Enabled(Going(Locked, {}, {}), Register(0, true, false), false)
    ensures Apply(Going(Locked, {}, {}), Register(0, true, false), false) == Going(Body, {0}, {})
    ensures Enabled(Going(Body, {0}, {}), Write(0, 0, name), false)
    ensures Apply(Going(Body, {0}, {}), Write(0, 0, name), false) == Going(Body, {0}, {name})
  {
    var s, s1, s2 := Unlocked({0}), Going(Locked, {}, {}), Going(Body, {0}, {});
    assert s.acts[0 := Owner(0, Locked)] == s1.acts && s.holds + {(0, 7)} == s1.holds && s.dirs == s1.dirs;
    assert s1.acts[0 := Owner(0, Body)] == s2.acts && s1.registered + {0} == s2.registered;
    assert {} + {name} == {name};
    assert s2.dirs[0 := s2.dirs[0].(content := {name})] == Going(Body, {0}, {name}).dirs;
  }

  /** A cleaner that opens the lock between mkdir and flock, acknowledges and then crashes
      leaves the owner free to write into an acknowledged directory. */
  lemma WindowRace(name: Name) returns (es: seq<Event>)
    ensures Possible(INIT, es, false)
    ensures var s := After(INIT, es, false); 0 in s.acked && 0 in s.dirs && s.dirs[0].content == {name}
  {
    hide Apply, Enabled;
    var opening := RaceOpening();
    var cleaning := RaceCleaning();
    Chain(INIT, opening, cleaning, false);
    RaceWriting(name);
    es := [];
    Then(Going(Body, {0}, {}), Write(0, 0, name), es, false); es := [Write(0, 0, name)] + es;
    Then(Going(Locked, {}, {}), Register(0, true, false), es, false); es := [Register(0, true, false)] + es;
    Then(Unlocked({0}), Flock(0), es, false); es := [Flock(0)] + es;
    assert After(Unlocked({0}), es, false) == Going(Body, {0}, {name});
    Chain(INIT, opening + cleaning, es, false);
    assert After(INIT, opening + cleaning + es, false) == Going(Body, {0}, {name});
    es := opening + cleaning + es;
  }
}
