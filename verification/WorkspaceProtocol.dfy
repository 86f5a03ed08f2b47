/** The life of the directories of backend/services/processing_workspace.py as interleaved
    steps of owners, lock-inheriting children, cleaners and crashes. A cleaner is a process
    inside `cleanup_owned` or inside one iteration of `recover`. */
module WorkspaceProtocol {
  import opened Wrappers

  type Token = nat
  type Proc = nat
  type Inode = nat
  type Name = string

  /** One `wathiq-processing-<token>` directory; `content` is every entry but the two files. */
  datatype Directory = Directory(receipt: bool, lock: Option<Inode>, content: set<Name>)

  datatype OwnerPhase = Made | Receipted | LockMade(inode: Inode) | Locked | Body

  datatype CleanPhase = Opened | Held | Erasing(todo: set<Name>) | Removing

  datatype Activity =
    | Owner(token: Token, phase: OwnerPhase)
    | Child(tokens: set<Token>)
    | Cleaner(target: Token, inode: Inode, step: CleanPhase, recovering: bool)

  /** `holds` pairs a process with each lock file it keeps locked: a lock is free when no
      process is paired with it, because a child shares its parent's open lock file. */
  datatype State = State(
    dirs: map<Token, Directory>,
    home: map<Token, Inode>,
    holds: set<(Proc, Inode)>,
    acts: map<Proc, Activity>,
    tokens: set<Token>,
    inodes: set<Inode>,
    registered: set<Token>,
    acked: set<Token>)

  const INIT: State := State(map[], map[], {}, map[], {}, {}, {}, {})

  datatype Event =
    | Mkdir(p: Proc, t: Token)
    | WriteReceipt(p: Proc)
    | MakeLock(p: Proc, i: Inode)
    | Flock(p: Proc)
    | Register(p: Proc, took: bool, raises: bool)
    | Write(p: Proc, t: Token, name: Name)
    | Delete(p: Proc, t: Token, name: Name)
    | Fork(c: Proc, ts: set<Token>)
    | Leave(p: Proc)
    | OpenLock(p: Proc, t: Token, recovering: bool, i: Inode)
    | TryLock(p: Proc)
    | StartErase(p: Proc)
    | EraseEntry(p: Proc, name: Name)
    | Acknowledge(p: Proc)
    | RemoveReceipt(p: Proc)
    | RemoveLock(p: Proc)
    | RemoveDirectory(p: Proc)

  // ---- who is doing what ----

  predicate Uses(a: Activity, t: Token) {
    (a.Owner? && a.token == t) || (a.Child? && t in a.tokens)
  }

  /** Between mkdir and flock. */
  predicate InWindow(a: Activity, t: Token) {
    a.Owner? && a.token == t && (a.phase.Made? || a.phase.Receipted? || a.phase.LockMade?)
  }

  predicate Writer(a: Activity, t: Token) {
    (a.Owner? && a.token == t && a.phase.Body?) || (a.Child? && t in a.tokens)
  }

  /** No owner and no child will ever use the directory of `t` again. */
  predicate Dead(s: State, t: Token) { forall p :: p in s.acts ==> !Uses(s.acts[p], t) }

  predicate Created(s: State, t: Token) { forall p :: p in s.acts ==> !InWindow(s.acts[p], t) }

  predicate Writable(s: State, t: Token) { exists p :: p in s.acts && Writer(s.acts[p], t) }

  predicate Free(s: State, i: Inode) { forall h :: h in s.holds ==> h.1 != i }

  predicate OwnerIn(s: State, p: Proc, phase: OwnerPhase) {
    p in s.acts && s.acts[p].Owner? && s.acts[p].phase == phase
  }

  predicate CleanerIn(s: State, p: Proc) { p in s.acts && s.acts[p].Cleaner? }

  predicate RemovingIn(s: State, p: Proc) {
    CleanerIn(s, p) && s.acts[p].step.Removing? && s.acts[p].target in s.dirs
  }

  /** Which steps may happen. `guarded` says that no cleaner opens the lock of a directory
      whose living owner is still between mkdir and flock. */
  predicate Enabled(s: State, e: Event, guarded: bool) {
    match e
    case Mkdir(p, t) => p !in s.acts && t !in s.tokens
    case WriteReceipt(p) => OwnerIn(s, p, Made) && s.acts[p].token in s.dirs
    case MakeLock(p, i) =>
      OwnerIn(s, p, Receipted) && s.acts[p].token in s.dirs && s.dirs[s.acts[p].token].lock.None? && i !in s.inodes
    case Flock(p) => p in s.acts && s.acts[p].Owner? && s.acts[p].phase.LockMade? && Free(s, s.acts[p].phase.inode)
    case Register(p, took, raises) => OwnerIn(s, p, Locked) && (took || raises)
    case Write(p, t, _) => p in s.acts && Writer(s.acts[p], t) && t in s.dirs
    case Delete(p, t, _) => p in s.acts && Writer(s.acts[p], t) && t in s.dirs
    case Fork(c, ts) => c !in s.acts && forall t :: t in ts ==> Writable(s, t) && t in s.home
    case Leave(p) => p in s.acts
    case OpenLock(p, t, _, i) =>
      p !in s.acts && t in s.dirs && (guarded ==> Created(s, t)) &&
      (s.dirs[t].lock.None? ==> i !in s.inodes)
    case TryLock(p) => CleanerIn(s, p) && s.acts[p].step.Opened? && Free(s, s.acts[p].inode)
    case StartErase(p) =>
      CleanerIn(s, p) && s.acts[p].step.Held? && s.acts[p].target in s.dirs &&
      (s.acts[p].recovering ==> s.dirs[s.acts[p].target].receipt)
    case EraseEntry(p, name) =>
      CleanerIn(s, p) && s.acts[p].step.Erasing? && name in s.acts[p].step.todo && s.acts[p].target in s.dirs
    case Acknowledge(p) => CleanerIn(s, p) && s.acts[p].step.Erasing? && s.acts[p].step.todo == {}
    case RemoveReceipt(p) => RemovingIn(s, p)
    case RemoveLock(p) => RemovingIn(s, p)
    case RemoveDirectory(p) => RemovingIn(s, p) && s.dirs[s.acts[p].target] == Directory(false, None, {})
  }

  function Become(s: State, p: Proc, a: Activity): State { s.(acts := s.acts[p := a]) }

  /** The process ends, or goes on without its descriptors: every lock it kept is its no more. */
  function Gone(s: State, p: Proc): State {
    s.(acts := s.acts - {p}, holds := set h | h in s.holds && h.0 != p)
  }

  function SetDir(s: State, t: Token, d: Directory): State { s.(dirs := s.dirs[t := d]) }

  function Apply(s: State, e: Event, guarded: bool): State
    requires Enabled(s, e, guarded)
  {
    match e
    case Mkdir(p, t) =>
      Become(SetDir(s, t, Directory(false, None, {})), p, Owner(t, Made)).(tokens := s.tokens + {t})
    case WriteReceipt(p) =>
      var t := s.acts[p].token;
      Become(SetDir(s, t, s.dirs[t].(receipt := true)), p, Owner(t, Receipted))
    case MakeLock(p, i) =>
      var t := s.acts[p].token;
      Become(SetDir(s, t, s.dirs[t].(lock := Some(i))), p, Owner(t, LockMade(i)))
        .(home := s.home[t := i], inodes := s.inodes + {i})
    case Flock(p) =>
      Become(s, p, Owner(s.acts[p].token, Locked)).(holds := s.holds + {(p, s.acts[p].phase.inode)})
    case Register(p, took, raises) =>
      var t := s.acts[p].token;
      var next := if raises then Gone(s, p) else Become(s, p, Owner(t, Body));
      if took then next.(registered := s.registered + {t}) else next
    case Write(p, t, name) => SetDir(s, t, s.dirs[t].(content := s.dirs[t].content + {name}))
    case Delete(p, t, name) => SetDir(s, t, s.dirs[t].(content := s.dirs[t].content - {name}))
    case Fork(c, ts) => Become(s, c, Child(ts)).(holds := s.holds + set t | t in ts :: (c, s.home[t]))
    case Leave(p) => Gone(s, p)
    case OpenLock(p, t, recovering, i) =>
      (match s.dirs[t].lock
       case Some(j) => Become(s, p, Cleaner(t, j, Opened, recovering))
       case None =>
         Become(SetDir(s, t, s.dirs[t].(lock := Some(i))), p,
           Cleaner(t, i, Opened, recovering)).(inodes := s.inodes + {i}))
    case TryLock(p) =>
      Become(s, p, s.acts[p].(step := Held)).(holds := s.holds + {(p, s.acts[p].inode)})
    case StartErase(p) => Become(s, p, s.acts[p].(step := Erasing(s.dirs[s.acts[p].target].content)))
    case EraseEntry(p, name) =>
      var t := s.acts[p].target;
      Become(SetDir(s, t, s.dirs[t].(content := s.dirs[t].content - {name})), p,
             s.acts[p].(step := Erasing(s.acts[p].step.todo - {name})))
    case Acknowledge(p) =>
      Become(s, p, s.acts[p].(step := Removing)).(acked := s.acked + {s.acts[p].target})
    case RemoveReceipt(p) => SetDir(s, s.acts[p].target, s.dirs[s.acts[p].target].(receipt := false))
    case RemoveLock(p) => SetDir(s, s.acts[p].target, s.dirs[s.acts[p].target].(lock := None))
    case RemoveDirectory(p) => s.(dirs := s.dirs - {s.acts[p].target})
  }

  /** `es` is a possible history from `s`. */
  predicate Possible(s: State, es: seq<Event>, guarded: bool)
    decreases |es|
  {
    es == [] || (Enabled(s, es[0], guarded) && Possible(Apply(s, es[0], guarded), es[1..], guarded))
  }

  function After(s: State, es: seq<Event>, guarded: bool): State
    requires Possible(s, es, guarded)
    decreases |es|
  {
    if es == [] then s else After(Apply(s, es[0], guarded), es[1..], guarded)
  }

  // ---- the invariant ----

  /** An owner past flock, or a child, has the first lock file of its directory still in place. */
  ghost predicate UsersInPlace(s: State) {
    forall p, t :: p in s.acts && Uses(s.acts[p], t) && !InWindow(s.acts[p], t) ==>
      t in s.home && t in s.dirs && s.dirs[t].receipt && s.dirs[t].lock == Some(s.home[t])
  }

  /** And keeps that file locked. */
  ghost predicate UsersHoldLocks(s: State) {
    forall p, t :: p in s.acts && Uses(s.acts[p], t) && !InWindow(s.acts[p], t) ==>
      t in s.home && (p, s.home[t]) in s.holds
  }

  ghost predicate WritersRegistered(s: State) {
    forall p, t :: p in s.acts && Writer(s.acts[p], t) ==> t in s.registered
  }

  /** A directory being created is empty, in the state its owner left it. */
  ghost predicate WindowPrivate(s: State) {
    forall p, t :: p in s.acts && InWindow(s.acts[p], t) ==>
      t in s.dirs && s.dirs[t].content == {} && t !in s.acked &&
      (s.acts[p].phase.Made? ==> s.dirs[t].lock == None) &&
      (s.acts[p].phase.Receipted? ==> s.dirs[t].receipt && s.dirs[t].lock == None) &&
      (s.acts[p].phase.LockMade? ==>
         s.dirs[t].receipt && t in s.home && s.home[t] == s.acts[p].phase.inode && s.dirs[t].lock == Some(s.home[t]))
  }

  /** No one else is concerned with a directory that is being created. */
  ghost predicate WindowSole(s: State) {
    forall p, q, t :: p in s.acts && q in s.acts && p != q && InWindow(s.acts[p], t) ==>
      !Uses(s.acts[q], t) && !(s.acts[q].Cleaner? && s.acts[q].target == t)
  }

  /** A cleaner that has the lock has a directory no one else can use any more. */
  ghost predicate CleanersAlone(s: State) {
    forall p :: CleanerIn(s, p) ==>
      var a := s.acts[p];
      (a.target in s.home && a.inode == s.home[a.target]) || Dead(s, a.target)
  }

  ghost predicate HeldMeansDead(s: State) {
    forall p :: CleanerIn(s, p) && !s.acts[p].step.Opened? ==>
      var a := s.acts[p];
      Dead(s, a.target) &&
      (a.step.Erasing? && a.target in s.dirs ==> s.dirs[a.target].content <= a.step.todo) &&
      (a.step.Removing? ==> a.target in s.acked)
  }

  ghost predicate AckedEmpty(s: State) {
    forall t :: t in s.acked ==> Dead(s, t) && (t in s.dirs ==> s.dirs[t].content == {})
  }

  ghost predicate ContentCovered(s: State) {
    forall t :: t in s.dirs && s.dirs[t].content != {} ==> s.dirs[t].receipt && t in s.registered
  }

  ghost predicate KnownTokens(s: State) {
    s.dirs.Keys <= s.tokens && s.home.Keys <= s.tokens && s.acked <= s.tokens &&
    (forall p, t :: p in s.acts && Uses(s.acts[p], t) ==> t in s.tokens) &&
    (forall p :: CleanerIn(s, p) ==> s.acts[p].target in s.tokens)
  }

  ghost predicate HoldersLive(s: State) { forall h :: h in s.holds ==> h.0 in s.acts }

  ghost predicate Inv(s: State) {
    UsersInPlace(s) && UsersHoldLocks(s) && WritersRegistered(s) && WindowPrivate(s) && WindowSole(s) &&
    CleanersAlone(s) && HeldMeansDead(s) &&
    AckedEmpty(s) && ContentCovered(s) && KnownTokens(s) && HoldersLive(s)
  }
}
