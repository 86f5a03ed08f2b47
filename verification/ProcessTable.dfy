/** The process table of the host, as tools/local_stack_control.py sees it through `ps`, and the
    truth behind it: which process every process really descends from. */
module ProcessTable {

  type Pid = nat

  /** Start time and command line, taken as unique to one process and unchanging: the number of
      the process in the order of all forks. */
  type Identity = nat

  datatype Proc = Proc(parent: Pid, identity: Identity)

  /** `line` gives every process that ever lived its true ancestors and itself; `place` its pid;
      `born` are the processes forked since the last snapshot, `missed` those that also lost
      their parent before the next one. */
  datatype Os = Os(table: map<Pid, Proc>, next: Identity, line: map<Identity, set<Identity>>, place: map<Identity, Pid>,
                   born: set<Identity>, missed: set<Identity>)

  /** Every live process is where it is recorded to be, and a parent link that leads to a process
      other than the first leads to a true ancestor. */
  ghost predicate Sound(os: Os) {
    (forall p :: p in os.table ==> Placed(os, p) && Linked(os, p)) &&
    (forall i :: i in os.line ==> i < os.next && i in os.place && Lineage(os, i)) &&
    (forall i :: i in os.place ==> i in os.line) && (forall i :: i in os.missed ==> i < os.next)
  }

  ghost predicate Placed(os: Os, p: Pid)
    requires p in os.table
  {
    var i := os.table[p].identity;
    i in os.line && i in os.line[i] && i in os.place && os.place[i] == p && (p <= 1 ==> os.line[i] == {i})
  }

  /** Ancestors are older, and of two the older one is an ancestor of the other. */
  ghost predicate Lineage(os: Os, i: Identity)
    requires i in os.line
  {
    (forall a :: a in os.line[i] ==> a <= i && a in os.line) &&
    (forall a, b :: a in os.line[i] && b in os.line[i] && a < b ==> a in os.line[b])
  }

  ghost predicate Linked(os: Os, p: Pid)
    requires p in os.table
  {
    var q := os.table[p].parent;
    q > 1 ==> q in os.table && Below(os, os.table[q].identity, os.table[p].identity)
  }

  /** `a` is `i` or one of its ancestors. */
  ghost predicate Below(os: Os, a: Identity, i: Identity) {
    a in os.line && i in os.line && os.line[a] <= os.line[i]
  }

  // ---- what happens ----

  /** Process `q` forks a child with the free pid `p`, which may have been used before. */
  function Fork(os: Os, q: Pid, p: Pid): Os
    requires q in os.table && os.table[q].identity in os.line
  {
    os.(table := os.table[p := Proc(q, os.next)], next := os.next + 1,
        line := os.line[os.next := os.line[os.table[q].identity] + {os.next}], place := os.place[os.next := p],
        born := os.born + {os.next})
  }

  predicate CanFork(os: Os, q: Pid, p: Pid) {
    q in os.table && os.table[q].identity in os.line && p > 1 && p !in os.table
  }

  /** Process `p` ends; its children go to the first process or to an ancestor that adopts them. */
  function Exit(os: Os, p: Pid, heirs: map<Pid, Pid>): Os {
    os.(table := map c | c in os.table && c != p ::
                   if os.table[c].parent == p then os.table[c].(parent := Heir(heirs, c)) else os.table[c],
        missed := os.missed + set c | c in os.table && os.table[c].parent == p && os.table[c].identity in os.born ::
                   os.table[c].identity)
  }

  function Heir(heirs: map<Pid, Pid>, c: Pid): Pid { if c in heirs then heirs[c] else 1 }

  predicate CanAdopt(os: Os, p: Pid, c: Pid, h: Pid) {
    h <= 1 || (h in os.table && h != p && c in os.table && os.table[h].identity in os.line &&
      os.table[c].identity in os.line &&
               os.line[os.table[h].identity] < os.line[os.table[c].identity])
  }

  predicate CanExit(os: Os, p: Pid, heirs: map<Pid, Pid>) {
    p in os.table && forall c :: c in heirs ==> CanAdopt(os, p, c, heirs[c])
  }

  function Snapped(os: Os): Os { os.(born := {}) }

  predicate Alive(os: Os, p: Pid, i: Identity) { p in os.table && os.table[p].identity == i }

  /** `later` is the same host at a later time: what is known about a process stays, and nothing
      comes back to life. */
  ghost predicate Later(os: Os, later: Os) {
    os.next <= later.next && os.missed <= later.missed &&
    (forall i :: i in os.line ==> i in later.line && later.line[i] == os.line[i]) &&
    (forall i :: i in os.place ==> i in later.place && later.place[i] == os.place[i]) &&
    (forall p: Pid, i: Identity :: i < os.next && Alive(later, p, i) ==> Alive(os, p, i))
  }

  lemma ForkPlaces(os: Os, q: Pid, p: Pid, c: Pid)
    requires Sound(os) && CanFork(os, q, p) && c in Fork(os, q, p).table
    ensures Placed(Fork(os, q, p), c) && Linked(Fork(os, q, p), c)
  {
    hide Lineage;
    if c != p { assert Placed(os, c) && Linked(os, c); }
    assert Placed(os, q);
  }

  lemma ForkLineage(os: Os, q: Pid, p: Pid, i: Identity)
    requires Sound(os) && CanFork(os, q, p) && i in Fork(os, q, p).line
    ensures Lineage(Fork(os, q, p), i)
  {
    hide Linked;
    if i != os.next { assert Lineage(os, i); } else { assert Placed(os, q) && Lineage(os, os.table[q].identity); }
  }

  lemma ForkIsSound(os: Os, q: Pid, p: Pid)
    requires Sound(os) && CanFork(os, q, p)
    ensures Sound(Fork(os, q, p)) && Later(os, Fork(os, q, p))
  {
    hide Linked, Lineage;
    var os' := Fork(os, q, p);
    assert Placed(os, q);
    forall c | c in os'.table ensures Placed(os', c) && Linked(os', c) { ForkPlaces(os, q, p, c); }
    forall i | i in os'.line ensures Lineage(os', i) { ForkLineage(os, q, p, i); }
  }

  lemma ExitPlaces(os: Os, p: Pid, heirs: map<Pid, Pid>, c: Pid)
    requires Sound(os) && CanExit(os, p, heirs) && c in Exit(os, p, heirs).table
    ensures Placed(Exit(os, p, heirs), c) && Linked(Exit(os, p, heirs), c)
  {
    hide Lineage;
    assert Placed(os, c) && Linked(os, c);
    if os.table[c].parent == p && c in heirs { assert CanAdopt(os, p, c, heirs[c]); }
  }

  lemma ExitMisses(os: Os, p: Pid, heirs: map<Pid, Pid>)
    requires Sound(os)
    ensures forall m :: m in Exit(os, p, heirs).missed ==> m < os.next
  {
    hide Linked, Lineage;
    forall c | c in os.table ensures os.table[c].identity < os.next { assert Placed(os, c); }
  }

  lemma SameLineage(os: Os, os': Os)
    requires os'.line == os.line && forall i :: i in os.line ==> Lineage(os, i)
    ensures forall i :: i in os.line ==> Lineage(os', i)
  {
    forall i | i in os.line ensures Lineage(os', i) { assert Lineage(os, i); }
  }

  lemma ExitIsSound(os: Os, p: Pid, heirs: map<Pid, Pid>)
    requires Sound(os) && CanExit(os, p, heirs)
    ensures Sound(Exit(os, p, heirs)) && Later(os, Exit(os, p, heirs))
  {
    hide Placed, Linked, Lineage, CanAdopt;
    var os' := Exit(os, p, heirs);
    forall c | c in os'.table ensures Placed(os', c) && Linked(os', c) { ExitPlaces(os, p, heirs, c); }
    ExitMisses(os, p, heirs);
    SameLineage(os, os');
  }

  lemma LaterTwice(a: Os, b: Os, c: Os)
    requires Later(a, b) && Later(b, c)
    ensures Later(a, c)
  {}
}
