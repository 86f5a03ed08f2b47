/** `owned_tree` of tools/local_stack_control.py: the recorded roots that still run, and everything
    below them by parent links. */
module ProcessTree {
  import opened Wrappers
  import opened ProcessTable

  /** A recorded process; what was recorded may lack an identity. */
  datatype Record = Record(pid: int, identity: Option<Identity>)

  predicate Matches(table: map<Pid, Proc>, r: Record) {
    r.identity.Some? && r.pid > 1 && r.pid in table && table[r.pid].identity == r.identity.value
  }

  /** A way down by parent links, inside the table, from a process that was recorded with its identity. */
  ghost predicate Path(table: map<Pid, Proc>, records: set<Record>, path: seq<Pid>) {
    path != [] && path[0] > 1 && path[0] in table && Record(path[0], Some(table[path[0]].identity)) in records &&
    forall k :: 0 < k < |path| ==> path[k] > 1 && path[k] in table && table[path[k]].parent == path[k - 1]
  }

  ghost predicate Owned(table: map<Pid, Proc>, records: set<Record>, p: Pid) {
    exists path :: Path(table, records, path) && path[|path| - 1] == p
  }

  lemma RootIsOwned(table: map<Pid, Proc>, records: set<Record>, r: Record)
    requires r in records && Matches(table, r)
    ensures Owned(table, records, r.pid)
  {
    assert Path(table, records, [r.pid]);
  }

  lemma ChildIsOwned(table: map<Pid, Proc>, records: set<Record>, p: Pid)
    requires p in table && p > 1 && Owned(table, records, table[p].parent)
    ensures Owned(table, records, p)
  {
    var path :| Path(table, records, path) && path[|path| - 1] == table[p].parent;
    assert Path(table, records, path + [p]);
  }

  /** A set that holds the running roots and the children of its members holds all that is owned. */
  lemma {:induction false} PathStaysInside(table: map<Pid, Proc>, records: set<Record>, inside: set<Pid>,
      path: seq<Pid>)
    requires Path(table, records, path)
    requires forall r :: r in records && Matches(table, r) ==> r.pid in inside
    requires forall p :: p in table && p > 1 && table[p].parent in inside ==> p in inside
    ensures path[|path| - 1] in inside
    decreases |path|
  {
    if |path| > 1 {
      PathStaysInside(table, records, inside, path[..|path| - 1]);
    }
  }

  function Roots(table: map<Pid, Proc>, records: set<Record>): map<Pid, Proc> {
    map r | r in records && Matches(table, r) :: r.pid := table[r.pid]
  }

  function Children(table: map<Pid, Proc>, owned: map<Pid, Proc>): map<Pid, Proc> {
    map p | p in table && p > 1 && p !in owned && table[p].parent in owned :: table[p]
  }

  /** All roots are there, and nothing that is not owned. */
  ghost predicate SoFar(table: map<Pid, Proc>, records: set<Record>, owned: map<Pid, Proc>) {
    (forall p :: p in owned ==> p > 1 && p in table && owned[p] == table[p] && Owned(table, records, p)) &&
    (forall r :: r in records && Matches(table, r) ==> r.pid in owned)
  }

  lemma RootsAreOwned(table: map<Pid, Proc>, records: set<Record>)
    ensures SoFar(table, records, Roots(table, records))
  {
    var owned := Roots(table, records);
    forall p | p in owned ensures p > 1 && Owned(table, records, p) {
      var r :| r in records && Matches(table, r) && r.pid == p;
      RootIsOwned(table, records, r);
    }
  }

  lemma ChildrenAreOwned(table: map<Pid, Proc>, records: set<Record>, owned: map<Pid, Proc>)
    requires SoFar(table, records, owned)
    ensures SoFar(table, records, owned + Children(table, owned))
  {
    hide Owned, Path, Matches;
    var more := Children(table, owned);
    forall p | p in more ensures Owned(table, records, p) {
      assert p in table && p > 1 && Owned(table, records, table[p].parent);
      ChildIsOwned(table, records, p);
    }
  }

  lemma NoMoreChildren(table: map<Pid, Proc>, records: set<Record>, owned: map<Pid, Proc>)
    requires SoFar(table, records, owned) && Children(table, owned).Keys == {}
    ensures forall p :: p in owned <==> Owned(table, records, p)
    ensures forall p :: p in table && p > 1 && table[p].parent in owned ==> p in owned
  {
    forall p | p in table && p > 1 && table[p].parent in owned ensures p in owned {
      assert p in owned || p in Children(table, owned).Keys;
    }
    forall p | Owned(table, records, p) ensures p in owned {
      var path :| Path(table, records, path) && path[|path| - 1] == p;
      PathStaysInside(table, records, owned.Keys, path);
    }
  }

  /** The snapshot. The order of the answer is left open. */
  method OwnedTree(table: map<Pid, Proc>, records: set<Record>) returns (owned: map<Pid, Proc>)
    ensures forall p :: p in owned <==> Owned(table, records, p)
    ensures forall p :: p in owned ==> p > 1 && p in table && owned[p] == table[p]
    ensures forall p :: p in table && p > 1 && table[p].parent in owned ==> p in owned
  {
    hide Owned, Matches;
    owned := Roots(table, records);
    RootsAreOwned(table, records);
    var children := Children(table, owned);
    while children.Keys != {}
      invariant SoFar(table, records, owned) && children == Children(table, owned)
      decreases table.Keys - owned.Keys
    {
      var p :| p in children.Keys;
      assert p in table.Keys - owned.Keys;
      ChildrenAreOwned(table, records, owned);
      owned := owned + children;
      children := Children(table, owned);
    }
    NoMoreChildren(table, records, owned);
  }
}
