/** Building and applying the plan of tools/backfill_hierarchical_oversight_acls.py, statement by
    statement on a database. Rows that the source orders are taken here in any order. */
module AclBackfill {
  import opened AclPlan
  import opened Texts

  datatype Planned = PermissionsMissing | Ready(plan: Plan)

  datatype Outcome = NoReason | Unplannable | Stale | Conflicting | Unguarded | PostconditionsFailed | Applied

  predicate Reason(text: string) { exists c :: c in text && !IsSpace(c) }

  /** Each of them once. */
  ghost predicate Lists(order: seq<GrantId>, ids: set<GrantId>) {
    (forall g :: g in ids <==> g in order) && forall i, j :: 0 <= i < j < |order| ==> order[i] != order[j]
  }

  /** What the history says about deleted grants. */
  function Notes(s: Scope, t: Table, order: seq<GrantId>): seq<Event>
    requires forall g :: g in order ==> g in t
  {
    seq(|order|, i requires 0 <= i < |order| => Event.Delete(s, t[order[i]].principal))
  }

  lemma NothingListed()
    ensures Lists([], {})
  {}

  lemma OneNoted(s: Scope, t: Table, order: seq<GrantId>, ids: set<GrantId>, g: GrantId)
    requires Lists(order, ids) && (forall h :: h in order ==> h in t) && g in t && g !in ids
    ensures Lists(order + [g], ids + {g}) &&
      Notes(s, t, order + [g]) == Notes(s, t, order) + [Event.Delete(s, t[g].principal)]
  {}

  /** How often the history says that a list of a resource was replaced. */
  function Noted(h: seq<Event>, kind: Kind, id: Id, s: Scope): nat { multiset(h)[AclReplaced(kind, id, s)] }

  function One(b: bool): nat { if b then 1 else 0 }

  function CounterOf(r: Resource, s: Scope): nat { if s in r.counters then r.counters[s] else 0 }

  lemma NotedMore(h: seq<Event>, e: Event)
    ensures forall kind, id, s ::
      Noted(h + [e], kind, id, s) == Noted(h, kind, id, s) + One(e == AclReplaced(kind, id, s))
  {
    forall kind, id, s
      ensures Noted(h + [e], kind, id, s) == Noted(h, kind, id, s) + One(e == AclReplaced(kind, id, s))
    {
      assert multiset(h + [e]) == multiset(h) + multiset{e};
    }
  }

  /** The history got one note for each resource that the first `n` scopes of the plan change. */
  ghost predicate NotedBy(h: seq<Event>, h': seq<Event>, db: Db, n: nat)
    requires |db.tables| == 4
  {
    forall kind, id, s: Scope ::
      Noted(h', kind, id, s) == Noted(h, kind, id, s) + One(s < n && kind == Owner(s) && id in PlanScope(db, s).changed)
  }

  lemma NothingNoted(h: seq<Event>, h': seq<Event>, db: Db, n: nat)
    requires |db.tables| == 4 && n == 0 && h' == h
    ensures NotedBy(h, h', db, n)
  {
    hide Noted, PlanScope;
  }

  lemma NotedNext(h: seq<Event>, h1: seq<Event>, h2: seq<Event>, db: Db, i: Scope)
    requires |db.tables| == 4 && NotedBy(h, h1, db, i)
    requires forall kind, id, j ::
      Noted(h2, kind, id, j) == Noted(h1, kind, id, j) +
        One(j == i && kind == Owner(i) && id in PlanScope(db, i).changed)
    ensures NotedBy(h, h2, db, i + 1)
  {
    hide PlanScope, Noted;
    forall kind, id, s: Scope
      ensures Noted(h2, kind, id, s) ==
        Noted(h, kind, id, s) + One(s < i + 1 && kind == Owner(s) && id in PlanScope(db, s).changed)
    {
      assert Noted(h1, kind, id, s) ==
        Noted(h, kind, id, s) + One(s < i && kind == Owner(s) && id in PlanScope(db, s).changed);
      assert Noted(h2, kind, id, s) ==
        Noted(h1, kind, id, s) + One(s == i && kind == Owner(i) && id in PlanScope(db, i).changed);
    }
  }

  /** Version and counters of a resource count the lists of it on which a grant appeared or went. */
  ghost predicate Revised(r: Resource, r': Resource, key: (Kind, Id), t: seq<Table>, t': seq<Table>)
    requires |t| == |t'| == 4
  {
    r'.version == r.version +
      (if key.0 == Record then One(Touched(t[3], t'[3], key.1))
       else One(Touched(t[0], t'[0], key.1)) + One(Touched(t[1], t'[1], key.1)) + One(Touched(t[2], t'[2], key.1))) &&
    forall s: Scope :: CounterOf(r', s) ==
      CounterOf(r, s) + One(key.0 == (if s == 3 then Record else Aggregation) && Touched(t[s], t'[s], key.1))
  }

  lemma BumpedIs(r: Resource, key: (Kind, Id), scopes: seq<ScopePlan>)
    requires |scopes| == 4
    ensures var r' := Bumped(r, key, scopes, 4);
      r'.version == r.version +
        (if key.0 == Record then One(key.1 in scopes[3].changed)
         else One(key.1 in scopes[0].changed) + One(key.1 in scopes[1].changed) + One(key.1 in scopes[2].changed)) &&
      forall s: Scope :: CounterOf(r', s) == CounterOf(r, s) + One(key.0 == Owner(s) && key.1 in scopes[s].changed)
  {
    BumpedOnce(r, key, scopes, 1);
    BumpedOnce(r, key, scopes, 2);
    BumpedOnce(r, key, scopes, 3);
    BumpedOnce(r, key, scopes, 4);
  }

  lemma BumpedOnce(r: Resource, key: (Kind, Id), scopes: seq<ScopePlan>, n: nat)
    requires 0 < n <= 4 == |scopes|
    ensures var before, after := Bumped(r, key, scopes, n - 1), Bumped(r, key, scopes, n);
      var s := n - 1;
      after.version == before.version + One(key.0 == Owner(s) && key.1 in scopes[s].changed) &&
      forall j: Scope ::
        CounterOf(after, j) == CounterOf(before, j) + One(j == s && key.0 == Owner(s) && key.1 in scopes[s].changed)
  {}

  /** What an applied plan did, without the plan. */
  lemma AppliedByFields(db: Db, db': Db)
    requires Follows(db, db') && NotedBy(db.history, db'.history, db, 4)
    requires forall key :: key in db.resources ==>
      key in db'.resources && db'.resources[key] == Bumped(db.resources[key], key, PlanOf(db).scopes, 4)
    ensures forall s: Scope :: Corrected(db, s, db.tables[s], db'.tables[s])
    ensures forall key :: key in db.resources ==>
      Revised(db.resources[key], db'.resources[key], key, db.tables, db'.tables)
    ensures forall kind, id, s: Scope ::
      Noted(db'.history, kind, id, s) == Noted(db.history, kind, id, s) +
        One(kind == (if s == 3 then Record else Aggregation) && Touched(db.tables[s], db'.tables[s], id))
  {
    hide Corrected, PlanScope, ConflictsOf, ContextualRemoved, TableFollows, HistoryFollows, Noted, Bumped,
      Touched, CounterOf;
    forall s: Scope ensures Corrected(db, s, db.tables[s], db'.tables[s]) {
      FollowsIsCorrected(db, s, db'.tables[s]);
    }
    forall s: Scope, id ensures id in PlanScope(db, s).changed <==> Touched(db.tables[s], db'.tables[s], id) {
      ChangedIsTouched(db, s, db'.tables[s], id);
    }
    forall s: Scope ensures PlanOf(db).scopes[s] == PlanScope(db, s) {}
    forall key | key in db.resources
      ensures Revised(db.resources[key], db'.resources[key], key, db.tables, db'.tables)
    {
      BumpedIs(db.resources[key], key, PlanOf(db).scopes);
    }
  }

  class Database {
    var tables: seq<Table>
    var resources: map<(Kind, Id), Resource>
    var history: seq<Event>
    /** No grant has this id or a higher one. */
    var next: GrantId
    const permissions: set<Code>
    /** Whether both guards for closed resources are switched on. */
    const guarded: bool

    constructor (tables: seq<Table>, resources: map<(Kind, Id), Resource>, history: seq<Event>, next: GrantId,
                 permissions: set<Code>, guarded: bool)
      requires |tables| == 4 && forall s: Scope, g :: g in tables[s] ==> g < next
      ensures Valid() && State() == Db(tables, resources, history, permissions) && this.guarded == guarded
    {
      this.tables, this.resources, this.history, this.next := tables, resources, history, next;
      this.permissions, this.guarded := permissions, guarded;
    }

    predicate Valid()
      reads this
    {
      |tables| == 4 && forall s: Scope, g :: g in tables[s] ==> g < next
    }

    function State(): Db
      reads this
    {
      Db(tables, resources, history, permissions)
    }

    /** One pass over the grants of a table, one over its resources. */
    method BuildScope(s: Scope) returns (sp: ScopePlan, conflicts: set<Conflict>)
      requires Valid()
      ensures sp == PlanScope(State(), s) && conflicts == ConflictsOf(State(), s)
    {
      hide Codes, Missing, Customs, Incomplete, Removed, Unknown, PresentIn, IsCustom, CreatorGrant, UnknownCreator;
      var t := tables[s];
      var existing: map<(Id, Principal), set<Code>>, remove;
      existing, remove, conflicts := ReadGrants(s);
      var add: set<Addition>, changed := {}, ResourcesOf(t, remove);
      var unknown, rs := conflicts, Owners(State(), s);
      var todo := rs;
      NoResources(t, s);
      assert rs - todo == {};
      while todo != {}
        invariant todo <= rs
        invariant add == Missing(t, Subject(s), rs - todo)
        invariant changed == ResourcesOf(t, remove) + Incomplete(t, rs - todo)
        invariant conflicts == unknown + Customs(t, s, rs - todo)
      {
        var r :| r in todo;
        var managers, admins := Lookup(existing, (r, Managers)), Lookup(existing, (r, FileAdmin));
        OneResource(t, s, rs - todo, r);
        if managers != {} && managers != Codes(Subject(s), Managers) {
          conflicts := conflicts + {Custom(s, r, Managers)};
        } else if managers == {} {
          add, changed := add + MissingFor(t, Subject(s), r, Managers), changed + {r};
        }
        if admins != {} && admins != Codes(Subject(s), FileAdmin) {
          conflicts := conflicts + {Custom(s, r, FileAdmin)};
        } else if admins == {} {
          add, changed := add + MissingFor(t, Subject(s), r, FileAdmin), changed + {r};
        }
        assert rs - (todo - {r}) == rs - todo + {r};
        todo := todo - {r};
      }
      assert rs - todo == rs;
      sp := ScopePlan(add, remove, changed);
    }

    /** What each principal has, which creator grants go, and which have no known creator. */
    method ReadGrants(s: Scope)
      returns (existing: map<(Id, Principal), set<Code>>, remove: set<GrantId>, conflicts: set<Conflict>)
      requires Valid()
      ensures forall r, p :: Lookup(existing, (r, p)) == Present(tables[s], r, p)
      ensures remove == Removed(State(), s, tables[s].Keys) && conflicts == Unknown(State(), s, tables[s].Keys)
    {
      hide PresentIn, Removed, Unknown, Creator, Identifiable, Decimal, Lookup;
      var t := tables[s];
      existing, remove, conflicts := map[], {}, {};
      var todo := t.Keys;
      NoGrants(State(), s);
      assert t.Keys - todo == {};
      while todo != {}
        invariant todo <= t.Keys
        invariant forall r, p :: Lookup(existing, (r, p)) == PresentIn(t, t.Keys - todo, r, p)
        invariant remove == Removed(State(), s, t.Keys - todo) && conflicts == Unknown(State(), s, t.Keys - todo)
      {
        var g :| g in todo;
        var grant := t[g];
        OneGrant(State(), s, t.Keys - todo, g, existing);
        var key := (grant.resource, grant.principal);
        existing := existing[key := Lookup(existing, key) + {grant.code}];
        if ManagesByRole(s, grant) {
          var creator := Creator(history, Owner(s), grant.resource);
          if !Identifiable(creator) {
            conflicts := conflicts + {CreatorUnknown(s, g)};
          } else if Decimal(grant.principal.role) == creator {
            remove := remove + {g};
          }
        }
        assert t.Keys - (todo - {g}) == t.Keys - todo + {g};
        todo := todo - {g};
      }
      assert t.Keys - todo == t.Keys;
    }

    /** `build_plan`. */
    method BuildPlan() returns (r: Planned)
      requires Valid()
      ensures r == if Required() <= permissions then Ready(PlanOf(State())) else PermissionsMissing
    {
      hide Codes, PlanScope, ConflictsOf, ContextualRemoved;
      if !(Required() <= permissions) { return PermissionsMissing; }
      var conflicts := if ContextualRemoved(history) then {PreviouslyRemoved} else {};
      var p0, c0 := BuildScope(0);
      var p1, c1 := BuildScope(1);
      var p2, c2 := BuildScope(2);
      var p3, c3 := BuildScope(3);
      r := Ready(Plan((tables, resources), [p0, p1, p2, p3], conflicts + c0 + c1 + c2 + c3));
    }

    /** The deletion; the history trigger notes every deleted grant, in the order of deletion. */
    method Delete(s: Scope, ids: set<GrantId>) returns (ghost order: seq<GrantId>)
      requires Valid() && forall g :: g in ids ==> g in tables[s] && tables[s][g].principal.Role?
      modifies `tables, `history
      ensures Valid() && tables == old(tables)[s := old(tables[s]) - ids] && HistoryFollows(old(history), history)
      ensures Lists(order, ids) && history == old(history) + Notes(s, old(tables[s]), order)
      ensures forall kind, id, j :: Noted(history, kind, id, j) == Noted(old(history), kind, id, j)
    {
      hide HistoryFollows, Lists, Noted;
      SameHistory(history);
      var todo := ids;
      order := [];
      NothingListed();
      assert ids - todo == {} && history == old(history) + Notes(s, old(tables[s]), order);
      while todo != {}
        invariant todo <= ids && tables == old(tables) && HistoryFollows(old(history), history)
        invariant Lists(order, ids - todo) && (forall g :: g in order ==> g in tables[s])
        invariant history == old(history) + Notes(s, tables[s], order)
        invariant forall kind, id, j :: Noted(history, kind, id, j) == Noted(old(history), kind, id, j)
      {
        var g :| g in todo;
        MoreHistory(old(history), history, Event.Delete(s, tables[s][g].principal));
        OneNoted(s, tables[s], order, ids - todo, g);
        NotedMore(history, Event.Delete(s, tables[s][g].principal));
        history := history + [Event.Delete(s, tables[s][g].principal)];
        assert ids - (todo - {g}) == ids - todo + {g};
        order, todo := order + [g], todo - {g};
      }
      assert ids - todo == ids;
      tables := tables[s := tables[s] - ids];
    }

    /** The insertions, one after the other, each under a new id. */
    method Insert(s: Scope, add: set<Addition>)
      requires Valid()
      modifies `tables, `history, `next
      ensures Valid() && HistoryFollows(old(history), history)
      ensures |tables| == 4 && Inserted(old(tables[s]), tables[s], old(next), next, add)
      ensures forall j: Scope :: j != s ==> tables[j] == old(tables)[j]
      ensures forall kind, id, j :: Noted(history, kind, id, j) == Noted(old(history), kind, id, j)
    {
      hide HistoryFollows, Inserted, Noted;
      SameHistory(history);
      NothingInserted(tables[s], next);
      var todo := add;
      assert add - todo == {};
      while todo != {}
        invariant todo <= add && Valid() && HistoryFollows(old(history), history) && next >= old(next)
        invariant Inserted(old(tables[s]), tables[s], old(next), next, add - todo)
        invariant forall j: Scope :: j != s ==> tables[j] == old(tables)[j]
        invariant forall kind, id, j :: Noted(history, kind, id, j) == Noted(old(history), kind, id, j)
      {
        var a :| a in todo;
        NotedMore(history, Unrelated);
        MoreHistory(old(history), history, Unrelated);
        OneInserted(old(tables[s]), tables[s], old(next), next, add - todo, a);
        tables := tables[s := tables[s][next := Grant(a.resource, a.principal, a.code)]];
        next, history := next + 1, history + [Unrelated];
        assert add - (todo - {a}) == add - todo + {a};
        todo := todo - {a};
      }
      assert add - todo == add;
    }

    /** The counters and versions, and a note in the history for every changed resource. */
    method Touch(s: Scope, changed: set<Id>)
      requires Valid()
      modifies `resources, `history
      ensures Valid() && HistoryFollows(old(history), history)
      ensures ResourcesFollow(old(resources), resources, s, ScopePlan({}, {}, changed))
      ensures forall kind, id, j ::
        Noted(history, kind, id, j) == Noted(old(history), kind, id, j) +
          One(j == s && kind == Owner(s) && id in changed)
    {
      hide HistoryFollows, Noted;
      SameHistory(history);
      resources := map key | key in resources ::
        if key.0 == Owner(s) && key.1 in changed then Bump(resources[key], s) else resources[key];
      ghost var touched := resources;
      var todo := changed;
      while todo != {}
        invariant todo <= changed && HistoryFollows(old(history), history) && resources == touched
        invariant forall kind, id, j ::
          Noted(history, kind, id, j) ==
          Noted(old(history), kind, id, j) + One(j == s && kind == Owner(s) && id in changed - todo)
      {
        var r :| r in todo;
        NotedMore(history, AclReplaced(Owner(s), r, s));
        MoreHistory(old(history), history, AclReplaced(Owner(s), r, s));
        history := history + [AclReplaced(Owner(s), r, s)];
        todo := todo - {r};
      }
    }

    /** One turn of the loop of `apply_plan`. */
    method ApplyScope(s: Scope, sp: ScopePlan)
      requires Valid() && forall g :: g in sp.remove ==> g in tables[s] && tables[s][g].principal.Role?
      modifies `tables, `resources, `history, `next
      ensures Valid() && HistoryFollows(old(history), history) && TableFollows(old(tables[s]), tables[s], sp)
      ensures forall j: Scope :: j != s ==> tables[j] == old(tables)[j]
      ensures ResourcesFollow(old(resources), resources, s, sp)
      ensures forall kind, id, j ::
        Noted(history, kind, id, j) == Noted(old(history), kind, id, j) +
          One(j == s && kind == Owner(s) && id in sp.changed)
    {
      hide HistoryFollows, Inserted, TableFollows, ResourcesFollow, Noted, One;
      ghost var t, n, h := tables[s], next, history;
      ghost var order := Delete(s, sp.remove);
      ghost var h1, t1 := history, tables[s];
      Insert(s, sp.add);
      InsertedFollows(t, t1, tables[s], n, next, sp);
      ghost var h2 := history;
      HistoryTwice(h, h1, h2);
      ghost var rs := resources;
      Touch(s, sp.changed);
      HistoryTwice(h, h2, history);
      SameTouched(rs, resources, s, sp);
    }

    /** `apply_plan`. It changes nothing unless it succeeds, and its final check never fails. */
    method ApplyPlan(plan: Plan, reason: string) returns (r: Outcome)
      requires Valid()
      modifies this
      ensures Valid() && r != PostconditionsFailed
      ensures r.Applied? <==>
        (exists c :: c in reason && !IsSpace(c)) && Required() <= permissions && plan == old(PlanOf(State())) &&
          plan.conflicts == {} && guarded
      ensures r.Applied? ==> plan.before == (old(tables), old(resources))
      ensures r.Applied? ==> NothingToReview(old(State())) && forall k, p :: Codes(k, p) <= permissions
      ensures !r.Applied? ==> State() == old(State())
      ensures r.Applied? ==> forall s: Scope :: Corrected(old(State()), s, old(tables)[s], tables[s])
      ensures r.Applied? ==> resources.Keys == old(resources).Keys
      ensures r.Applied? ==> forall key :: key in resources ==>
        Revised(old(resources)[key], resources[key], key, old(tables), tables)
      ensures r.Applied? ==> forall kind, id, s: Scope ::
        Noted(history, kind, id, s) == Noted(old(history), kind, id, s) +
          One(kind == (if s == 3 then Record else Aggregation) && Touched(old(tables)[s], tables[s], id))
      ensures r.Applied? ==> Follows(old(State()), State())
      ensures r.Applied? ==>
        PlanOf(State()).conflicts == {} &&
        forall s: Scope :: PlanScope(State(), s).add == {} && PlanScope(State(), s).remove == {}
      ensures r.Applied? ==> forall key :: key in old(resources) ==>
        resources[key] == Bumped(old(resources[key]), key, plan.scopes, 4)
    {
      hide Codes, PlanScope, ConflictsOf, ContextualRemoved, TableFollows, HistoryFollows, NotedBy, Noted,
        NothingToReview, Corrected, Revised, Touched, Bumped, NothingToDo;
      if !Reason(reason) { return NoReason; }
      var current := BuildPlan();
      if current.PermissionsMissing? { return Unplannable; }
      if current.plan != plan { return Stale; }
      if plan.conflicts != {} { return Conflicting; }
      if !guarded { return Unguarded; }
      ghost var db := State();
      ApplyScopes(plan);
      ReplanIsEmpty(db, State());
      NoConflicts(db);
      RequiredIsAll(permissions);
      AppliedByFields(db, State());
      var after := BuildPlan();
      r := if NothingToDo(after.plan) then Applied else PostconditionsFailed;
    }

    method ApplyScopes(plan: Plan)
      requires Valid() && plan == PlanOf(State())
      modifies `tables, `resources, `history, `next
      ensures Valid() && Follows(old(State()), State())
      ensures forall key :: key in old(resources) ==> resources[key] == Bumped(old(resources[key]), key, plan.scopes, 4)
      ensures NotedBy(old(history), history, old(State()), 4)
    {
      hide NotedBy, Noted, Codes, ConflictsOf, ContextualRemoved, TableFollows, HistoryFollows, PlanScope, Bump;
      ghost var db := State();
      SameHistory(history);
      NothingNoted(history, history, db, 0);
      var i := 0;
      while i < 4
        invariant i <= 4 && Valid() && HistoryFollows(db.history, history)
        invariant forall s: Scope ::
          if s < i then TableFollows(db.tables[s], tables[s], PlanScope(db, s)) else tables[s] == db.tables[s]
        invariant resources.Keys == db.resources.Keys
        invariant forall key :: key in db.resources ==> resources[key] == Bumped(db.resources[key], key, plan.scopes, i)
        invariant NotedBy(db.history, history, db, i)
      {
        ghost var h, rs := history, resources;
        assert plan.scopes[i] == PlanScope(db, i);
        PlannedRemovals(db, i);
        ApplyScope(i, plan.scopes[i]);
        HistoryTwice(db.history, h, history);
        NotedNext(db.history, h, history, db, i);
        i := i + 1;
      }
    }
  }

  /** The resource after the first `n` scopes of a plan. */
  function Bumped(r: Resource, key: (Kind, Id), scopes: seq<ScopePlan>, n: nat): Resource
    requires n <= |scopes| && n <= 4
  {
    if n == 0 then r
    else
      var before := Bumped(r, key, scopes, n - 1);
      if key.0 == Owner(n - 1) && key.1 in scopes[n - 1].changed then Bump(before, n - 1) else before
  }

  ghost predicate Inserted(t: Table, t': Table, n: GrantId, n': GrantId, add: set<Addition>) {
    (forall g :: g in t ==> g in t' && t'[g] == t[g]) &&
    (forall g :: g in t' && g !in t ==> n <= g < n' && Addition(t'[g].resource, t'[g].principal, t'[g].code) in add) &&
    (forall a :: a in add ==> exists g :: Holds(t, t', g, a)) &&
    (forall g, h :: g in t' && h in t' && g !in t && h !in t && t'[g] == t'[h] ==> g == h)
  }

  lemma NothingInserted(t: Table, n: GrantId)
    ensures Inserted(t, t, n, n, {})
  {}

  lemma OneInserted(t: Table, t': Table, n: GrantId, n': GrantId, add: set<Addition>, a: Addition)
    requires Inserted(t, t', n, n', add) && a !in add && n <= n' && n' !in t && n' !in t'
    ensures Inserted(t, t'[n' := Grant(a.resource, a.principal, a.code)], n, n' + 1, add + {a})
  {
    var t'' := t'[n' := Grant(a.resource, a.principal, a.code)];
    forall b | b in add + {a} ensures exists g :: Holds(t, t'', g, b) {
      if b == a {
        assert Holds(t, t'', n', a);
      } else {
        var g :| Holds(t, t', g, b);
        assert Holds(t, t'', g, b);
      }
    }
  }

  lemma InsertedFollows(t: Table, t1: Table, t': Table, n: GrantId, n': GrantId, sp: ScopePlan)
    requires t1 == t - sp.remove && Inserted(t1, t', n, n', sp.add) && forall g :: g in t ==> g < n
    ensures TableFollows(t, t', sp)
  {
    forall a | a in sp.add ensures exists g :: Holds(t, t', g, a) {
      var g :| Holds(t1, t', g, a);
      assert Holds(t, t', g, a);
    }
  }

  lemma SameTouched(rs: map<(Kind, Id), Resource>, rs': map<(Kind, Id), Resource>, s: Scope, sp: ScopePlan)
    requires ResourcesFollow(rs, rs', s, ScopePlan({}, {}, sp.changed))
    ensures ResourcesFollow(rs, rs', s, sp)
  {}

  lemma SameHistory(h: seq<Event>)
    ensures HistoryFollows(h, h)
  {}

  lemma MoreHistory(h: seq<Event>, h': seq<Event>, e: Event)
    requires HistoryFollows(h, h') && ((e.Delete? && e.principal.Role?) || e.AclReplaced? || e.Unrelated?)
    ensures HistoryFollows(h, h' + [e])
  {
    assert (h' + [e])[|h|..] == h'[|h|..] + [e];
  }

  lemma HistoryTwice(h: seq<Event>, h1: seq<Event>, h2: seq<Event>)
    requires HistoryFollows(h, h1) && HistoryFollows(h1, h2)
    ensures HistoryFollows(h, h2)
  {
    assert h2[..|h|] == h1[..|h|] && h2 == h1 + h2[|h1|..];
    assert h2[|h|..] == h1[|h|..] + h2[|h1|..];
  }

  lemma PlannedRemovals(db: Db, s: Scope)
    requires |db.tables| == 4
    ensures forall g :: g in PlanScope(db, s).remove ==> g in db.tables[s] && db.tables[s][g].principal.Role?
  {}

  function Lookup(existing: map<(Id, Principal), set<Code>>, key: (Id, Principal)): set<Code> {
    if key in existing then existing[key] else {}
  }

  lemma NoResources(t: Table, s: Scope)
    ensures Missing(t, Subject(s), {}) == {} && Incomplete(t, {}) == {} && Customs(t, s, {}) == {}
  {}

  /** What one more resource adds to the plan. */
  lemma OneResource(t: Table, s: Scope, rs: set<Id>, r: Id)
    ensures var k, m, a := Subject(s), Present(t, r, Managers), Present(t, r, FileAdmin);
      Missing(t, k, rs + {r}) == Missing(t, k, rs) + MissingFor(t, k, r, Managers) + MissingFor(t, k, r, FileAdmin) &&
      (m != {} ==> MissingFor(t, k, r, Managers) == {}) && (a != {} ==> MissingFor(t, k, r, FileAdmin) == {}) &&
      Incomplete(t, rs + {r}) == Incomplete(t, rs) + (if m == {} || a == {} then {r} else {}) &&
      Customs(t, s, rs + {r}) == Customs(t, s, rs) +
        (if m != {} && m != Codes(k, Managers) then {Custom(s, r, Managers)} else {}) +
        (if a != {} && a != Codes(k, FileAdmin) then {Custom(s, r, FileAdmin)} else {})
  {
    hide Codes, PresentIn, Missing, Incomplete, Customs;
    OneMissing(t, Subject(s), rs, r);
    OneIncomplete(t, rs, r);
    OneCustom(t, s, rs, r);
  }

  lemma OneMissing(t: Table, k: Kind, rs: set<Id>, r: Id)
    ensures Missing(t, k, rs + {r}) ==
      Missing(t, k, rs) + MissingFor(t, k, r, Managers) + MissingFor(t, k, r, FileAdmin)
  {
    hide MissingFor;
  }

  lemma OneIncomplete(t: Table, rs: set<Id>, r: Id)
    ensures Incomplete(t, rs + {r}) ==
      Incomplete(t, rs) + if Present(t, r, Managers) == {} || Present(t, r, FileAdmin) == {} then {r} else {}
  {
    hide Present;
  }

  lemma OneCustom(t: Table, s: Scope, rs: set<Id>, r: Id)
    ensures Customs(t, s, rs + {r}) == Customs(t, s, rs) +
      (if IsCustom(t, Subject(s), r, Managers) then {Custom(s, r, Managers)} else {}) +
      (if IsCustom(t, Subject(s), r, FileAdmin) then {Custom(s, r, FileAdmin)} else {})
  {
    hide IsCustom;
  }

  lemma NoGrants(db: Db, s: Scope)
    requires |db.tables| == 4
    ensures Removed(db, s, {}) == {} && Unknown(db, s, {}) == {}
    ensures forall r, p :: PresentIn(db.tables[s], {}, r, p) == Lookup(map[], (r, p))
  {}

  /** What one more grant adds to what was read. */
  lemma OneGrant(db: Db, s: Scope, ids: set<GrantId>, g: GrantId, existing: map<(Id, Principal), set<Code>>)
    requires |db.tables| == 4 && g in db.tables[s]
    requires forall r, p :: Lookup(existing, (r, p)) == PresentIn(db.tables[s], ids, r, p)
    ensures var grant := db.tables[s][g];
      var key := (grant.resource, grant.principal);
      var creator := Creator(db.history, Owner(s), grant.resource);
      (forall r: Id, p: Principal ::
        Lookup(existing[key := Lookup(existing, key) + {grant.code}], (r, p)) ==
        PresentIn(db.tables[s], ids + {g}, r, p)) &&
      Removed(db, s, ids + {g}) == Removed(db, s, ids) +
        (if ManagesByRole(s, grant) && Identifiable(creator) && Decimal(grant.principal.role) == creator
         then {g} else {}) &&
      Unknown(db, s, ids + {g}) == Unknown(db, s, ids) +
        (if ManagesByRole(s, grant) && !Identifiable(creator) then {CreatorUnknown(s, g)} else {})
  {
    hide Creator, Identifiable, Decimal;
    OneGrantPresent(db.tables[s], ids, g, existing);
  }

  lemma OneGrantPresent(t: Table, ids: set<GrantId>, g: GrantId, existing: map<(Id, Principal), set<Code>>)
    requires g in t && forall r, p :: Lookup(existing, (r, p)) == PresentIn(t, ids, r, p)
    ensures var key := (t[g].resource, t[g].principal);
      forall r: Id, p: Principal ::
        Lookup(existing[key := Lookup(existing, key) + {t[g].code}], (r, p)) == PresentIn(t, ids + {g}, r, p)
  {
    var key := (t[g].resource, t[g].principal);
    forall r: Id, p: Principal
      ensures Lookup(existing[key := Lookup(existing, key) + {t[g].code}], (r, p)) == PresentIn(t, ids + {g}, r, p)
    {
      assert PresentIn(t, ids + {g}, r, p) == PresentIn(t, ids, r, p) + if key == (r, p) then {t[g].code} else {};
    }
  }
}
