/** What tools/backfill_hierarchical_oversight_acls.py plans: creator-role grants to remove and
    contextual grants to add, over four kinds of access lists. */
module AclPlan {
  import opened Texts

  type Id = nat

  type GrantId = nat

  type Code = string

  datatype Kind = Aggregation | Record

  /** `Managers` and `FileAdmin` are the contextual principals. */
  datatype Principal = Role(role: nat) | Managers | FileAdmin | Other(name: string)

  datatype Grant = Grant(resource: Id, principal: Principal, code: Code)

  type Table = map<GrantId, Grant>

  /** The four tables: the list of an aggregation, its defaults for child aggregations and for child
      records, and the list of a record. */
  type Scope = s: nat | s < 4

  function Owner(s: Scope): Kind { if s == 3 then Record else Aggregation }

  function Subject(s: Scope): Kind { if s < 2 then Aggregation else Record }

  function Codes(k: Kind, p: Principal): set<Code> {
    match (k, p)
    case (Aggregation, Managers) => {"aggregation.view", "aggregation.history.view"}
    case (Aggregation, FileAdmin) =>
      {"aggregation.view", "aggregation.modify_metadata", "aggregation.add_child", "aggregation.add_record",
       "aggregation.close",
       "aggregation.acl.manage", "aggregation.history.view"}
    case (Record, Managers) => {"record.view", "record.component.list", "record.component.view",
      "record.component.download"}
    case (Record, FileAdmin) =>
      {"record.view", "record.acl.manage", "record.history.view", "record.component.list", "record.component.view",
       "record.component.download", "record.component.share", "record.component.print"}
    case _ => {}
  }

  function Manage(k: Kind): Code { if k == Aggregation then "aggregation.acl.manage" else "record.acl.manage" }

  /** The history: creations with the role recorded for the creator, deleted grants, and anything else. */
  datatype Event = Create(kind: Kind, id: Id, creator: string) | Delete(scope: Scope, principal: Principal)
                 | AclReplaced(kind: Kind, id: Id, scope: Scope) | Unrelated

  datatype Resource = Resource(version: nat, counters: map<Scope, nat>)

  datatype Db = Db(tables: seq<Table>, resources: map<(Kind, Id), Resource>, history: seq<Event>,
      permissions: set<Code>)

  function Owners(db: Db, s: Scope): set<Id> { set key | key in db.resources && key.0 == Owner(s) :: key.1 }

  /** What the first creation event of a resource says about its creator. */
  function Creator(history: seq<Event>, kind: Kind, id: Id): string {
    if history == [] then ""
    else
      var n := |history| - 1;
      if Created(history[..n], kind, id) then Creator(history[..n], kind, id)
      else if history[n].Create? && history[n].kind == kind && history[n].id == id then history[n].creator
      else ""
  }

  predicate Identifiable(creator: string) {
    creator != "" && forall k :: 0 <= k < |creator| ==> '0' <= creator[k] <= '9'
  }

  predicate ManagesByRole(s: Scope, g: Grant) { g.principal.Role? && g.code == Manage(Subject(s)) }

  /** A management grant to the role that the creator had. */
  predicate CreatorGrant(db: Db, s: Scope, g: Grant) {
    var creator := Creator(db.history, Owner(s), g.resource);
    ManagesByRole(s, g) && Identifiable(creator) && Decimal(g.principal.role) == creator
  }

  predicate UnknownCreator(db: Db, s: Scope, g: Grant) {
    ManagesByRole(s, g) && !Identifiable(Creator(db.history, Owner(s), g.resource))
  }

  /** The codes that a principal has on a resource, by some of the grants. */
  function PresentIn(t: Table, ids: set<GrantId>, r: Id, p: Principal): set<Code> {
    set g | g in ids && g in t && t[g].resource == r && t[g].principal == p :: t[g].code
  }

  function Present(t: Table, r: Id, p: Principal): set<Code> { PresentIn(t, t.Keys, r, p) }

  datatype Addition = Addition(resource: Id, principal: Principal, code: Code)

  datatype Conflict = PreviouslyRemoved | CreatorUnknown(scope: Scope, grant: GrantId)
      | Custom(scope: Scope, resource: Id, principal: Principal)

  datatype ScopePlan = ScopePlan(add: set<Addition>, remove: set<GrantId>, changed: set<Id>)

  /** `before` stands for the snapshot that the hash covers. */
  datatype Plan = Plan(before: (seq<Table>, map<(Kind, Id), Resource>), scopes: seq<ScopePlan>,
      conflicts: set<Conflict>)

  // ---- the parts of a plan, over the grants and resources seen so far ----

  function Removed(db: Db, s: Scope, ids: set<GrantId>): set<GrantId>
    requires |db.tables| == 4
  {
    set g | g in ids && g in db.tables[s] && CreatorGrant(db, s, db.tables[s][g])
  }

  function Unknown(db: Db, s: Scope, ids: set<GrantId>): set<Conflict>
    requires |db.tables| == 4
  {
    set g | g in ids && g in db.tables[s] && UnknownCreator(db, s, db.tables[s][g]) :: CreatorUnknown(s, g)
  }

  function MissingFor(t: Table, k: Kind, r: Id, p: Principal): set<Addition> {
    if Present(t, r, p) == {} then set c | c in Codes(k, p) :: Addition(r, p, c) else {}
  }

  function Missing(t: Table, k: Kind, rs: set<Id>): set<Addition> {
    (set r, a | r in rs && a in MissingFor(t, k, r, Managers) :: a) +
    set r, a | r in rs && a in MissingFor(t, k, r, FileAdmin) :: a
  }

  function Incomplete(t: Table, rs: set<Id>): set<Id> {
    set r | r in rs && (Present(t, r, Managers) == {} || Present(t, r, FileAdmin) == {})
  }

  predicate IsCustom(t: Table, k: Kind, r: Id, p: Principal) {
    Present(t, r, p) != {} && Present(t, r, p) != Codes(k, p)
  }

  function Customs(t: Table, s: Scope, rs: set<Id>): set<Conflict> {
    (set r | r in rs && IsCustom(t, Subject(s), r, Managers) :: Custom(s, r, Managers)) +
    set r | r in rs && IsCustom(t, Subject(s), r, FileAdmin) :: Custom(s, r, FileAdmin)
  }

  function ResourcesOf(t: Table, ids: set<GrantId>): set<Id> { set g | g in ids && g in t :: t[g].resource }

  function PlanScope(db: Db, s: Scope): ScopePlan
    requires |db.tables| == 4
  {
    var t := db.tables[s];
    ScopePlan(Missing(t, Subject(s), Owners(db, s)), Removed(db, s, t.Keys),
              Incomplete(t, Owners(db, s)) + ResourcesOf(t, Removed(db, s, t.Keys)))
  }

  function ConflictsOf(db: Db, s: Scope): set<Conflict>
    requires |db.tables| == 4
  {
    Unknown(db, s, db.tables[s].Keys) + Customs(db.tables[s], s, Owners(db, s))
  }

  predicate ContextualRemoved(history: seq<Event>) {
    exists e :: e in history && e.Delete? && (e.principal == Managers || e.principal == FileAdmin)
  }

  /** The plan for a database. */
  function PlanOf(db: Db): Plan
    requires |db.tables| == 4
  {
    Plan((db.tables, db.resources), [PlanScope(db, 0), PlanScope(db, 1), PlanScope(db, 2), PlanScope(db, 3)],
         (if ContextualRemoved(db.history) then {PreviouslyRemoved} else {}) +
         ConflictsOf(db, 0) + ConflictsOf(db, 1) + ConflictsOf(db, 2) + ConflictsOf(db, 3))
  }

  function Required(): set<Code> {
    Codes(Aggregation, Managers) + Codes(Aggregation, FileAdmin) + Codes(Record, Managers) + Codes(Record, FileAdmin)
  }

  lemma RequiredIsAll(permissions: set<Code>)
    ensures Required() <= permissions <==> forall k, p :: Codes(k, p) <= permissions
  {
    hide Codes;
    OthersNeedNothing();
    if Required() <= permissions {
      forall k, p ensures Codes(k, p) <= permissions {
        assert k == Aggregation || k == Record;
        assert p == Managers || p == FileAdmin || Codes(k, p) == {};
      }
    }
  }

  lemma OthersNeedNothing()
    ensures forall k, p :: p != Managers && p != FileAdmin ==> Codes(k, p) == {}
  {}

  predicate NothingToDo(plan: Plan) {
    plan.conflicts == {} &&
    forall i :: 0 <= i < |plan.scopes| ==> plan.scopes[i].add == {} && plan.scopes[i].remove == {}
  }

  // ---- applying a plan, and planning again ----

  function Bump(r: Resource, s: Scope): Resource {
    Resource(r.version + 1, r.counters[s := (if s in r.counters then r.counters[s] else 0) + 1])
  }

  /** Each addition becomes one new grant, the planned grants are gone, and all others stay. */
  ghost predicate TableFollows(t: Table, t': Table, sp: ScopePlan) {
    (forall g :: g in t ==> (g in t' <==> g !in sp.remove) && (g in t' ==> t'[g] == t[g])) &&
    (forall g :: g in t' && g !in t ==> Addition(t'[g].resource, t'[g].principal, t'[g].code) in sp.add) &&
    (forall a :: a in sp.add ==> exists g :: Holds(t, t', g, a)) &&
    (forall g, h :: g in t' && h in t' && g !in t && h !in t && t'[g] == t'[h] ==> g == h)
  }

  ghost predicate Holds(t: Table, t': Table, g: GrantId, a: Addition) {
    g in t' && g !in t && t'[g] == Grant(a.resource, a.principal, a.code)
  }

  /** Counter and version of exactly the changed resources go up by one. */
  ghost predicate ResourcesFollow(rs: map<(Kind, Id), Resource>, rs': map<(Kind, Id), Resource>, s: Scope,
                                  sp: ScopePlan)
  {
    rs'.Keys == rs.Keys &&
    forall key :: key in rs ==>
      rs'[key] == if key.0 == Owner(s) && key.1 in sp.changed then Bump(rs[key], s) else rs[key]
  }

  /** What is appended to the history: deletions of role grants, and notes of replaced lists. */
  ghost predicate HistoryFollows(h: seq<Event>, h': seq<Event>) {
    |h| <= |h'| && h'[..|h|] == h &&
    forall e :: e in h'[|h|..] ==> (e.Delete? && e.principal.Role?) || e.AclReplaced? || e.Unrelated?
  }

  /** New entries do not change who created what. */
  lemma {:induction false} CreatorStays(h: seq<Event>, h': seq<Event>, kind: Kind, id: Id)
    requires HistoryFollows(h, h')
    ensures Creator(h', kind, id) == Creator(h, kind, id)
    decreases |h'|
  {
    if |h'| == |h| {
      assert h' == h;
    } else {
      var n := |h'| - 1;
      assert h'[n] == h'[|h|..][n - |h|] && h'[n] in h'[|h|..];
      assert h'[..n][..|h|] == h;
      assert forall e :: e in h'[..n][|h|..] ==> e in h'[|h|..] by {
        assert h'[|h|..] == h'[..n][|h|..] + [h'[n]];
      }
      CreatorStays(h, h'[..n], kind, id);
      NoneCreated(h'[..n], kind, id);
    }
  }

  predicate Created(h: seq<Event>, kind: Kind, id: Id) {
    exists e :: e in h && e.Create? && e.kind == kind && e.id == id
  }

  lemma NoneCreated(h: seq<Event>, kind: Kind, id: Id)
    ensures !Created(h, kind, id) ==> Creator(h, kind, id) == ""
  {
    if h != [] {
      var n := |h| - 1;
      assert h[n] in h && forall e :: e in h[..n] ==> e in h;
    }
  }

  lemma InMissing(t: Table, k: Kind, rs: set<Id>, a: Addition)
    ensures a in Missing(t, k, rs) <==>
      a.resource in rs && (a.principal == Managers || a.principal == FileAdmin) &&
      Present(t, a.resource, a.principal) == {} && a.code in Codes(k, a.principal)
  {
    hide Codes, PresentIn;
    assert a == Addition(a.resource, a.principal, a.code);
    assert a in MissingFor(t, k, a.resource, a.principal) <==>
      Present(t, a.resource, a.principal) == {} && a.code in Codes(k, a.principal);
  }

  lemma CodesAreMany(k: Kind, p: Principal)
    ensures p == Managers || p == FileAdmin ==> Codes(k, p) != {}
  {
    assert p == Managers ==> (if k == Aggregation then "aggregation.view" else "record.view") in Codes(k, p);
    assert p == FileAdmin ==> (if k == Aggregation then "aggregation.view" else "record.view") in Codes(k, p);
  }

  lemma InPresent(t: Table, r: Id, p: Principal, c: Code)
    ensures c in Present(t, r, p) <==> exists g :: g in t && t[g] == Grant(r, p, c)
  {
    if g :| g in t && t[g] == Grant(r, p, c) {
      assert t[g].code in Present(t, r, p);
    }
    if c in Present(t, r, p) {
      var g :| g in t && t[g].resource == r && t[g].principal == p && t[g].code == c;
      assert t[g] == Grant(r, p, c);
    }
  }

  /** After the plan, a contextual principal has its codes on every resource. */
  lemma PresentAfter(db: Db, s: Scope, t': Table, r: Id, p: Principal, c: Code)
    requires |db.tables| == 4 && TableFollows(db.tables[s], t', PlanScope(db, s))
    requires r in Owners(db, s) && (p == Managers || p == FileAdmin) && !IsCustom(db.tables[s], Subject(s), r, p)
    ensures c in Present(t', r, p) <==> c in Codes(Subject(s), p)
  {
    hide Codes, Missing, Owners, Creator, Identifiable, Decimal, PresentIn;
    var t, a := db.tables[s], Addition(r, p, c);
    InMissing(t, Subject(s), Owners(db, s), a);
    InPresent(t, r, p, c);
    InPresent(t', r, p, c);
    if Present(t, r, p) == {} {
      if c in Codes(Subject(s), p) {
        var g :| Holds(t, t', g, a);
      }
    } else {
      forall g | g in t && t[g] == Grant(r, p, c) ensures g in t' && t'[g] == t[g] {
        assert g !in Removed(db, s, t.Keys);
      }
    }
  }

  lemma CustomIsListed(t: Table, s: Scope, rs: set<Id>, r: Id, p: Principal)
    ensures r in rs && (p == Managers || p == FileAdmin) && IsCustom(t, Subject(s), r, p) ==>
      Custom(s, r, p) in Customs(t, s, rs)
  {}

  lemma GrantIsListed(db: Db, s: Scope, g: GrantId)
    requires |db.tables| == 4
    ensures g in db.tables[s] && CreatorGrant(db, s, db.tables[s][g]) ==> g in Removed(db, s, db.tables[s].Keys)
    ensures g in db.tables[s] && UnknownCreator(db, s, db.tables[s][g]) ==>
      CreatorUnknown(s, g) in Unknown(db, s, db.tables[s].Keys)
  {}

  lemma NothingToAdd(db: Db, s: Scope, db': Db)
    requires |db.tables| == 4 == |db'.tables| && TableFollows(db.tables[s], db'.tables[s], PlanScope(db, s))
    requires Owners(db', s) == Owners(db, s) && Customs(db.tables[s], s, Owners(db, s)) == {}
    ensures PlanScope(db', s).add == {} && Customs(db'.tables[s], s, Owners(db', s)) == {}
  {
    hide Codes, TableFollows, PresentIn, Removed;
    forall r, p | r in Owners(db, s) && (p == Managers || p == FileAdmin)
      ensures Present(db'.tables[s], r, p) == Codes(Subject(s), p)
    {
      CustomIsListed(db.tables[s], s, Owners(db, s), r, p);
      forall c ensures c in Present(db'.tables[s], r, p) <==> c in Codes(Subject(s), p) {
        PresentAfter(db, s, db'.tables[s], r, p, c);
      }
      CodesAreMany(Subject(s), p);
    }
  }

  lemma NothingToRemove(db: Db, s: Scope, db': Db)
    requires |db.tables| == 4 == |db'.tables| && TableFollows(db.tables[s], db'.tables[s], PlanScope(db, s))
    requires HistoryFollows(db.history, db'.history) && Unknown(db, s, db.tables[s].Keys) == {}
    ensures PlanScope(db', s).remove == {} && Unknown(db', s, db'.tables[s].Keys) == {}
  {
    hide Codes, Missing, Owners, Creator, Identifiable, Decimal, HistoryFollows, PresentIn;
    var t, t' := db.tables[s], db'.tables[s];
    forall g | g in t' ensures !CreatorGrant(db', s, t'[g]) && !UnknownCreator(db', s, t'[g]) {
      CreatorStays(db.history, db'.history, Owner(s), t'[g].resource);
      if g in t {
        GrantIsListed(db, s, g);
      } else {
        InMissing(t, Subject(s), Owners(db, s), Addition(t'[g].resource, t'[g].principal, t'[g].code));
      }
    }
  }

  /** Every part of the plan was carried out. */
  ghost predicate Follows(db: Db, db': Db) {
    |db.tables| == 4 == |db'.tables| && db'.permissions == db.permissions && db'.resources.Keys == db.resources.Keys &&
    HistoryFollows(db.history, db'.history) &&
      forall s: Scope :: TableFollows(db.tables[s], db'.tables[s], PlanScope(db, s))
  }

  /** Planning again after a plan without conflicts was applied finds nothing left to do. */
  lemma ReplanIsEmpty(db: Db, db': Db)
    requires |db.tables| == 4 && Follows(db, db') && PlanOf(db).conflicts == {}
    ensures NothingToDo(PlanOf(db'))
    ensures PlanOf(db').conflicts == {} &&
      forall s: Scope :: PlanScope(db', s).add == {} && PlanScope(db', s).remove == {}
  {
    hide TableFollows, HistoryFollows, Unknown, Customs, Missing, Removed, Incomplete, ResourcesOf;
    forall s: Scope ensures PlanScope(db', s).add == {} && PlanScope(db', s).remove == {} && ConflictsOf(db', s) == {} {
      assert ConflictsOf(db, s) <= PlanOf(db).conflicts by { assert s == 0 || s == 1 || s == 2 || s == 3; }
      NothingToAdd(db, s, db');
      NothingToRemove(db, s, db');
    }
    NoneRemoved(db.history, db'.history);
    RemovalIsListed(db);
  }

  lemma RemovalIsListed(db: Db)
    requires |db.tables| == 4
    ensures ContextualRemoved(db.history) ==> PreviouslyRemoved in PlanOf(db).conflicts
  {}

  lemma NoneRemoved(h: seq<Event>, h': seq<Event>)
    requires HistoryFollows(h, h')
    ensures ContextualRemoved(h') ==> ContextualRemoved(h)
  {
    if ContextualRemoved(h') {
      var e :| e in h' && e.Delete? && (e.principal == Managers || e.principal == FileAdmin);
      assert h' == h + h'[|h|..];
      assert e in h;
    }
  }

  // ---- what a plan means, in terms of grants, resources and history alone ----

  /** The first creation that the history has of this resource is at `i`, and names this role. */
  ghost predicate FirstCreated(h: seq<Event>, i: int, kind: Kind, id: Id, creator: string) {
    0 <= i < |h| && h[i] == Create(kind, id, creator) &&
    forall j :: 0 <= j < i ==> !(h[j].Create? && h[j].kind == kind && h[j].id == id)
  }

  ghost predicate CreatedBy(h: seq<Event>, kind: Kind, id: Id, creator: string) {
    exists i :: FirstCreated(h, i, kind, id, creator)
  }

  lemma CreatedEarlier(h: seq<Event>, kind: Kind, id: Id, creator: string)
    requires h != []
    ensures var n := |h| - 1;
      CreatedBy(h, kind, id, creator) <==>
      CreatedBy(h[..n], kind, id, creator) || (!Created(h[..n], kind, id) && h[n] == Create(kind, id, creator))
  {
    var n := |h| - 1;
    if i :| FirstCreated(h, i, kind, id, creator) {
      if i < n {
        assert FirstCreated(h[..n], i, kind, id, creator);
      } else {
        assert forall e :: e in h[..n] ==> !(e.Create? && e.kind == kind && e.id == id);
      }
    }
    if i :| FirstCreated(h[..n], i, kind, id, creator) {
      assert FirstCreated(h, i, kind, id, creator);
    }
    if !Created(h[..n], kind, id) && h[n] == Create(kind, id, creator) {
      forall j | 0 <= j < n ensures !(h[j].Create? && h[j].kind == kind && h[j].id == id) { assert h[j] in h[..n]; }
      assert FirstCreated(h, n, kind, id, creator);
    }
  }

  lemma {:induction false} CreatorIs(h: seq<Event>, kind: Kind, id: Id, creator: string)
    requires creator != ""
    ensures Creator(h, kind, id) == creator <==> CreatedBy(h, kind, id, creator)
    ensures CreatedBy(h, kind, id, creator) ==> Created(h, kind, id)
  {
    hide CreatedBy, Created;
    if h == [] {
      NothingCreated(kind, id, creator);
    } else {
      var n := |h| - 1;
      CreatorIs(h[..n], kind, id, creator);
      NoneCreated(h[..n], kind, id);
      CreatedEarlier(h, kind, id, creator);
      CreatedMore(h, kind, id);
    }
  }

  lemma NothingCreated(kind: Kind, id: Id, creator: string)
    ensures !CreatedBy([], kind, id, creator) && !Created([], kind, id)
  {}

  lemma CreatedMore(h: seq<Event>, kind: Kind, id: Id)
    requires h != []
    ensures var n := |h| - 1;
      Created(h, kind, id) <==> Created(h[..n], kind, id) || (h[n].Create? && h[n].kind == kind && h[n].id == id)
  {
    var n := |h| - 1;
    assert h == h[..n] + [h[n]];
  }

  /** A grant that a creator's role got by default: to manage the list of a resource whose creation
      names this role. */
  ghost predicate DefaultGrant(db: Db, s: Scope, g: Grant) {
    g.principal.Role? && g.code == (if s < 2 then "aggregation.acl.manage" else "record.acl.manage") &&
    CreatedBy(db.history, if s == 3 then Record else Aggregation, g.resource, Decimal(g.principal.role))
  }

  /** The principal has no grant on the resource. */
  ghost predicate Without(t: Table, r: Id, p: Principal) {
    forall g :: g in t ==> !(t[g].resource == r && t[g].principal == p)
  }

  /** A grant on the resource appeared or went. */
  ghost predicate Touched(t: Table, t': Table, r: Id) {
    (exists g :: g in t && t[g].resource == r && g !in t') || exists g :: g in t' && t'[g].resource == r && g !in t
  }

  /** The table lost exactly the default grants of creators, and got one grant of each code for each
      contextual principal that had none on a resource. */
  ghost predicate Corrected(db: Db, s: Scope, t: Table, t': Table) {
    (forall g :: g in t ==> (g !in t' <==> DefaultGrant(db, s, t[g])) && (g in t' ==> t'[g] == t[g])) &&
    (forall g :: g in t' && g !in t ==>
      (if s == 3 then Record else Aggregation, t'[g].resource) in db.resources &&
      (t'[g].principal == Managers || t'[g].principal == FileAdmin) && Without(t, t'[g].resource, t'[g].principal) &&
      t'[g].code in Codes(if s < 2 then Aggregation else Record, t'[g].principal)) &&
    (forall r, p, c ::
       (if s == 3 then Record else Aggregation, r) in db.resources && (p == Managers || p == FileAdmin) &&
       Without(t, r, p) && c in Codes(if s < 2 then Aggregation else Record, p) ==>
       Appeared(t, t', Grant(r, p, c))) &&
    forall g, h :: g in t' && h in t' && g !in t && h !in t && t'[g] == t'[h] ==> g == h
  }

  ghost predicate Appeared(t: Table, t': Table, grant: Grant) { exists g :: g in t' && g !in t && t'[g] == grant }

  lemma DefaultIsCreatorGrant(db: Db, s: Scope, g: Grant)
    ensures CreatorGrant(db, s, g) <==> DefaultGrant(db, s, g)
  {
    hide Creator, CreatedBy, Decimal;
    if g.principal.Role? {
      DecimalIsDigits(g.principal.role);
      CreatorIs(db.history, Owner(s), g.resource, Decimal(g.principal.role));
    }
  }

  lemma WithoutIsAbsent(t: Table, r: Id, p: Principal)
    ensures Present(t, r, p) == {} <==> Without(t, r, p)
  {
    if !Without(t, r, p) {
      var g :| g in t && t[g].resource == r && t[g].principal == p;
      assert t[g].code in Present(t, r, p);
    }
  }

  lemma FollowsIsCorrected(db: Db, s: Scope, t': Table)
    requires |db.tables| == 4 && TableFollows(db.tables[s], t', PlanScope(db, s))
    ensures Corrected(db, s, db.tables[s], t')
  {
    hide Codes, Missing, PresentIn, Creator, CreatorGrant, DefaultGrant, Without;
    var t := db.tables[s];
    forall g | g in t ensures g in PlanScope(db, s).remove <==> DefaultGrant(db, s, t[g]) {
      DefaultIsCreatorGrant(db, s, t[g]);
    }
    forall a: Addition ensures a in PlanScope(db, s).add <==>
      (Owner(s), a.resource) in db.resources && (a.principal == Managers || a.principal == FileAdmin) &&
      Without(t, a.resource, a.principal) && a.code in Codes(Subject(s), a.principal)
    {
      InMissing(t, Subject(s), Owners(db, s), a);
      WithoutIsAbsent(t, a.resource, a.principal);
    }
    forall r, p, c |
      (Owner(s), r) in db.resources && (p == Managers || p == FileAdmin) && Without(t, r, p) &&
      c in Codes(Subject(s), p)
      ensures Appeared(t, t', Grant(r, p, c))
    {
      assert Addition(r, p, c) in PlanScope(db, s).add;
      var g :| Holds(t, t', g, Addition(r, p, c));
    }
  }

  /** The resources whose lists change are those for which a grant appears or goes. */
  lemma ChangedIsTouched(db: Db, s: Scope, t': Table, r: Id)
    requires |db.tables| == 4 && TableFollows(db.tables[s], t', PlanScope(db, s))
    ensures r in PlanScope(db, s).changed <==> Touched(db.tables[s], t', r)
  {
    hide Codes, PresentIn, CreatorGrant;
    var t := db.tables[s];
    if r in Incomplete(t, Owners(db, s)) {
      var p := if Present(t, r, Managers) == {} then Managers else FileAdmin;
      CodesAreMany(Subject(s), p);
      var c :| c in Codes(Subject(s), p);
      InMissing(t, Subject(s), Owners(db, s), Addition(r, p, c));
      var g :| Holds(t, t', g, Addition(r, p, c));
    }
    if g :| g in t' && t'[g].resource == r && g !in t {
      InMissing(t, Subject(s), Owners(db, s), Addition(r, t'[g].principal, t'[g].code));
    }
  }

  /** Nothing has to be reviewed: no contextual grant was ever deleted, each management grant of a role
      is on a resource with a known creator, and each contextual principal has all its codes or none. */
  ghost predicate NothingToReview(db: Db)
    requires |db.tables| == 4
  {
    (forall e :: e in db.history && e.Delete? ==> e.principal != Managers && e.principal != FileAdmin) &&
    forall s: Scope :: Reviewed(db, s, db.tables[s])
  }

  ghost predicate Reviewed(db: Db, s: Scope, t: Table) {
    (forall g ::
       g in t && t[g].principal.Role? &&
       t[g].code == (if s < 2 then "aggregation.acl.manage" else "record.acl.manage") ==>
       KnownCreator(db.history, if s == 3 then Record else Aggregation, t[g].resource)) &&
    forall r, p :: (if s == 3 then Record else Aggregation, r) in db.resources && (p == Managers || p == FileAdmin) ==>
      Without(t, r, p) || AllCodes(t, if s < 2 then Aggregation else Record, r, p)
  }

  ghost predicate KnownCreator(h: seq<Event>, kind: Kind, id: Id) {
    exists creator :: CreatedBy(h, kind, id, creator) && creator != "" && Digits(creator)
  }

  ghost predicate AllCodes(t: Table, k: Kind, r: Id, p: Principal) {
    forall c :: c in Codes(k, p) <==> exists g :: g in t && t[g] == Grant(r, p, c)
  }

  lemma KnownIsIdentifiable(h: seq<Event>, kind: Kind, id: Id)
    ensures Identifiable(Creator(h, kind, id)) <==> KnownCreator(h, kind, id)
  {
    hide Creator, CreatedBy;
    if Identifiable(Creator(h, kind, id)) { CreatorIs(h, kind, id, Creator(h, kind, id)); }
    if KnownCreator(h, kind, id) {
      var creator :| CreatedBy(h, kind, id, creator) && creator != "" && Digits(creator);
      CreatorIs(h, kind, id, creator);
    }
  }

  lemma CustomIsPartial(t: Table, k: Kind, r: Id, p: Principal)
    ensures !IsCustom(t, k, r, p) <==> Without(t, r, p) || AllCodes(t, k, r, p)
  {
    hide Codes, PresentIn, Without;
    WithoutIsAbsent(t, r, p);
    forall c ensures c in Present(t, r, p) <==> exists g :: g in t && t[g] == Grant(r, p, c) { InPresent(t, r, p, c); }
  }

  lemma NoUnknown(db: Db, s: Scope)
    requires |db.tables| == 4
    ensures var t := db.tables[s];
      Unknown(db, s, t.Keys) == {} <==>
      forall g :: g in t && ManagesByRole(s, t[g]) ==> KnownCreator(db.history, Owner(s), t[g].resource)
  {
    hide Creator, Identifiable, KnownCreator, ManagesByRole;
    var t := db.tables[s];
    forall g | g in t ensures UnknownCreator(db, s, t[g]) <==>
      ManagesByRole(s, t[g]) && !KnownCreator(db.history, Owner(s), t[g].resource)
    {
      KnownIsIdentifiable(db.history, Owner(s), t[g].resource);
    }
    forall g | g in t && UnknownCreator(db, s, t[g]) ensures CreatorUnknown(s, g) in Unknown(db, s, t.Keys) {
      GrantIsListed(db, s, g);
    }
  }

  lemma NoCustoms(db: Db, s: Scope, t: Table)
    ensures Customs(t, s, Owners(db, s)) == {} <==>
      forall r, p :: (Owner(s), r) in db.resources && (p == Managers || p == FileAdmin) ==>
        Without(t, r, p) || AllCodes(t, Subject(s), r, p)
  {
    hide IsCustom, Without, AllCodes;
    forall r | (Owner(s), r) in db.resources ensures r in Owners(db, s) { assert (Owner(s), r).1 == r; }
    forall r, p ensures !IsCustom(t, Subject(s), r, p) <==> Without(t, r, p) || AllCodes(t, Subject(s), r, p) {
      CustomIsPartial(t, Subject(s), r, p);
    }
    forall r, p | r in Owners(db, s) && (p == Managers || p == FileAdmin) && IsCustom(t, Subject(s), r, p)
      ensures Custom(s, r, p) in Customs(t, s, Owners(db, s))
    {
      CustomIsListed(t, s, Owners(db, s), r, p);
    }
  }

  lemma NoConflictInScope(db: Db, s: Scope)
    requires |db.tables| == 4
    ensures ConflictsOf(db, s) == {} <==> Reviewed(db, s, db.tables[s])
  {
    hide Unknown, Customs, KnownCreator, Without, AllCodes, Owners;
    NoUnknown(db, s);
    NoCustoms(db, s, db.tables[s]);
  }

  /** A plan has no conflicts exactly if nothing has to be reviewed. */
  lemma NoConflicts(db: Db)
    requires |db.tables| == 4
    ensures PlanOf(db).conflicts == {} <==> NothingToReview(db)
  {
    hide ConflictsOf, Reviewed;
    forall s: Scope ensures ConflictsOf(db, s) == {} <==> Reviewed(db, s, db.tables[s]) { NoConflictInScope(db, s); }
    RemovalIsListed(db);
    assert PlanOf(db).conflicts == {} <==>
      !ContextualRemoved(db.history) && ConflictsOf(db, 0) == {} && ConflictsOf(db, 1) == {} &&
      ConflictsOf(db, 2) == {} && ConflictsOf(db, 3) == {};
  }
}
