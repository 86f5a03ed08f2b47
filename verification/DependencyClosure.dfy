/** Dependencies between privileges or permissions: the worklist of frontend/webui/profile_privileges.py
    and the iteration of frontend/webui/acl_editor.py, for any finite dependency map. */
module DependencyClosure {

  type Item = nat

  /** The source's `dependencies.get(item, set())`. */
  function Required(deps: map<Item, set<Item>>, i: Item): set<Item> { if i in deps then deps[i] else {} }

  /** The set holds whatever its members require. */
  ghost predicate Closed(deps: map<Item, set<Item>>, s: set<Item>) {
    forall i :: i in s ==> Required(deps, i) <= s
  }

  /** Items without an entry in the map require nothing. */
  lemma ClosedIs(deps: map<Item, set<Item>>, s: set<Item>)
    ensures Closed(deps, s) <==> forall i :: i in s && i in deps ==> deps[i] <= s
  {
    if Closed(deps, s) {
      forall i | i in s && i in deps ensures deps[i] <= s { assert Required(deps, i) <= s; }
    }
  }

  /** The least closed set that holds the selected items. */
  ghost predicate IsClosure(deps: map<Item, set<Item>>, selected: set<Item>, r: set<Item>) {
    selected <= r && Closed(deps, r) && Within(deps, selected, r)
  }

  /** `r` is part of every closed set that holds the selected items. */
  ghost predicate Within(deps: map<Item, set<Item>>, selected: set<Item>, r: set<Item>) {
    forall s :: selected <= s && Closed(deps, s) ==> r <= s
  }

  /** Every closed set with `item` has `other`: directly or not, `item` requires it. */
  ghost predicate Needs(deps: map<Item, set<Item>>, item: Item, other: Item) {
    forall s :: item in s && Closed(deps, s) ==> other in s
  }

  lemma ClosureIsUnique(deps: map<Item, set<Item>>, selected: set<Item>, r: set<Item>, r': set<Item>)
    requires IsClosure(deps, selected, r) && IsClosure(deps, selected, r')
    ensures r == r'
  {}

  lemma ClosureOfOne(deps: map<Item, set<Item>>, item: Item, r: set<Item>)
    requires IsClosure(deps, {item}, r)
    ensures forall other :: other in r <==> Needs(deps, item, other)
  {
    forall other ensures other in r <==> Needs(deps, item, other) {
      if other in r {
        forall s | item in s && Closed(deps, s) ensures other in s { assert {item} <= s && r <= s; }
      }
    }
  }

  lemma NeedsThrough(deps: map<Item, set<Item>>, a: Item, b: Item, c: Item)
    requires b in Required(deps, a)
    ensures Needs(deps, a, b) && (Needs(deps, b, c) ==> Needs(deps, a, c))
  {
    forall s | a in s && Closed(deps, s) ensures b in s {}
  }

  // ---- the worklist ----

  /** `list(selected)`, in any order. */
  method Listed(s: set<Item>) returns (r: seq<Item>)
    ensures forall i :: i in r <==> i in s
  {
    r := [];
    var rest := s;
    while rest != {}
      invariant rest <= s && forall i :: i in r <==> i in s - rest
    {
      var i :| i in rest;
      r, rest := r + [i], rest - {i};
    }
  }

  ghost function Universe(deps: map<Item, set<Item>>, selected: set<Item>): set<Item> {
    selected + set i, r | i in deps && r in deps[i] :: r
  }

  /** Whatever a member requires is there, unless the member is still to be looked at. */
  ghost predicate Pending(deps: map<Item, set<Item>>, result: set<Item>, pending: seq<Item>) {
    (forall i :: i in pending ==> i in result) &&
    forall i :: i in result && i !in pending ==> Required(deps, i) <= result
  }

  lemma WithinMore(deps: map<Item, set<Item>>, selected: set<Item>, result: set<Item>, item: Item, more: set<Item>)
    requires Within(deps, selected, result) && item in result && more <= Required(deps, item)
    ensures Within(deps, selected, result + more)
  {
    forall s | selected <= s && Closed(deps, s) ensures result + more <= s { assert item in s; }
  }

  /** `closure`. */
  method Closure(selected: set<Item>, deps: map<Item, set<Item>>) returns (result: set<Item>)
    ensures IsClosure(deps, selected, result)
  {
    hide Within, Closed;
    result := selected;
    var pending := Listed(selected);
    SelectedIsWithin(deps, selected);
    while pending != []
      invariant selected <= result <= Universe(deps, selected) && Within(deps, selected, result) &&
        Pending(deps, result, pending)
      decreases Universe(deps, selected) - result, |pending|
    {
      ghost var result0, pending0, added := result, pending, [];
      var item := pending[|pending| - 1];
      pending := pending[..|pending| - 1];
      var missing := Required(deps, item) - result;
      WithinMore(deps, selected, result, item, missing);
      StaysInside(deps, selected, result, item);
      var todo := missing;
      while todo != {}
        invariant todo <= missing && result == result0 + (missing - todo)
        invariant pending == pending0[..|pending0| - 1] + added && forall i :: i in added <==> i in missing - todo
      {
        var required :| required in todo;
        result, pending, added := result + {required}, pending + [required], added + [required];
        todo := todo - {required};
      }
      PendingMoves(deps, result0, pending0, added);
      assert result == result0 + missing;
      assert added != [] ==> added[0] in added;
      assert missing == {} ==> result == result0;
    }
    NothingPending(deps, result);
  }

  lemma StaysInside(deps: map<Item, set<Item>>, selected: set<Item>, result: set<Item>, item: Item)
    requires result <= Universe(deps, selected)
    ensures var missing := Required(deps, item) - result;
      missing <= Universe(deps, selected) &&
      (missing != {} ==> Universe(deps, selected) - (result + missing) < Universe(deps, selected) - result)
  {
    var missing := Required(deps, item) - result;
    if missing != {} {
      var r :| r in missing;
      assert r in Universe(deps, selected) - result;
    }
  }

  lemma SelectedIsWithin(deps: map<Item, set<Item>>, selected: set<Item>)
    ensures Within(deps, selected, selected)
  {}

  lemma NothingPending(deps: map<Item, set<Item>>, result: set<Item>)
    requires Pending(deps, result, [])
    ensures Closed(deps, result)
  {}

  lemma PendingMoves(deps: map<Item, set<Item>>, result: set<Item>, pending: seq<Item>, added: seq<Item>)
    requires pending != [] && Pending(deps, result, pending)
    requires forall i :: i in added <==> i in Required(deps, pending[|pending| - 1]) - result
    ensures var missing := Required(deps, pending[|pending| - 1]) - result;
      Pending(deps, result + missing, pending[..|pending| - 1] + added)
  {
    var item, rest := pending[|pending| - 1], pending[..|pending| - 1];
    assert pending == rest + [item];
  }

  // ---- the iteration ----

  function Expanded(deps: map<Item, set<Item>>, closed: set<Item>): set<Item> {
    closed + set i, r | i in closed && r in Required(deps, i) :: r
  }

  lemma ExpandedIsWithin(deps: map<Item, set<Item>>, selected: set<Item>, closed: set<Item>)
    requires Within(deps, selected, closed)
    ensures Within(deps, selected, Expanded(deps, closed))
  {
    forall s | selected <= s && Closed(deps, s) ensures Expanded(deps, closed) <= s {
      assert closed <= s;
    }
  }

  lemma ExpandedOnceIsClosed(deps: map<Item, set<Item>>, closed: set<Item>)
    requires Expanded(deps, closed) == closed
    ensures Closed(deps, closed)
  {
    forall i, r | i in closed && r in Required(deps, i) ensures r in closed { assert r in Expanded(deps, closed); }
  }

  /** `permission_closure`. */
  method PermissionClosure(selected: set<Item>, deps: map<Item, set<Item>>) returns (closed: set<Item>)
    ensures IsClosure(deps, selected, closed)
  {
    hide Within, Closed;
    closed := selected;
    SelectedIsWithin(deps, selected);
    var expanded := Expanded(deps, closed);
    while expanded != closed
      invariant selected <= closed <= Universe(deps, selected) && Within(deps, selected, closed) &&
        expanded == Expanded(deps, closed)
      decreases Universe(deps, selected) - closed
    {
      ExpandedIsWithin(deps, selected, closed);
      StaysInUniverse(deps, selected, closed);
      closed := expanded;
      expanded := Expanded(deps, closed);
    }
    ExpandedOnceIsClosed(deps, closed);
  }

  lemma StaysInUniverse(deps: map<Item, set<Item>>, selected: set<Item>, closed: set<Item>)
    requires closed <= Universe(deps, selected)
    ensures Expanded(deps, closed) <= Universe(deps, selected)
    ensures Expanded(deps, closed) != closed ==>
      Universe(deps, selected) - Expanded(deps, closed) < Universe(deps, selected) - closed
  {
    if Expanded(deps, closed) != closed {
      var r :| r in Expanded(deps, closed) && r !in closed;
      assert r in Universe(deps, selected) - closed;
    }
  }

  // ---- dependents ----

  /** `dependents`: the selected items that require the given one. `dependents_of` is the same over
      `permission_closure`. */
  method Dependents(identifier: Item, selected: set<Item>, deps: map<Item, set<Item>>) returns (found: set<Item>)
    ensures forall i :: i in found <==> i in selected && i != identifier && Needs(deps, i, identifier)
  {
    found := {};
    var rest := selected - {identifier};
    while rest != {}
      invariant rest <= selected - {identifier}
      invariant forall i :: i in found <==> i in selected - {identifier} - rest && Needs(deps, i, identifier)
    {
      var i :| i in rest;
      var needed := Closure({i}, deps);
      ClosureOfOne(deps, i, needed);
      if identifier in needed { found := found + {i}; }
      rest := rest - {i};
    }
  }

  /** Taking an item away together with its dependents leaves a closed set, and no closed set
      without the item keeps more. */
  lemma RemovalStaysClosed(deps: map<Item, set<Item>>, selected: set<Item>, identifier: Item, dependents: set<Item>)
    requires Closed(deps, selected)
    requires forall i :: i in dependents <==> i in selected && i != identifier && Needs(deps, i, identifier)
    ensures Closed(deps, selected - dependents - {identifier})
    ensures forall s :: s <= selected && identifier !in s && Closed(deps, s) ==>
      s <= selected - dependents - {identifier}
  {
    var kept := selected - dependents - {identifier};
    forall i, r | i in kept && r in Required(deps, i) ensures r in kept {
      NeedsThrough(deps, i, r, identifier);
    }
  }
}
