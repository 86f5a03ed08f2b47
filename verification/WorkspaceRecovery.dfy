/** One pass of `recover` in backend/services/processing_workspace.py over the directories of
    a root, with no other process at work: a held lock stays held during the pass. It may crash anywhere. */
module WorkspaceRecovery {
  import opened Wrappers

  type Name = string
  type Token = string

  const PREFIX: Name := "wathiq-processing-"

  /** What reading receipt.json gives; an unreadable one raises something `recover` lets through. */
  datatype Receipt = Missing | Unreadable | Names(token: Token)

  /** An entry matching the pattern; links and plain files are not directories. */
  datatype Entry = Entry(isDirectory: bool, receipt: Receipt, lockFile: bool, held: bool, content: set<string>)

  datatype Outcome = Returned(removed: nat) | Raised

  /** Where the pass ends before its time at one directory, by a crash or an exception: right after the
      lock was opened, while the content is erased, when the acknowledgement is refused, or while the
      directory is removed, its content being gone. */
  datatype Fault = Early | Erasing(kept: set<string>) | Refused | Removing(receipt: bool, lock: bool)

  /** An unlocked directory whose receipt is its own. */
  predicate Eligible(name: Name, d: Entry) {
    d.isDirectory && !d.held && d.receipt.Names? && name == PREFIX + d.receipt.token
  }

  /** The pass ends here: a fault, or an unreadable receipt. */
  predicate Stops(name: Name, d: Entry, faults: map<Name, Fault>) {
    d.isDirectory &&
    ((name in faults && faults[name].Early?) || (!d.held && d.receipt.Unreadable?) ||
      (Eligible(name, d) && name in faults))
  }

  datatype Visited = Stopped | Skipped | Removed

  function Seen(name: Name, d: Entry, faults: map<Name, Fault>): Visited {
    if Stops(name, d, faults) then Stopped else if Eligible(name, d) then Removed else Skipped
  }

  /** Opening the lock in append mode makes the file. */
  function Opened(d: Entry): Entry { if d.isDirectory then d.(lockFile := true) else d }

  /** What a pass that ends at `name` leaves there. */
  function Left(name: Name, d: Entry, faults: map<Name, Fault>): Entry {
    if !Eligible(name, d) || name !in faults then Opened(d)
    else
      match faults[name]
      case Early => Opened(d)
      case Erasing(kept) => Opened(d).(content := d.content * kept)
      case Refused => Opened(d).(content := {})
      case Removing(receipt, lock) =>
        d.(content := {}, receipt := if receipt then d.receipt else Missing, lockFile := lock)
  }

  /** What it acknowledged there. */
  function LastAck(name: Name, d: Entry, faults: map<Name, Fault>): seq<Token> {
    if Eligible(name, d) && name in faults && faults[name].Removing? then [d.receipt.token] else []
  }

  class Root {
    var dirs: map<Name, Entry>
    var acked: seq<Token>

    constructor (dirs: map<Name, Entry>)
      ensures this.dirs == dirs && acked == []
    {
      this.dirs := dirs;
      acked := [];
    }

    /** The body of the loop: open and try the lock, read the receipt, erase, acknowledge, remove. */
    method Visit(name: Name, faults: map<Name, Fault>) returns (v: Visited)
      requires name in dirs
      modifies this
      ensures v == Seen(name, old(dirs)[name], faults)
      ensures dirs == match v
                      case Stopped => old(dirs)[name := Left(name, old(dirs)[name], faults)]
                      case Skipped => old(dirs)[name := Opened(old(dirs)[name])]
                      case Removed => old(dirs) - {name}
      ensures acked == old(acked) + match v
                                    case Stopped => LastAck(name, old(dirs)[name], faults)
                                    case Skipped => []
                                    case Removed => [old(dirs)[name].receipt.token]
    {
      if !dirs[name].isDirectory {
        assert dirs == dirs[name := dirs[name]];
        return Skipped;
      }
      dirs := dirs[name := dirs[name].(lockFile := true)];
      var fault := if name in faults then Some(faults[name]) else None;
      if fault == Some(Early) {
        return Stopped;
      }
      if dirs[name].held {
        return Skipped;
      }
      match dirs[name].receipt
      case Missing => return Skipped;
      case Unreadable => return Stopped;
      case Names(token) =>
        if name != PREFIX + token {
          return Skipped;
        }
        if fault.Some? && fault.value.Erasing? {
          dirs := dirs[name := dirs[name].(content := dirs[name].content * fault.value.kept)];
          return Stopped;
        }
        dirs := dirs[name := dirs[name].(content := {})];
        if fault == Some(Refused) {
          return Stopped;
        }
        acked := acked + [token];
        if fault.Some? {
          var kept := if fault.value.receipt then dirs[name].receipt else Missing;
          dirs := dirs[name := dirs[name].(receipt := kept, lockFile := fault.value.lock)];
          return Stopped;
        }
        dirs := dirs - {name};
        return Removed;
    }

    /** `names` is the sorted listing of the root. The count is the number of directories removed. */
    method Recover(names: seq<Name>, limit: nat, faults: map<Name, Fault>) returns (r: Outcome)
      requires Listing(names, dirs)
      modifies this
      ensures var batch := names[..Least(limit, |names|)];
        var stop := FirstStop(batch, old(dirs), faults);
        r == (if stop == |batch| then Returned(|Acks(batch, old(dirs))|) else Raised) &&
        acked == old(acked) + AcksUpTo(batch, old(dirs), stop, faults) &&
        dirs == Passed(old(dirs), batch, stop, faults)
      ensures r.Returned? ==> r.removed == |old(dirs)| - |dirs|
      ensures r.Raised? <==>
        exists i :: 0 <= i < |names| && i < limit && (
          var n, d := names[i], old(dirs)[names[i]];
          d.isDirectory && ((n in faults && faults[n].Early?) ||
            (!d.held && (d.receipt.Unreadable? || (n in faults && d.receipt.Names? && n == PREFIX + d.receipt.token)))))
      ensures forall n :: n in old(dirs) && (var d := old(dirs)[n];
          !d.isDirectory || d.held || !d.receipt.Names? || n != PREFIX + d.receipt.token) ==>
        n in dirs && (dirs[n] == old(dirs)[n] || dirs[n] == old(dirs)[n].(lockFile := true))
      ensures |acked| >= |old(acked)| && forall t :: t in acked[|old(acked)|..] ==>
        PREFIX + t in old(dirs) && old(dirs)[PREFIX + t].isDirectory && !old(dirs)[PREFIX + t].held &&
        old(dirs)[PREFIX + t].receipt == Names(t) && (PREFIX + t in dirs ==> dirs[PREFIX + t].content == {})
      ensures r.Returned? ==> forall i :: 0 <= i < |names| && i < limit ==>
        var d := old(dirs)[names[i]];
        if d.isDirectory && !d.held && d.receipt.Names? && names[i] == PREFIX + d.receipt.token
        then names[i] !in dirs && d.receipt.token in acked[|old(acked)|..]
        else names[i] in dirs && dirs[names[i]] == d.(lockFile := d.lockFile || d.isDirectory)
      ensures forall n :: n in old(dirs) && n !in names ==> n in dirs && dirs[n] == old(dirs)[n]
      ensures forall i :: limit <= i < |names| ==> names[i] in dirs && dirs[names[i]] == old(dirs)[names[i]]
    {
      hide Passed, FirstStop, Acks, AcksUpTo, Listing;
      var batch := names[..Least(limit, |names|)];
      ghost var before := dirs;
      StartListed(names, dirs, Least(limit, |names|));
      r := VisitAll(batch, faults);
      ByFields(names, before, Least(limit, |names|), FirstStop(batch, before, faults), faults);
      StopsByFields(names, before, Least(limit, |names|), faults);
    }

    /** The loop. */
    method VisitAll(batch: seq<Name>, faults: map<Name, Fault>) returns (r: Outcome)
      requires Listing(batch, dirs)
      modifies this
      ensures var stop := FirstStop(batch, old(dirs), faults);
        r == (if stop == |batch| then Returned(|Acks(batch, old(dirs))|) else Raised) &&
        acked == old(acked) + AcksUpTo(batch, old(dirs), stop, faults) &&
        dirs == Passed(old(dirs), batch, stop, faults)
      ensures r.Returned? ==> r.removed == |old(dirs)| - |dirs|
    {
      hide Pass, Passed, FirstStop, Acks, AcksUpTo, Seen, Left, LastAck, Opened, Eligible, Listing;
      ghost var before, ackedBefore := dirs, acked;
      StartListed(batch, dirs, |batch|);
      PassIs(before, ackedBefore, batch, faults, 0);
      var removed := 0;
      var i := 0;
      assert batch[0..] == batch;
      while i < |batch|
        invariant i <= |batch| && Listing(batch[i..], dirs) && removed == |before| - |dirs|
        invariant Pass(dirs, acked, batch[i..], faults, removed) == Pass(before, ackedBefore, batch, faults, 0)
      {
        assert batch[i..][0] == batch[i] && batch[i..][1..] == batch[i + 1..];
        ghost var now, ackedNow := dirs, acked;
        FirstListed(batch[i..], now);
        var v := Visit(batch[i], faults);
        PassVisited(batch[i..], now, ackedNow, faults, removed, v, dirs, acked);
        if v.Stopped? {
          return Raised;
        }
        removed := removed + if v.Removed? then 1 else 0;
        i := i + 1;
      }
      assert batch[i..] == [];
      PassEnds(dirs, acked, faults, removed);
      return Returned(removed);
    }
  }

  /** What a pass over the first `k` names leaves, in terms of the entries alone. A directory with a held
      lock, or without a receipt of its own, keeps its content and its receipt, and is not acknowledged. */
  lemma ByFields(names: seq<Name>, dirs: map<Name, Entry>, k: nat, stop: nat, faults: map<Name, Fault>)
    requires Listing(names, dirs) && stop <= k <= |names| && forall n :: n in names[..k] ==> n in dirs
    ensures var after, acked := Passed(dirs, names[..k], stop, faults), AcksUpTo(names[..k], dirs, stop, faults);
      (forall n :: n in dirs && (var d := dirs[n];
          !d.isDirectory || d.held || !d.receipt.Names? || n != PREFIX + d.receipt.token) ==>
        n in after && (after[n] == dirs[n] || after[n] == dirs[n].(lockFile := true))) &&
      (forall t :: t in acked ==>
        var n := PREFIX + t;
        n in dirs && dirs[n].isDirectory && !dirs[n].held && dirs[n].receipt == Names(t) &&
        (n in after ==> after[n].content == {})) &&
      (stop == k ==> forall i :: 0 <= i < k ==>
        var d := dirs[names[i]];
        if d.isDirectory && !d.held && d.receipt.Names? && names[i] == PREFIX + d.receipt.token
        then names[i] !in after && d.receipt.token in acked
        else names[i] in after && after[names[i]] == d.(lockFile := d.lockFile || d.isDirectory)) &&
      (forall n :: n in dirs && n !in names ==> n in after && after[n] == dirs[n]) &&
      forall i :: k <= i < |names| ==> names[i] in after && after[names[i]] == dirs[names[i]]
  {
    hide Acks, AcksUpTo, Listing;
    var batch := names[..k];
    AckedByFields(batch, dirs, stop, faults);
    forall i | k <= i < |names| ensures names[i] in dirs && names[i] !in batch {
      NotInBatch(names, dirs, k, i);
    }
    if stop == k {
      forall i | 0 <= i < k && Eligible(names[i], dirs[names[i]])
        ensures dirs[names[i]].receipt.token in AcksUpTo(batch, dirs, stop, faults)
      {
        assert batch[i] == names[i];
        AllAcked(batch, dirs, faults, names[i]);
      }
    }
  }

  /** A pass is stopped by a failure at a directory, or an unreadable receipt, and by nothing else. */
  lemma StopsByFields(names: seq<Name>, dirs: map<Name, Entry>, k: nat, faults: map<Name, Fault>)
    requires k <= |names| && (forall n :: n in names ==> n in dirs) && forall n :: n in names[..k] ==> n in dirs
    ensures FirstStop(names[..k], dirs, faults) < k <==>
      exists i :: 0 <= i < k && (
        var n, d := names[i], dirs[names[i]];
        d.isDirectory && ((n in faults && faults[n].Early?) ||
          (!d.held && (d.receipt.Unreadable? || (n in faults && d.receipt.Names? && n == PREFIX + d.receipt.token)))))
  {
    var batch := names[..k];
    FirstStopIs(batch, dirs, faults);
    assert forall i :: 0 <= i < k ==> batch[i] == names[i];
  }

  lemma {:induction false} FirstStopIs(batch: seq<Name>, dirs: map<Name, Entry>, faults: map<Name, Fault>)
    requires forall n :: n in batch ==> n in dirs
    ensures var k := FirstStop(batch, dirs, faults);
      (k < |batch| ==> Stops(batch[k], dirs[batch[k]], faults)) &&
      forall i :: 0 <= i < k ==> !Stops(batch[i], dirs[batch[i]], faults)
  {
    hide Stops;
    if batch != [] && !Stops(batch[0], dirs[batch[0]], faults) {
      FirstStopIs(batch[1..], dirs, faults);
      var k := FirstStop(batch, dirs, faults);
      forall i | 0 <= i < k ensures !Stops(batch[i], dirs[batch[i]], faults) {
        if i > 0 { assert batch[i] == batch[1..][i - 1]; }
      }
    }
  }

  lemma NotInBatch(names: seq<Name>, dirs: map<Name, Entry>, k: nat, i: nat)
    requires Listing(names, dirs) && k <= i < |names|
    ensures names[i] in dirs && names[i] !in names[..k]
  {}

  lemma AllAcked(batch: seq<Name>, dirs: map<Name, Entry>, faults: map<Name, Fault>, n: Name)
    requires (forall m :: m in batch ==> m in dirs) && n in batch && Eligible(n, dirs[n])
    ensures dirs[n].receipt.token in AcksUpTo(batch, dirs, |batch|, faults)
  {
    hide Acks, Eligible;
    assert batch[..|batch|] == batch;
    AcksHas(batch, dirs, n);
  }

  /** What is acknowledged was erased before, wherever the pass ended. */
  lemma AckedByFields(batch: seq<Name>, dirs: map<Name, Entry>, stop: nat, faults: map<Name, Fault>)
    requires stop <= |batch| && forall n :: n in batch ==> n in dirs
    ensures forall t :: t in AcksUpTo(batch, dirs, stop, faults) ==>
      var n, after := PREFIX + t, Passed(dirs, batch, stop, faults);
      n in dirs && dirs[n].isDirectory && !dirs[n].held && dirs[n].receipt == Names(t) &&
      (n in after ==> after[n].content == {})
  {
    hide Acks;
    AcksByFields(batch[..stop], dirs);
  }

  lemma {:induction false} AcksByFields(batch: seq<Name>, dirs: map<Name, Entry>)
    requires forall n :: n in batch ==> n in dirs
    ensures forall t :: t in Acks(batch, dirs) ==>
      var n := PREFIX + t; n in batch && dirs[n].isDirectory && !dirs[n].held && dirs[n].receipt == Names(t)
  {
    if batch != [] { AcksByFields(batch[1..], dirs); }
  }

  lemma StartListed(names: seq<Name>, dirs: map<Name, Entry>, k: nat)
    requires Listing(names, dirs) && k <= |names|
    ensures Listing(names[..k], dirs) && (forall n :: n in names[..k] ==> n in dirs)
    ensures forall n :: n in names ==> n in dirs
  {}

  lemma FirstListed(batch: seq<Name>, dirs: map<Name, Entry>)
    requires Listing(batch, dirs) && batch != []
    ensures batch[0] in dirs
  {}

  lemma PassEnds(dirs: map<Name, Entry>, acked: seq<Token>, faults: map<Name, Fault>, removed: nat)
    ensures Listing([], dirs) && Pass(dirs, acked, [], faults, removed) == Passing(dirs, acked, Returned(removed))
  {}

  /** What a visit left is what the rest of the pass starts from. */
  lemma PassVisited(batch: seq<Name>, dirs: map<Name, Entry>, acked: seq<Token>, faults: map<Name, Fault>, removed: nat,
                    v: Visited, dirs': map<Name, Entry>, acked': seq<Token>)
    requires Listing(batch, dirs) && batch != [] && batch[0] in dirs
    requires v == Seen(batch[0], dirs[batch[0]], faults)
    requires dirs' == match v
                      case Stopped => dirs[batch[0] := Left(batch[0], dirs[batch[0]], faults)]
                      case Skipped => dirs[batch[0] := Opened(dirs[batch[0]])]
                      case Removed => dirs - {batch[0]}
    requires acked' == acked + match v
                               case Stopped => LastAck(batch[0], dirs[batch[0]], faults)
                               case Skipped => []
                               case Removed => [dirs[batch[0]].receipt.token]
    ensures v.Stopped? ==> Pass(dirs, acked, batch, faults, removed) == Passing(dirs', acked', Raised)
    ensures !v.Stopped? ==>
      var gone := if v.Removed? then 1 else 0;
      Listing(batch[1..], dirs') && |dirs'| == |dirs| - gone &&
      Pass(dirs, acked, batch, faults, removed) == Pass(dirs', acked', batch[1..], faults, removed + gone)
  {
    hide Stops, Eligible, Left, LastAck, Opened, Listing;
    if !v.Stopped? {
      RestListed(batch, dirs, dirs');
      OneGone(dirs, dirs', batch[0], v.Removed?);
      assert acked + [] == acked;
    }
  }

  lemma OneGone(dirs: map<Name, Entry>, next: map<Name, Entry>, n: Name, removed: bool)
    requires n in dirs && if removed then next == dirs - {n} else next.Keys == dirs.Keys
    ensures |next| == |dirs| - if removed then 1 else 0
  {
    assert |next| == |next.Keys| && |dirs| == |dirs.Keys|;
    if removed { assert next.Keys == dirs.Keys - {n}; }
  }

  // ---- what a pass does, as functions of the state before it ----

  function Least(a: nat, b: nat): nat { if a < b then a else b }

  /** Names of existing entries, each once. */
  ghost predicate Listing(names: seq<Name>, dirs: map<Name, Entry>) {
    (forall i, j :: 0 <= i < j < |names| ==> names[i] != names[j]) && (forall n :: n in names ==> n in dirs)
  }

  datatype Passing = Passing(dirs: map<Name, Entry>, acked: seq<Token>, outcome: Outcome)

  /** The rest of the pass, entry by entry. */
  ghost function Pass(dirs: map<Name, Entry>, acked: seq<Token>, batch: seq<Name>, faults: map<Name, Fault>,
      removed: nat): Passing
    requires Listing(batch, dirs)
    decreases |batch|
  {
    if batch == [] then Passing(dirs, acked, Returned(removed))
    else
      var n, d := batch[0], dirs[batch[0]];
      match Seen(n, d, faults)
      case Stopped => Passing(dirs[n := Left(n, d, faults)], acked + LastAck(n, d, faults), Raised)
      case Skipped => Pass(dirs[n := Opened(d)], acked, batch[1..], faults, removed)
      case Removed => Pass(dirs - {n}, acked + [d.receipt.token], batch[1..], faults, removed + 1)
  }

  /** Index of the first entry that stops the pass, or the length. */
  function FirstStop(batch: seq<Name>, dirs: map<Name, Entry>, faults: map<Name, Fault>): (k: nat)
    requires forall n :: n in batch ==> n in dirs
    ensures k <= |batch|
  {
    if batch == [] || Stops(batch[0], dirs[batch[0]], faults) then 0
    else 1 + FirstStop(batch[1..], dirs, faults)
  }

  /** The tokens of the eligible entries, in order. */
  function Acks(batch: seq<Name>, dirs: map<Name, Entry>): seq<Token>
    requires forall n :: n in batch ==> n in dirs
  {
    if batch == [] then []
    else (if Eligible(batch[0], dirs[batch[0]]) then [dirs[batch[0]].receipt.token] else []) + Acks(batch[1..], dirs)
  }

  /** All that a pass acknowledged that ended at `stop`. */
  function AcksUpTo(batch: seq<Name>, dirs: map<Name, Entry>, stop: nat, faults: map<Name, Fault>): seq<Token>
    requires stop <= |batch| && forall n :: n in batch ==> n in dirs
  {
    Acks(batch[..stop], dirs) + if stop < |batch| then LastAck(batch[stop], dirs[batch[stop]], faults) else []
  }

  /** The state after a pass that ended at `stop`: the eligible entries before it are gone, the others
      have a lock file, and at `stop` the pass left its work half done. */
  function Passed(dirs: map<Name, Entry>, batch: seq<Name>, stop: nat, faults: map<Name, Fault>): map<Name, Entry>
    requires stop <= |batch|
  {
    map n | n in dirs && !(n in batch[..stop] && Eligible(n, dirs[n])) ::
      if n in batch[..stop] then Opened(dirs[n])
      else if stop < |batch| && n == batch[stop] then Left(n, dirs[n], faults) else dirs[n]
  }

  lemma RestListed(batch: seq<Name>, dirs: map<Name, Entry>, next: map<Name, Entry>)
    requires Listing(batch, dirs) && batch != [] && dirs.Keys - {batch[0]} <= next.Keys
    ensures batch[0] in dirs && batch[0] !in batch[1..] && Listing(batch[1..], next)
  {
    var rest := batch[1..];
    forall i | 0 <= i < |rest| ensures rest[i] != batch[0] && rest[i] in next {
      assert rest[i] == batch[i + 1] && rest[i] in dirs.Keys - {batch[0]};
    }
  }

  lemma Frame(batch: seq<Name>, dirs: map<Name, Entry>, other: map<Name, Entry>, faults: map<Name, Fault>)
    requires forall n :: n in batch ==> n in dirs && n in other && dirs[n] == other[n]
    ensures FirstStop(batch, dirs, faults) == FirstStop(batch, other, faults)
    ensures Acks(batch, dirs) == Acks(batch, other)
  {}

  /** `Pass` in closed form. */
  lemma {:induction false} PassIs(dirs: map<Name, Entry>, acked: seq<Token>, batch: seq<Name>, faults: map<Name, Fault>,
      removed: nat)
    requires Listing(batch, dirs)
    ensures var stop := FirstStop(batch, dirs, faults);
      Pass(dirs, acked, batch, faults, removed) ==
      Passing(Passed(dirs, batch, stop, faults), acked + AcksUpTo(batch, dirs, stop, faults),
              if stop == |batch| then Returned(removed + |Acks(batch, dirs)|) else Raised)
    decreases |batch|
  {
    hide Pass, Passed, Acks, AcksUpTo, Eligible, Stops, Opened, Left;
    var stop := FirstStop(batch, dirs, faults);
    if stop == 0 {
      PassStops(dirs, acked, batch, faults, removed);
    } else {
      var rest := batch[1..];
      var next, more := PassStep(dirs, acked, batch, faults, removed);
      Frame(rest, dirs, next, faults);
      AcksFrame(rest, dirs, next, faults, stop - 1);
      PassedNext(dirs, batch, stop, faults);
      AcksUpToNext(dirs, batch, stop, faults);
      AcksNext(dirs, batch, |batch|);
      assert rest[..|batch| - 1] == rest && batch[..|batch|] == batch;
      PassIs(next, acked + more, rest, faults, removed + |more|);
      var last := AcksUpTo(rest, next, stop - 1, faults);
      assert (acked + more) + last == acked + (more + last);
    }
  }

  lemma PassStops(dirs: map<Name, Entry>, acked: seq<Token>, batch: seq<Name>, faults: map<Name, Fault>, removed: nat)
    requires Listing(batch, dirs) && FirstStop(batch, dirs, faults) == 0
    ensures Pass(dirs, acked, batch, faults, removed) ==
            Passing(Passed(dirs, batch, 0, faults), acked + AcksUpTo(batch, dirs, 0, faults),
                    if batch == [] then Returned(removed + |Acks(batch, dirs)|) else Raised)
  {
    hide Left, LastAck;
    assert batch[..0] == [];
    if batch == [] {
      assert Passed(dirs, batch, 0, faults) == dirs && acked + [] == acked;
    } else {
      var last := LastAck(batch[0], dirs[batch[0]], faults);
      assert Passed(dirs, batch, 0, faults) == dirs[batch[0] := Left(batch[0], dirs[batch[0]], faults)];
      assert [] + last == last;
    }
  }

  lemma PassStep(dirs: map<Name, Entry>, acked: seq<Token>, batch: seq<Name>, faults: map<Name, Fault>, removed: nat)
    returns (next: map<Name, Entry>, more: seq<Token>)
    requires Listing(batch, dirs) && batch != [] && FirstStop(batch, dirs, faults) != 0
    ensures Listing(batch[1..], next) && batch[0] in dirs && batch[0] !in batch[1..]
    ensures var n, d := batch[0], dirs[batch[0]];
      if Eligible(n, d) then next == dirs - {n} && more == [d.receipt.token]
      else next == dirs[n := Opened(d)] && more == []
    ensures forall m :: m in batch[1..] ==> m in dirs && m in next && dirs[m] == next[m]
    ensures Pass(dirs, acked, batch, faults, removed) == Pass(next, acked + more, batch[1..], faults, removed + |more|)
  {
    hide Opened, Left;
    var n, d := batch[0], dirs[batch[0]];
    RestListed(batch, dirs, dirs);
    next := if Eligible(n, d) then dirs - {n} else dirs[n := Opened(d)];
    more := if Eligible(n, d) then [d.receipt.token] else [];
    RestListed(batch, dirs, next);
    assert acked + [] == acked;
  }

  lemma AcksFrame(batch: seq<Name>, dirs: map<Name, Entry>, other: map<Name, Entry>, faults: map<Name, Fault>,
                  stop: nat)
    requires stop <= |batch| && forall n :: n in batch ==> n in dirs && n in other && dirs[n] == other[n]
    ensures AcksUpTo(batch, dirs, stop, faults) == AcksUpTo(batch, other, stop, faults)
  {
    Frame(batch[..stop], dirs, other, faults);
  }

  lemma AcksUpToNext(dirs: map<Name, Entry>, batch: seq<Name>, stop: nat, faults: map<Name, Fault>)
    requires 0 < stop <= |batch| && forall n :: n in batch ==> n in dirs
    ensures AcksUpTo(batch, dirs, stop, faults) ==
            (if Eligible(batch[0], dirs[batch[0]]) then [dirs[batch[0]].receipt.token] else []) +
            AcksUpTo(batch[1..], dirs, stop - 1, faults)
  {
    hide Eligible, Acks, LastAck;
    AcksNext(dirs, batch, stop);
    assert stop < |batch| ==> batch[1..][stop - 1] == batch[stop];
  }

  lemma AcksNext(dirs: map<Name, Entry>, batch: seq<Name>, stop: nat)
    requires 0 < stop <= |batch| && forall n :: n in batch ==> n in dirs
    ensures Acks(batch[..stop], dirs) ==
            (if Eligible(batch[0], dirs[batch[0]]) then [dirs[batch[0]].receipt.token] else []) +
              Acks(batch[1..][..stop - 1], dirs)
  {
    hide Eligible;
    assert batch[..stop][1..] == batch[1..][..stop - 1];
  }

  lemma PassedNext(dirs: map<Name, Entry>, batch: seq<Name>, stop: nat, faults: map<Name, Fault>)
    requires 0 < stop <= |batch| && batch[0] in dirs && batch[0] !in batch[1..]
    ensures var n := batch[0];
      Passed(dirs, batch, stop, faults) ==
      Passed(if Eligible(n, dirs[n]) then dirs - {n} else dirs[n := Opened(dirs[n])], batch[1..], stop - 1, faults)
  {
    assert batch[..stop] == [batch[0]] + batch[1..][..stop - 1];
  }

  // ---- what recovery promises ----

  /** A pass that covers the listing and meets no exception removes exactly the directories that are
      not locked and whose receipt is their own, keeps receipt and content of all other entries,
      acknowledges each that it removes and no other, and as many as it removes. */
  lemma CompletePass(dirs: map<Name, Entry>, names: seq<Name>, faults: map<Name, Fault>)
    requires Listing(names, dirs) && (forall n :: n in dirs ==> n in names)
    requires FirstStop(names, dirs, faults) == |names|
    ensures var after := Passed(dirs, names, |names|, faults);
      (forall n :: n in dirs ==> var d := dirs[n];
        (n !in after <==> d.isDirectory && !d.held && d.receipt.Names? && n == PREFIX + d.receipt.token) &&
        (n !in after ==> d.receipt.token in Acks(names, dirs))) &&
      (forall n :: n in after ==>
        n in dirs && after[n].content == dirs[n].content && after[n].receipt == dirs[n].receipt) &&
      (forall t :: t in Acks(names, dirs) ==> PREFIX + t in dirs && PREFIX + t !in after) &&
      (forall n :: n in after ==> !Eligible(n, after[n])) && |Acks(names, dirs)| == |dirs| - |after|
  {
    hide Eligible, Acks, Passed, Listing, FirstStop;
    assert forall n :: n in names <==> n in dirs by {
      StartListed(names, dirs, |names|);
      assert names[..|names|] == names;
    }
    RemovedCount(dirs, names, faults);
    CompleteKeeps(dirs, names, faults);
    AcksByFields(names, dirs);
    forall n | n in dirs && Eligible(n, dirs[n])
      ensures dirs[n].receipt.Names? && dirs[n].receipt.token in Acks(names, dirs)
    {
      AcksHas(names, dirs, n);
      OwnReceipt(n, dirs[n]);
    }
    forall n | n in dirs ensures Eligible(n, dirs[n]) <==>
      dirs[n].isDirectory && !dirs[n].held && dirs[n].receipt.Names? && n == PREFIX + dirs[n].receipt.token
    {
      OwnReceipt(n, dirs[n]);
    }
  }

  lemma OwnReceipt(n: Name, d: Entry)
    ensures Eligible(n, d) <==> d.isDirectory && !d.held && d.receipt.Names? && n == PREFIX + d.receipt.token
  {}

  lemma CompleteKeeps(dirs: map<Name, Entry>, names: seq<Name>, faults: map<Name, Fault>)
    requires forall n :: n in names <==> n in dirs
    ensures var after := Passed(dirs, names, |names|, faults);
      (forall n :: n in dirs ==> (n !in after <==> Eligible(n, dirs[n]))) &&
      (forall n :: n in after ==>
        n in dirs && after[n].content == dirs[n].content && after[n].receipt == dirs[n].receipt) &&
      (forall n :: n in after ==> !Eligible(n, after[n]))
  {
    assert names[..|names|] == names;
  }

  lemma {:induction false} RemovedCount(dirs: map<Name, Entry>, batch: seq<Name>, faults: map<Name, Fault>)
    requires Listing(batch, dirs)
    ensures |Acks(batch, dirs)| == |dirs| - |Passed(dirs, batch, |batch|, faults)|
    decreases |batch|
  {
    hide Passed, Eligible;
    if batch == [] {
      NothingPassed(dirs, faults);
    } else {
      var n := batch[0];
      var next := if Eligible(n, dirs[n]) then dirs - {n} else dirs[n := Opened(dirs[n])];
      RestListed(batch, dirs, next);
      PassedNext(dirs, batch, |batch|, faults);
      Frame(batch[1..], dirs, next, faults);
      OneGone(dirs, next, n, Eligible(n, dirs[n]));
      RemovedCount(next, batch[1..], faults);
    }
  }

  lemma NothingPassed(dirs: map<Name, Entry>, faults: map<Name, Fault>)
    ensures Passed(dirs, [], 0, faults) == dirs
  {}

  /** What is left of an eligible directory `d`. */
  predicate Resumes(d: Entry, n: Name, after: map<Name, Entry>, acked: seq<Token>)
    requires d.receipt.Names?
  {
    if n !in after then d.receipt.token in acked
    else after[n].content <= d.content &&
         (Eligible(n, after[n]) || (after[n].content == {} && d.receipt.token in acked))
  }

  /** Wherever and however a pass ends, each eligible directory is gone and acknowledged, or is still
      eligible, or is acknowledged and has no content; content only gets less. */
  lemma StoppedPassResumes(dirs: map<Name, Entry>, batch: seq<Name>, faults: map<Name, Fault>)
    requires forall n :: n in batch ==> n in dirs
    ensures var stop := FirstStop(batch, dirs, faults);
      var after, acked := Passed(dirs, batch, stop, faults), AcksUpTo(batch, dirs, stop, faults);
      forall n :: n in dirs && Eligible(n, dirs[n]) ==> Resumes(dirs[n], n, after, acked)
  {
    hide Acks, AcksUpTo, Passed, FirstStop, Resumes;
    var stop := FirstStop(batch, dirs, faults);
    forall n | n in dirs && Eligible(n, dirs[n])
      ensures Resumes(dirs[n], n, Passed(dirs, batch, stop, faults), AcksUpTo(batch, dirs, stop, faults))
    {
      ResumesAt(dirs, batch, stop, faults, n);
    }
  }

  lemma ResumesAt(dirs: map<Name, Entry>, batch: seq<Name>, stop: nat, faults: map<Name, Fault>, n: Name)
    requires (forall m :: m in batch ==> m in dirs) && stop <= |batch| && n in dirs && Eligible(n, dirs[n])
    ensures Resumes(dirs[n], n, Passed(dirs, batch, stop, faults), AcksUpTo(batch, dirs, stop, faults))
  {
    hide Acks;
    if n in batch[..stop] { AcksHas(batch[..stop], dirs, n); }
  }

  /** A later pass that covers the listing and is not stopped finishes the work: of the directories
      that were eligible before the first pass none has content, and all are acknowledged. */
  lemma LaterPassFinishes(dirs: map<Name, Entry>, batch: seq<Name>, faults: map<Name, Fault>, names: seq<Name>,
      later: map<Name, Fault>)
    requires forall n :: n in batch ==> n in dirs
    requires var after := Passed(dirs, batch, FirstStop(batch, dirs, faults), faults);
      Listing(names, after) && (forall n :: n in after ==> n in names) && FirstStop(names, after, later) == |names|
    ensures var stop := FirstStop(batch, dirs, faults);
      var after := Passed(dirs, batch, stop, faults);
      var final := Passed(after, names, |names|, later);
      forall n :: n in dirs && Eligible(n, dirs[n]) ==>
        (n in final ==> final[n].content == {}) && (n in after && after[n].content != {} ==> n !in final) &&
        dirs[n].receipt.token in AcksUpTo(batch, dirs, stop, faults) + Acks(names, after)
  {
    hide Acks, AcksUpTo, Passed, FirstStop;
    var stop := FirstStop(batch, dirs, faults);
    var after := Passed(dirs, batch, stop, faults);
    StoppedPassResumes(dirs, batch, faults);
    CompletePass(after, names, later);
    forall n | n in dirs && Eligible(n, dirs[n]) && n in after && Eligible(n, after[n])
      ensures dirs[n].receipt.token in Acks(names, after)
    {
      ReceiptStays(dirs, batch, stop, faults, n);
      AcksHas(names, after, n);
    }
  }

  lemma ReceiptStays(dirs: map<Name, Entry>, batch: seq<Name>, stop: nat, faults: map<Name, Fault>, n: Name)
    requires stop <= |batch| && n in Passed(dirs, batch, stop, faults) &&
      Eligible(n, Passed(dirs, batch, stop, faults)[n])
    ensures n in dirs && Passed(dirs, batch, stop, faults)[n].receipt == dirs[n].receipt
  {}

  lemma {:induction false} AcksHas(batch: seq<Name>, dirs: map<Name, Entry>, n: Name)
    requires (forall m :: m in batch ==> m in dirs) && n in batch && Eligible(n, dirs[n])
    ensures dirs[n].receipt.token in Acks(batch, dirs)
  {
    if batch[0] != n { AcksHas(batch[1..], dirs, n); }
  }
}
