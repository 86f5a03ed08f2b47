/** The steps of a run of the mailbox consumer of frontend/webui/messaging_live.py, and the order in
    which they may come: connections and their hints, the reconciliations these lead to, and pauses. */
module MessagingSteps {
  import opened MailboxLog
  import opened MessagingPages

  /** A reconciliation from the moment it has the lock: its mode, the cursors between which it worked,
      the pages it completed and what it told the page. */
  datatype Work = Work(summary: bool, from: nat, to: nat, pages: seq<Fetch>, told: seq<Notice>, ended: Ended)

  /** What the task of a run has done: read the checkpoint, looked whether the page is active, waited for
      a hint (with the cursor at that moment), met the end of a connection, reconciled, paused. */
  datatype Step =
    | Loaded(a: Await)
    | Checked(active: bool)
    | Heard(a: Await, active: bool, hint: Hint, cursor: nat)
    | Closed(a: Await)
    | Reconciled(work: Work)
    | Slept(pause: nat, a: Await)

  /** Where a run is: on its connection number `c`, of which `i` hints were heard, with its next pause. */
  datatype Phase =
    | Begin
    | Ready(c: nat, pause: nat)
    | Listening(c: nat, i: nat, pause: nat)
    | Due(c: nat, i: nat, summary: bool)
    | Lost(c: nat, pause: nat)
    | Recovering(c: nat, pause: nat)
    | Resting(c: nat, pause: nat)
    | Over(end: Ended)
    | Astray

  /** An error ends the connection; a cancellation and a refused user end the run. */
  ghost function Failed(error: Error, c: nat, pause: nat): Phase {
    if error == OtherError then Lost(c, pause) else Over(Raised(error))
  }

  ghost function OnHeard(c: nat, i: nat, hint: Hint, cursor: nat): Phase {
    match hint
    case Unknown => Due(c, i + 1, true)
    case Heartbeat => Listening(c, i + 1, 1)
    case BadCursor => Lost(c, 1)
    case Available(h) => if h > cursor then Due(c, i + 1, false) else Listening(c, i + 1, 1)
  }

  /** The one phase to which a step leads; `Astray` if it may not come here. */
  ghost function Moved(p: Phase, s: Step, connections: seq<seq<Hint>>): Phase {
    match (p, s)
    case (Begin, Loaded(a)) => if a == Fails(Cancelled) then Over(Raised(Cancelled)) else Ready(0, 1)
    case (Ready(c, pause), Checked(active)) =>
      if c >= |connections| then Astray else if active then Listening(c, 0, pause) else Over(Inactive)
    case (Listening(c, i, pause), Heard(a, active, hint, cursor)) =>
      if c >= |connections| || i >= |connections[c]| || hint != connections[c][i] then Astray
      else if a.Fails? then Failed(a.error, c, pause)
      else if !active then Over(Inactive)
      else OnHeard(c, i, hint, cursor)
    case (Listening(c, i, pause), Closed(a)) =>
      if c >= |connections| || i < |connections[c]| then Astray
      else if a.Fails? then Failed(a.error, c, pause) else Lost(c, pause)
    case (Due(c, i, summary), Reconciled(w)) =>
      if w.summary != summary then Astray
      else if w.ended.Raised? then Failed(w.ended.error, c, 1) else Listening(c, i, 1)
    case (Lost(c, pause), Checked(active)) => if active then Recovering(c, pause) else Over(Inactive)
    case (Recovering(c, pause), Reconciled(w)) =>
      if !w.summary then Astray
      else if w.ended.Raised? && w.ended.error != OtherError then Over(w.ended) else Resting(c, pause)
    case (Resting(c, pause), Slept(slept, a)) =>
      if slept != pause then Astray
      else if a == Fails(Cancelled) then Over(Raised(Cancelled))
      else Ready(c + 1, if pause > 15 then 30 else 2 * pause)
    case _ => Astray
  }

  ghost function After(steps: seq<Step>, connections: seq<seq<Hint>>): Phase {
    if steps == [] then Begin
    else Moved(After(steps[..|steps| - 1], connections), steps[|steps| - 1], connections)
  }

  lemma OneStep(steps: seq<Step>, s: Step, connections: seq<seq<Hint>>)
    ensures After(steps + [s], connections) == Moved(After(steps, connections), s, connections)
  {
    assert (steps + [s])[..|steps|] == steps;
  }

  lemma AtStart(a: Await, connections: seq<seq<Hint>>)
    ensures AllDone([Loaded(a)])
    ensures After([Loaded(a)], connections) == if a == Fails(Cancelled) then Over(Raised(Cancelled)) else Ready(0, 1)
  {
    OneStep([], Loaded(a), connections);
  }

  // ---- what a reconciliation did ----

  /** Its pages lie side by side between its cursors and are live or not as its mode says, and it told what
      is to be told of their rows, or the first part of it if it did not complete. */
  ghost predicate Done(w: Work) {
    Tiled(w.pages, w.from, w.to) && (forall f :: f in w.pages ==> f.live == !w.summary) &&
    var rows := Gathered(w.pages);
    w.told <= Notices(w.summary, |rows|, Tests(rows)) &&
    (w.ended.Completed? ==> w.told == Notices(w.summary, |rows|, Tests(rows)))
  }

  ghost predicate AllDone(steps: seq<Step>) { forall s :: s in steps && s.Reconciled? ==> Done(s.work) }

  /** One reconciliation more, of this mode and with this end. */
  ghost predicate Worked(before: seq<Step>, after: seq<Step>, summary: bool, e: Ended) {
    |after| == |before| + 1 && after[..|before|] == before && after[|before|].Reconciled? &&
    after[|before|].work.summary == summary && after[|before|].work.ended == e && Done(after[|before|].work)
  }

  lemma MoreDone(steps: seq<Step>, s: Step)
    requires AllDone(steps) && !s.Reconciled?
    ensures AllDone(steps + [s])
  {}

  lemma WorkDone(before: seq<Step>, after: seq<Step>, summary: bool, e: Ended, connections: seq<seq<Hint>>)
    requires Worked(before, after, summary, e)
    ensures AllDone(before) ==> AllDone(after)
    ensures exists w: Work ::
      w.summary == summary && w.ended == e &&
      After(after, connections) == Moved(After(before, connections), Reconciled(w), connections)
  {
    hide Done;
    var s := after[|before|];
    assert after == before + [s];
    OneStep(before, s, connections);
    assert s == Reconciled(s.work);
  }

  /** Whether the page is active is looked up before a connection and after it. */
  lemma Look(steps: seq<Step>, active: bool, connections: seq<seq<Hint>>)
    requires AllDone(steps)
    ensures AllDone(steps + [Checked(active)])
    ensures After(steps + [Checked(active)], connections) ==
      Moved(After(steps, connections), Checked(active), connections)
  {
    OneStep(steps, Checked(active), connections);
  }

  // ---- one connection ----

  /** The phase after part of a connection, by how that part ended. */
  ghost function Then(e: Ended, c: nat, i: nat, pause: nat): Phase {
    match e
    case Completed => Listening(c, i, pause)
    case Inactive => Over(Inactive)
    case Raised(error) => Failed(error, c, pause)
  }

  /** The phase after the whole of it. */
  ghost function Finished(e: Ended, c: nat, pause: nat): Phase {
    match e
    case Completed => Lost(c, pause)
    case Inactive => Over(Inactive)
    case Raised(error) => Failed(error, c, pause)
  }

  /** A hint that calls for a reconciliation. */
  ghost predicate Calls(hint: Hint, cursor: nat) { hint.Unknown? || (hint.Available? && hint.cursor > cursor) }

  /** A hint and what it led to. */
  lemma Answered(steps: seq<Step>, hint: Hint, cursor: nat, later: seq<Step>, e: Ended, connections: seq<seq<Hint>>,
                 c: nat, i: nat, pause: nat)
    requires After(steps, connections) == Listening(c, i, pause) && AllDone(steps)
    requires c < |connections| && i < |connections[c]| && hint == connections[c][i]
    requires var heard := steps + [Heard(Fine, true, hint, cursor)];
      if Calls(hint, cursor) then Worked(heard, later, hint.Unknown?, e)
      else later == heard && e == if hint.BadCursor? then Raised(OtherError) else Completed
    ensures After(later, connections) == Then(if e.Inactive? then Completed else e, c, i + 1, 1) && AllDone(later)
  {
    hide After, Worked, AllDone;
    var s := Heard(Fine, true, hint, cursor);
    OneStep(steps, s, connections);
    MoreDone(steps, s);
    if Calls(hint, cursor) { WorkDone(steps + [s], later, hint.Unknown?, e, connections); }
  }

  /** No hint came: the wait failed or the page had been left. */
  lemma Unheard(steps: seq<Step>, s: Step, connections: seq<seq<Hint>>, c: nat, i: nat, pause: nat)
    requires After(steps, connections) == Listening(c, i, pause) && AllDone(steps) && s.Heard?
    requires c < |connections| && i < |connections[c]| && s.hint == connections[c][i] && (s.a.Fails? || !s.active)
    ensures After(steps + [s], connections) == if s.a.Fails? then Failed(s.a.error, c, pause) else Over(Inactive)
    ensures AllDone(steps + [s])
  {
    hide After;
    OneStep(steps, s, connections);
  }

  /** All hints were heard, and the connection came to its end. */
  lemma AtEnd(steps: seq<Step>, a: Await, connections: seq<seq<Hint>>, c: nat, i: nat, pause: nat)
    requires After(steps, connections) == Listening(c, i, pause) && AllDone(steps)
    requires c < |connections| && i == |connections[c]|
    ensures After(steps + [Closed(a)], connections) ==
      Finished(if a.Fails? then Raised(a.error) else Completed, c, pause)
    ensures AllDone(steps + [Closed(a)])
  {
    hide After;
    OneStep(steps, Closed(a), connections);
  }

  // ---- what the order of the steps means ----

  lemma {:induction false} NeverAstray(steps: seq<Step>, connections: seq<seq<Hint>>, k: nat)
    requires k < |steps| && After(steps, connections) != Astray
    ensures After(steps[..k], connections) != Astray
    ensures After(steps[..k + 1], connections) == Moved(After(steps[..k], connections), steps[k], connections)
    ensures After(steps[..k + 1], connections) != Astray
    ensures k + 1 == |steps| ==> After(steps[..k + 1], connections) == After(steps, connections)
    decreases |steps|
  {
    var n := |steps| - 1;
    if k == n {
      assert steps[..k + 1] == steps;
    } else {
      NeverAstray(steps[..n], connections, k);
      assert steps[..n][..k] == steps[..k] && steps[..n][..k + 1] == steps[..k + 1];
    }
  }

  /** Once the run is over or between connections, a hint above the cursor was followed by a reconciliation
      that shows its messages one by one, an unknown one by a reconciliation with a summary, and any other
      hint by none. */
  lemma HintIsAnswered(steps: seq<Step>, connections: seq<seq<Hint>>, k: nat)
    requires k < |steps| && (After(steps, connections).Over? || After(steps, connections).Ready?)
    requires steps[k].Heard? && steps[k].a.Fine? && steps[k].active
    ensures k + 1 < |steps|
    ensures steps[k + 1].Reconciled? <==>
      steps[k].hint.Unknown? || (steps[k].hint.Available? && steps[k].hint.cursor > steps[k].cursor)
    ensures steps[k + 1].Reconciled? ==> steps[k + 1].work.summary == steps[k].hint.Unknown?
  {
    hide After;
    NeverAstray(steps, connections, k);
    if k + 1 < |steps| { NeverAstray(steps, connections, k + 1); }
  }

  /** Nothing else leads to a reconciliation but the end of a connection, and that to one with a summary. */
  lemma ReconciledAfter(steps: seq<Step>, connections: seq<seq<Hint>>, k: nat)
    requires k < |steps| && After(steps, connections) != Astray && steps[k].Reconciled?
    ensures k > 0 && (
      (steps[k - 1] == Checked(true) && steps[k].work.summary) ||
      (steps[k - 1].Heard? && steps[k - 1].a.Fine? && steps[k - 1].active &&
        match steps[k - 1].hint
        case Unknown => steps[k].work.summary
        case Available(h) => h > steps[k - 1].cursor && !steps[k].work.summary
        case _ => false))
  {
    hide After;
    NeverAstray(steps, connections, k);
    if k == 0 {
      Nothing(steps[..k], connections);
    } else {
      NeverAstray(steps, connections, k - 1);
    }
  }

  lemma Nothing(steps: seq<Step>, connections: seq<seq<Hint>>)
    requires steps == []
    ensures After(steps, connections) == Begin
  {}

  /** A failed wait or reconciliation ends the run if it was a cancellation or a refused user, and then
      with this error; after any other error the run goes on. */
  lemma RefusedIsLast(steps: seq<Step>, connections: seq<seq<Hint>>, k: nat, error: Error)
    requires k < |steps| && After(steps, connections) != Astray
    requires ((steps[k].Heard? || steps[k].Closed?) && steps[k].a == Fails(error)) ||
      (steps[k].Reconciled? && steps[k].work.ended == Raised(error))
    ensures error != OtherError ==> k == |steps| - 1 && After(steps, connections) == Over(Raised(error))
    ensures error == OtherError ==> !After(steps[..k + 1], connections).Over?
  {
    hide After;
    NeverAstray(steps, connections, k);
    if k + 1 < |steps| { NeverAstray(steps, connections, k + 1); }
  }
}
