/** Wall times and instants in the working time zone, after frontend/webui/locale_services.py.
    A zone is a list of offset transitions, read as `zoneinfo` reads them: `fold` is the one of
    PEP 495. Times are whole seconds. */
module WallTime {

  datatype Shift = Shift(at: int, offset: int)

  /** `base` holds before the first transition, `shifts[i].offset` from `shifts[i].at` on. */
  datatype Zone = Zone(base: int, shifts: seq<Shift>)

  datatype Choice = Unspecified | Earlier | Later

  datatype Outcome = Instant(at: int) | Nonexistent | Ambiguous

  /** The offset once `k` transitions have passed. */
  function Offset(z: Zone, k: nat): int
    requires k <= |z.shifts|
  {
    if k == 0 then z.base else z.shifts[k - 1].offset
  }

  function Lower(z: Zone, i: nat): int
    requires i < |z.shifts|
  {
    z.shifts[i].at + if Offset(z, i) < Offset(z, i + 1) then Offset(z, i) else Offset(z, i + 1)
  }

  function Upper(z: Zone, i: nat): int
    requires i < |z.shifts|
  {
    z.shifts[i].at + if Offset(z, i) < Offset(z, i + 1) then Offset(z, i + 1) else Offset(z, i)
  }

  /** The wall times that one transition skips or repeats lie before those of the next one. */
  ghost predicate WellSpaced(z: Zone) {
    forall i, j :: 0 <= i < j < |z.shifts| ==> z.shifts[i].at < z.shifts[j].at && Upper(z, i) <= Lower(z, j)
  }

  /** How many of the first `k` transitions have happened at `t`. */
  function Passed(z: Zone, t: int, k: nat): (n: nat)
    requires k <= |z.shifts|
    ensures n <= k && (n > 0 ==> z.shifts[n - 1].at <= t) && forall i :: n <= i < k ==> t < z.shifts[i].at
  {
    if k == 0 || z.shifts[k - 1].at <= t then k else Passed(z, t, k - 1)
  }

  /** `utc_instant_to_working`: the wall time shown at an instant. */
  function Working(z: Zone, t: int): int { t + Offset(z, Passed(z, t, |z.shifts|)) }

  /** Before the first transition the wall time runs ahead of the instant by the base offset. */
  lemma WorkingBefore(z: Zone, t: int)
    requires forall i :: 0 <= i < |z.shifts| ==> t < z.shifts[i].at
    ensures Working(z, t) == t + z.base
  {
    LastPassed(z, t);
  }

  /** And then by the offset of the last transition that has happened. */
  lemma WorkingAfter(z: Zone, t: int, i: nat)
    requires i < |z.shifts| && z.shifts[i].at <= t && forall j :: i < j < |z.shifts| ==> t < z.shifts[j].at
    ensures Working(z, t) == t + z.shifts[i].offset
  {
    LastPassed(z, t);
  }

  lemma LastPassed(z: Zone, t: int)
    ensures var n := Passed(z, t, |z.shifts|);
      (n == 0 || z.shifts[n - 1].at <= t) && forall i :: n <= i < |z.shifts| ==> t < z.shifts[i].at
  {}

  function Edge(z: Zone, fold: bool, i: nat): int
    requires i < |z.shifts|
  {
    if fold then Lower(z, i) else Upper(z, i)
  }

  /** How many of the first `k` transitions count as past for a wall time with this fold. */
  function PassedOnWall(z: Zone, w: int, fold: bool, k: nat): (n: nat)
    requires k <= |z.shifts|
    ensures n <= k && (n > 0 ==> Edge(z, fold, n - 1) <= w) && forall i :: n <= i < k ==> w < Edge(z, fold, i)
  {
    if k == 0 || Edge(z, fold, k - 1) <= w then k else PassedOnWall(z, w, fold, k - 1)
  }

  /** `utcoffset` of a wall time with a fold. */
  function WallOffset(z: Zone, w: int, fold: bool): int { Offset(z, PassedOnWall(z, w, fold, |z.shifts|)) }

  // ---- which instants show a wall time ----

  lemma PassedIs(z: Zone, t: int, k: nat)
    requires k <= |z.shifts|
    requires (forall i :: 0 <= i < k ==> z.shifts[i].at <= t) && forall i :: k <= i < |z.shifts| ==> t < z.shifts[i].at
    ensures Passed(z, t, |z.shifts|) == k
  {
    var n := Passed(z, t, |z.shifts|);
    assert n < |z.shifts| ==> t < z.shifts[n].at;
  }

  lemma PassedOnWallIs(z: Zone, w: int, fold: bool, k: nat)
    requires k <= |z.shifts|
    requires (forall i :: 0 <= i < k ==> Edge(z, fold, i) <= w) &&
      forall i :: k <= i < |z.shifts| ==> w < Edge(z, fold, i)
    ensures PassedOnWall(z, w, fold, |z.shifts|) == k
  {
    var n := PassedOnWall(z, w, fold, |z.shifts|);
    assert n < |z.shifts| ==> w < Edge(z, fold, n);
  }

  lemma Edges(z: Zone, i: int)
    ensures 0 <= i < |z.shifts| ==>
      Lower(z, i) <= z.shifts[i].at + Offset(z, i) <= Upper(z, i) &&
        Lower(z, i) <= z.shifts[i].at + Offset(z, i + 1) <= Upper(z, i)
  {}

  lemma Spaced(z: Zone, i: int, j: int)
    requires WellSpaced(z)
    ensures 0 <= i < j < |z.shifts| ==> z.shifts[i].at < z.shifts[j].at && Upper(z, i) <= Lower(z, j)
  {}

  /** Between two transitions there is one offset. */
  lemma ShownBetween(z: Zone, t: int, k: nat)
    requires WellSpaced(z) && k <= |z.shifts|
    requires (k > 0 ==> z.shifts[k - 1].at <= t) && (k < |z.shifts| ==> t < z.shifts[k].at)
    ensures Passed(z, t, |z.shifts|) == k && Working(z, t) == t + Offset(z, k)
  {
    assert forall i :: 0 <= i < k - 1 ==> z.shifts[i].at < z.shifts[k - 1].at;
    assert forall i :: k < i < |z.shifts| ==> z.shifts[k].at < z.shifts[i].at;
    PassedIs(z, t, k);
  }

  /** What is shown after `k` transitions lies between the edges of the two around it. */
  lemma WallBetween(z: Zone, t: int, k: nat)
    requires k == Passed(z, t, |z.shifts|)
    ensures k > 0 ==> Lower(z, k - 1) <= z.shifts[k - 1].at + Offset(z, k) <= Working(z, t)
    ensures k < |z.shifts| ==> Working(z, t) < z.shifts[k].at + Offset(z, k) <= Upper(z, k)
  {}

  /** Every instant that shows a wall time is the reading of it under one of the two folds. */
  lemma ReadingsAreAll(z: Zone, t: int)
    requires WellSpaced(z)
    ensures var w := Working(z, t); t == w - WallOffset(z, w, false) || t == w - WallOffset(z, w, true)
  {
    hide WellSpaced, Lower, Upper, Offset, Passed, PassedOnWall;
    var k: int := Passed(z, t, |z.shifts|);
    var w, n := Working(z, t), |z.shifts|;
    WallBetween(z, t, k);
    forall i | 0 <= i < n ensures Lower(z, i) <= Upper(z, i) { Edges(z, i); }
    forall i | 0 <= i < k - 1 ensures Upper(z, i) <= w { Spaced(z, i, k - 1); }
    forall i | k < i < n ensures w < Lower(z, i) { Spaced(z, k, i); }
    if k == 0 || Upper(z, k - 1) <= w {
      PassedOnWallIs(z, w, false, k);
    } else {
      Spaced(z, k - 1, k);
      PassedOnWallIs(z, w, true, k);
    }
  }

  // ---- the two kinds of wall times that are not simply a time ----

  ghost predicate Shown(z: Zone, w: int) { exists t :: Working(z, t) == w }

  ghost predicate ShownTwice(z: Zone, w: int) { exists t, u :: t < u && Working(z, t) == w && Working(z, u) == w }

  /** Skipped by transition `i`, when clocks go forward. */
  predicate InGap(z: Zone, w: int, i: nat)
    requires i < |z.shifts|
  {
    z.shifts[i].at + (if i == 0 then z.base else z.shifts[i - 1].offset) <= w < z.shifts[i].at + z.shifts[i].offset
  }

  /** Repeated by transition `i`, when clocks go back. */
  predicate InFold(z: Zone, w: int, i: nat)
    requires i < |z.shifts|
  {
    z.shifts[i].at + z.shifts[i].offset <= w < z.shifts[i].at + (if i == 0 then z.base else z.shifts[i - 1].offset)
  }

  lemma Around(z: Zone, i: nat)
    requires i < |z.shifts|
    ensures Offset(z, i) == (if i == 0 then z.base else z.shifts[i - 1].offset) &&
      Offset(z, i + 1) == z.shifts[i].offset
  {}

  lemma GapIsNotShown(z: Zone, w: int, i: nat, t: int)
    requires WellSpaced(z) && i < |z.shifts| && InGap(z, w, i)
    ensures Working(z, t) != w
  {
    hide WellSpaced, Lower, Upper, Offset, Working;
    var k: int := Passed(z, t, |z.shifts|);
    WallBetween(z, t, k);
    Around(z, i);
    Edges(z, i);
    Spaced(z, i, k - 1);
    Spaced(z, k, i);
  }

  /** A wall time is shown by no instant exactly if a transition skips it. */
  lemma NotShownIffInGap(z: Zone, w: int)
    requires WellSpaced(z)
    ensures !Shown(z, w) <==> exists i :: 0 <= i < |z.shifts| && InGap(z, w, i)
  {
    if i :| 0 <= i < |z.shifts| && InGap(z, w, i) {
      forall t ensures Working(z, t) != w { GapIsNotShown(z, w, i, t); }
    } else {
      var k := PassedOnWall(z, w, false, |z.shifts|);
      assert k < |z.shifts| ==> w < Edge(z, false, k) && !InGap(z, w, k);
      ShownBetween(z, w - Offset(z, k), k);
    }
  }

  lemma FoldIsShownTwice(z: Zone, w: int, i: nat)
    requires WellSpaced(z) && i < |z.shifts| && InFold(z, w, i)
    ensures w - Offset(z, i) < w - Offset(z, i + 1)
    ensures Working(z, w - Offset(z, i)) == w && Working(z, w - Offset(z, i + 1)) == w
  {
    hide WellSpaced, Lower, Upper, Offset, Working;
    Around(z, i);
    Edges(z, i - 1);
    Edges(z, i);
    Edges(z, i + 1);
    Spaced(z, i - 1, i);
    Spaced(z, i, i + 1);
    ShownBetween(z, w - Offset(z, i), i);
    ShownBetween(z, w - Offset(z, i + 1), i + 1);
  }

  lemma TwiceIsInFold(z: Zone, t: int, u: int) returns (i: nat)
    requires WellSpaced(z) && t < u && Working(z, t) == Working(z, u)
    ensures i < |z.shifts| && InFold(z, Working(z, t), i)
  {
    hide WellSpaced, Lower, Upper;
    i := Passed(z, t, |z.shifts|);
    var k: int := Passed(z, u, |z.shifts|);
    WallBetween(z, t, i);
    WallBetween(z, u, k);
    Spaced(z, i, k - 1);
  }

  /** A wall time is shown by two instants exactly if a transition repeats it. */
  lemma ShownTwiceIffInFold(z: Zone, w: int)
    requires WellSpaced(z)
    ensures ShownTwice(z, w) <==> exists i :: 0 <= i < |z.shifts| && InFold(z, w, i)
  {
    if i :| 0 <= i < |z.shifts| && InFold(z, w, i) {
      FoldIsShownTwice(z, w, i);
    }
    if t, u :| t < u && Working(z, t) == w && Working(z, u) == w {
      var i := TwiceIsInFold(z, t, u);
    }
  }

  // ---- the conversion ----

  /** What the conversion of a wall time may answer. */
  ghost predicate Answers(z: Zone, w: int, choice: Choice, r: Outcome) {
    match r
    case Nonexistent => !Shown(z, w)
    case Ambiguous => ShownTwice(z, w) && choice == Unspecified
    case Instant(t) =>
      Working(z, t) == w &&
      (choice == Unspecified ==> !ShownTwice(z, w)) &&
      (choice == Earlier ==> forall u :: Working(z, u) == w ==> t <= u) &&
      (choice == Later ==> forall u :: Working(z, u) == w ==> u <= t)
  }

  function Reading(z: Zone, w: int, fold: bool): int { w - WallOffset(z, w, fold) }

  /** There is one answer to each question. */
  lemma AnswerIsUnique(z: Zone, w: int, choice: Choice, r: Outcome, r': Outcome)
    requires Answers(z, w, choice, r) && Answers(z, w, choice, r')
    ensures r == r'
  {
    if r.Instant? && r'.Instant? {
      assert r.at < r'.at ==> ShownTwice(z, w);
      assert r'.at < r.at ==> ShownTwice(z, w);
    }
  }

  /** The readings that convert back, of the first `n` folds. */
  function Candidates(z: Zone, w: int, n: nat): (r: seq<int>)
    ensures |r| <= n
  {
    if n == 0 then []
    else
      var t := Reading(z, w, n == 2);
      Candidates(z, w, n - 1) + if Working(z, t) == w then [t] else []
  }

  ghost predicate AllShown(z: Zone, w: int, candidates: seq<int>) {
    forall t :: t in candidates <==> Working(z, t) == w
  }

  lemma CandidatesAreShown(z: Zone, w: int)
    requires WellSpaced(z)
    ensures AllShown(z, w, Candidates(z, w, 2))
  {
    hide WellSpaced, WallOffset, Working;
    var first := Candidates(z, w, 1);
    assert first == Candidates(z, w, 0) + if Working(z, Reading(z, w, false)) == w then [Reading(z, w, false)] else [];
    forall t ensures t in Candidates(z, w, 2) <==> Working(z, t) == w {
      if Working(z, t) == w { ReadingsAreAll(z, t); }
    }
  }

  /** The choice between the candidates. */
  function Chosen(candidates: seq<int>, choice: Choice): Outcome
    requires |candidates| <= 2
  {
    if candidates == [] then Nonexistent
    else if |candidates| == 2 && candidates[0] != candidates[1] then
      var first := if candidates[1] < candidates[0] then candidates[1] else candidates[0];
      var last := if candidates[1] < candidates[0] then candidates[0] else candidates[1];
      match choice case Unspecified => Ambiguous case Earlier => Instant(first) case Later => Instant(last)
    else Instant(candidates[0])
  }

  lemma ChosenAnswers(z: Zone, w: int, candidates: seq<int>, choice: Choice)
    requires |candidates| <= 2 && AllShown(z, w, candidates)
    ensures Answers(z, w, choice, Chosen(candidates, choice))
  {
    hide Working;
    assert forall i :: 0 <= i < |candidates| ==> candidates[i] in candidates;
    if |candidates| == 2 {
      assert forall t :: Working(z, t) == w ==> t == candidates[0] || t == candidates[1];
      assert candidates[0] < candidates[1] ==> ShownTwice(z, w);
      assert candidates[1] < candidates[0] ==> ShownTwice(z, w);
    }
  }

  /** What an answer says about the instants that show the wall time, and about offsets. */
  lemma AnswerSays(z: Zone, w: int, choice: Choice, r: Outcome)
    requires WellSpaced(z) && Answers(z, w, choice, r)
    ensures r == Nonexistent <==> forall t :: Working(z, t) != w
    ensures r == Ambiguous <==>
      choice == Unspecified && exists t, u :: t < u && Working(z, t) == w && Working(z, u) == w
    ensures r.Instant? ==>
      Working(z, r.at) == w &&
      (choice == Earlier ==> forall t :: Working(z, t) == w ==> r.at <= t) &&
      (choice == Later ==> forall t :: Working(z, t) == w ==> t <= r.at) &&
      ((forall i :: 0 <= i < |z.shifts| ==> r.at < z.shifts[i].at) ==> w == r.at + z.base) &&
      forall i ::
        0 <= i < |z.shifts| && z.shifts[i].at <= r.at && (i + 1 < |z.shifts| ==> r.at < z.shifts[i + 1].at) ==>
        w == r.at + z.shifts[i].offset
  {
    hide Working;
    if r.Instant? {
      if forall i :: 0 <= i < |z.shifts| ==> r.at < z.shifts[i].at { WorkingBefore(z, r.at); }
      forall i | 0 <= i < |z.shifts| && z.shifts[i].at <= r.at && (i + 1 < |z.shifts| ==> r.at < z.shifts[i + 1].at)
        ensures Working(z, r.at) == r.at + z.shifts[i].offset
      {
        forall j | i < j < |z.shifts| ensures r.at < z.shifts[j].at { Spaced(z, i + 1, j); }
        WorkingAfter(z, r.at, i);
      }
    }
  }

  /** `working_datetime_to_utc` for a wall time without an offset. */
  method ToUtc(z: Zone, w: int, choice: Choice) returns (r: Outcome)
    requires WellSpaced(z)
    ensures Answers(z, w, choice, r)
    ensures r == Nonexistent <==> forall t :: Working(z, t) != w
    ensures r == Ambiguous <==>
      choice == Unspecified && exists t, u :: t < u && Working(z, t) == w && Working(z, u) == w
    ensures r.Instant? ==>
      Working(z, r.at) == w &&
      (choice == Earlier ==> forall t :: Working(z, t) == w ==> r.at <= t) &&
      (choice == Later ==> forall t :: Working(z, t) == w ==> t <= r.at) &&
      ((forall i :: 0 <= i < |z.shifts| ==> r.at < z.shifts[i].at) ==> w == r.at + z.base) &&
      forall i ::
        0 <= i < |z.shifts| && z.shifts[i].at <= r.at && (i + 1 < |z.shifts| ==> r.at < z.shifts[i + 1].at) ==>
        w == r.at + z.shifts[i].offset
  {
    hide WellSpaced, Working, Answers, WallOffset, AllShown, Offsets;
    var candidates: seq<int> := [];
    var offsets: set<int> := {};
    var i := 0;
    NoOffsets(w);
    while i < 2
      invariant i <= 2 && candidates == Candidates(z, w, i) && offsets == Offsets(candidates, w)
    {
      var candidate := Reading(z, w, i == 1);
      if Working(z, candidate) == w {
        MoreOffsets(candidates, candidate, w);
        candidates := candidates + [candidate];
        offsets := offsets + {w - candidate};
      }
      i := i + 1;
    }
    CandidatesAreShown(z, w);
    ChosenAnswers(z, w, candidates, choice);
    OffsetsDiffer(candidates, w);
    AnswerSays(z, w, choice, Chosen(candidates, choice));
    if candidates == [] {
      r := Nonexistent;
    } else if |offsets| > 1 {
      var ordered := if candidates[1] < candidates[0] then [candidates[1], candidates[0]] else candidates;
      r := match choice
           case Unspecified => Ambiguous
           case Earlier => Instant(ordered[0])
           case Later => Instant(ordered[|ordered| - 1]);
    } else {
      r := Instant(candidates[0]);
    }
  }

  ghost function Offsets(candidates: seq<int>, w: int): set<int> { set c | c in candidates :: w - c }

  lemma NoOffsets(w: int)
    ensures Offsets([], w) == {}
  {}

  lemma MoreOffsets(candidates: seq<int>, t: int, w: int)
    ensures Offsets(candidates + [t], w) == Offsets(candidates, w) + {w - t}
  {
    var more := candidates + [t];
    assert more[|candidates|] == t && forall c :: c in candidates ==> c in more;
    forall x ensures x in Offsets(more, w) <==> x in Offsets(candidates, w) + {w - t} {
      assert x in Offsets(more, w) <==> w - x in more;
      assert x in Offsets(candidates, w) <==> w - x in candidates;
    }
  }

  lemma OffsetsDiffer(candidates: seq<int>, w: int)
    requires |candidates| <= 2
    ensures |Offsets(candidates, w)| > 1 <==> |candidates| == 2 && candidates[0] != candidates[1]
  {
    if |candidates| == 2 {
      assert candidates[0] in candidates && candidates[1] in candidates;
      var a, b := w - candidates[0], w - candidates[1];
      assert Offsets(candidates, w) == {a, b};
      assert a == b ==> {a, b} == {a};
      assert a != b ==> |{a, b}| == 2;
    } else if |candidates| == 1 {
      assert candidates[0] in candidates;
      assert Offsets(candidates, w) == {w - candidates[0]};
    } else {
      NoOffsets(w);
    }
  }

  /** Showing an instant as a wall time and converting that back gives an instant with the same
      wall time, and this very one unless a transition repeats it. */
  lemma WorkingConvertsBack(z: Zone, t: int, choice: Choice, r: Outcome)
    requires WellSpaced(z) && Answers(z, Working(z, t), choice, r)
    ensures r != Nonexistent && (r.Instant? ==> Working(z, r.at) == Working(z, t))
    ensures (forall i :: 0 <= i < |z.shifts| ==> !InFold(z, Working(z, t), i)) ==> r == Instant(t)
  {
    var w := Working(z, t);
    if (forall i :: 0 <= i < |z.shifts| ==> !InFold(z, w, i)) {
      ShownTwiceIffInFold(z, w);
      assert r.Instant? && r.at < t ==> ShownTwice(z, w);
      assert r.Instant? && t < r.at ==> ShownTwice(z, w);
    }
  }
}
