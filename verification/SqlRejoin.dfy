/** Joining the statements of a source with semicolons and splitting again gives the same
    statements: taking comments out never makes a new token, quote or comment opener. */
module SqlRejoin {
  import opened Wrappers
  import opened Texts
  import opened SqlTokens
  import opened SqlScan
  import opened SqlSplitter

  /** The tokens that a statement keeps verbatim. */
  predicate Solid(t: Token) { t.Quoted? || t.Dollar? || t.Plain? }

  predicate AllSolid(ts: seq<Token>) { forall t :: t in ts ==> Solid(t) }

  predicate NoSemicolon(ts: seq<Token>) { forall t :: t in ts ==> !t.Semicolon? }

  /** A token with its comment, if it is one, replaced by the blank it leaves. */
  function Bare(t: Token): Token {
    match t
    case Line(_) => Plain('\n')
    case Block(_) => Plain(' ')
    case _ => t
  }

  function Bares(ts: seq<Token>): (r: seq<Token>)
    ensures |r| == |ts|
    ensures NoSemicolon(ts) ==> AllSolid(r)
  {
    if ts == [] then [] else [Bare(ts[0])] + Bares(ts[1..])
  }

  // ---- what may follow a token ----

  /** `after` follows `before` for `n` characters, then ends or goes on with a blank. */
  ghost predicate CutAt(before: string, after: string, n: nat) {
    n <= |before| && n <= |after| && before[..n] == after[..n] && (n == |after| || IsSpace(after[n]))
  }

  lemma TagHasNoBlank(t: string)
    requires IsTag(t)
    ensures forall k :: 0 <= k < |t| ==> !IsSpace(t[k])
  {}

  /** Text that starts with an opener needs no blank to do so. */
  lemma TagCut(c: char, before: string, after: string, n: nat)
    requires CutAt(before, after, n) && StartsWithTag([c] + after)
    ensures StartsWithTag([c] + before)
  {
    var s := [c] + after;
    var m :| 2 <= m <= |s| && IsTag(s[..m]);
    TagHasNoBlank(s[..m]);
    assert forall k :: 0 <= k < m ==> s[..m][k] == s[k];
    assert n < |after| ==> IsSpace(s[n + 1]);
    assert m - 1 <= n;
    assert ([c] + before)[..m] == [c] + before[..n][..m - 1];
    assert s[..m] == [c] + after[..n][..m - 1];
  }

  lemma PairCut(c: char, d: char, before: string, after: string, n: nat)
    requires CutAt(before, after, n) && !IsSpace(d) && [c, d] <= [c] + after
    ensures [c, d] <= [c] + before
  {
    assert ([c] + after)[1] == d && after[0] == d;
    assert n > 0;
    assert before[..n][0] == after[..n][0];
  }

  lemma HeadCut(q: char, before: string, after: string, n: nat)
    requires CutAt(before, after, n) && !IsSpace(q)
    ensures [q] <= after ==> [q] <= before
  {
    if [q] <= after {
      assert n > 0 && before[..n][0] == after[..n][0];
    }
  }

  lemma FitsCut(t: Token, before: string, after: string, n: nat)
    requires Solid(t) && Fits(t, before) && CutAt(before, after, n)
    ensures Fits(t, after)
  {
    match t
    case Quoted(q, _) => HeadCut(q, before, after, n);
    case Dollar(_, _) =>
    case Plain(c) => PlainCut(c, before, after, n);
  }

  lemma PlainCut(c: char, before: string, after: string, n: nat)
    requires Fits(Plain(c), before) && CutAt(before, after, n)
    ensures Fits(Plain(c), after)
  {
    hide StartsWithTag, CutAt;
    if StartsWithTag([c] + after) { TagCut(c, before, after, n); }
    if "--" <= [c] + after {
      assert ([c] + after)[0] == '-';
      PairCut(c, '-', before, after, n);
    }
    if "/*" <= [c] + after {
      assert ([c] + after)[0] == '/';
      PairCut(c, '*', before, after, n);
    }
  }

  lemma TagExtend(s: string, more: string)
    requires StartsWithTag(s + ";" + more)
    ensures StartsWithTag(s)
  {
    var w := s + ";" + more;
    var m :| 2 <= m <= |w| && IsTag(w[..m]);
    assert forall k :: 0 <= k < m ==> w[..m][k] == w[k] && w[k] != ';';
    assert w[|s|] == ';';
    assert w[..m] == s[..m];
  }

  lemma FitsExtend(t: Token, rest: string, more: string)
    requires Solid(t) && Fits(t, rest)
    ensures Fits(t, rest + ";" + more)
  {
    match t
    case Quoted(q, _) =>
      assert (rest + ";" + more)[0] == if rest == "" then ';' else rest[0];
    case Dollar(_, _) =>
    case Plain(c) =>
      var w := [c] + (rest + ";" + more);
      assert w == ([c] + rest) + ";" + more;
      if StartsWithTag(w) { TagExtend([c] + rest, more); }
      assert w[0] == c && w[1] == if rest == "" then ';' else rest[0];
      assert "--" <= w ==> "--" <= [c] + rest;
      assert "/*" <= w ==> "/*" <= [c] + rest;
  }

  // ---- readings of parts ----

  lemma PrintAppend(ts: seq<Token>, us: seq<Token>)
    ensures Print(ts + us) == Print(ts) + Print(us)
  {
    if ts == [] {
      assert ts + us == us;
    } else {
      assert (ts + us)[0] == ts[0] && (ts + us)[1..] == ts[1..] + us;
      PrintAppend(ts[1..], us);
      assert Text(ts[0]) + (Print(ts[1..]) + Print(us)) == (Text(ts[0]) + Print(ts[1..])) + Print(us);
    }
  }

  /** A piece of a source reads the same once its comments are blanks and the rest is gone. */
  lemma {:induction false} BaresReading(piece: seq<Token>, rest: seq<Token>) returns (n: nat)
    requires Reading(piece + rest) && NoSemicolon(piece)
    ensures Reading(Bares(piece)) && CutAt(Print(piece + rest), Print(Bares(piece)), n)
  {
    hide Fits, Text;
    if piece == [] {
      n := 0;
    } else {
      var t, tail := piece[0], piece[1..];
      assert (piece + rest)[0] == t && (piece + rest)[1..] == tail + rest;
      assert t in piece;
      var m := BaresReading(tail, rest);
      assert Bares(piece)[0] == Bare(t) && Bares(piece)[1..] == Bares(tail);
      n := BareFits(t, Print(tail + rest), Print(Bares(tail)), m);
    }
  }

  lemma BareFits(t: Token, before: string, after: string, m: nat) returns (n: nat)
    requires !t.Semicolon? && Fits(t, before) && CutAt(before, after, m)
    ensures Fits(Bare(t), after) && CutAt(Text(t) + before, Text(Bare(t)) + after, n)
  {
    if Solid(t) {
      n := |Text(t)| + m;
      FitsCut(t, before, after, m);
      assert (Text(t) + before)[..n] == Text(t) + before[..m];
      assert (Text(t) + after)[..n] == Text(t) + after[..m];
    } else {
      n := 0;
      BlankFits(if t.Line? then '\n' else ' ', after);
    }
  }

  lemma BlankFits(c: char, after: string)
    requires c == '\n' || c == ' '
    ensures Fits(Plain(c), after)
  {
    var w := [c] + after;
    assert w[0] == c;
    forall n | 2 <= n <= |w| ensures !IsTag(w[..n]) { assert w[..n][0] == c; }
  }

  lemma {:induction false} ReadingPrefix(ts: seq<Token>, k: nat)
    requires Reading(ts) && AllSolid(ts) && k <= |ts|
    ensures Reading(ts[..k])
  {
    hide Fits, Text;
    if k > 0 {
      ReadingPrefix(ts[1..], k - 1);
      assert ts[..k][1..] == ts[1..][..k - 1];
      var before, after := Print(ts[1..]), Print(ts[1..][..k - 1]);
      assert ts[1..] == ts[1..][..k - 1] + ts[1..][k - 1..];
      PrintAppend(ts[1..][..k - 1], ts[1..][k - 1..]);
      assert CutAt(before, after, |after|);
      assert ts[0] in ts;
      FitsCut(ts[0], before, after, |after|);
    }
  }

  lemma PrintJoined(xs: seq<Token>, us: seq<Token>)
    ensures Print(xs + [Semicolon] + us) == Print(xs) + ";" + Print(us)
  {
    var more := [Semicolon] + us;
    assert more[1..] == us && xs + more == xs + [Semicolon] + us;
    PrintAppend(xs, more);
    assert Print(xs) + (";" + Print(us)) == Print(xs) + ";" + Print(us);
  }

  lemma {:induction false} ReadingExtend(xs: seq<Token>, us: seq<Token>)
    requires Reading(xs) && AllSolid(xs) && Reading(us)
    ensures Reading(xs + [Semicolon] + us)
  {
    hide Fits, Text;
    var w := xs + [Semicolon] + us;
    if xs == [] {
      assert w == [Semicolon] + us && w[1..] == us;
      SemicolonFits(Print(us));
    } else {
      assert xs[0] in xs;
      assert w[0] == xs[0] && w[1..] == xs[1..] + [Semicolon] + us;
      ReadingExtend(xs[1..], us);
      PrintJoined(xs[1..], us);
      FitsExtend(xs[0], Print(xs[1..]), Print(us));
    }
  }

  lemma SemicolonFits(rest: string)
    ensures Fits(Semicolon, rest)
  {}

  // ---- blanks at the ends ----

  lemma {:induction false} DropLeft(xs: seq<Token>) returns (ys: seq<Token>)
    requires Reading(xs) && AllSolid(xs)
    ensures Reading(ys) && AllSolid(ys) && Print(ys) == StripLeft(Print(xs))
  {
    var s := Print(xs);
    if s == "" || !IsSpace(s[0]) {
      ys := xs;
    } else {
      assert xs[0] in xs;
      SpaceIsPlain(xs[0], Print(xs[1..]));
      assert s[1..] == Print(xs[1..]);
      ys := DropLeft(xs[1..]);
    }
  }

  lemma SpaceIsPlain(t: Token, rest: string)
    requires Solid(t) && Fits(t, rest)
    ensures Text(t) != ""
    ensures IsSpace(Text(t)[0]) || IsSpace(Text(t)[|Text(t)| - 1]) ==> t.Plain? && |Text(t)| == 1
  {}

  lemma PrintLast(xs: seq<Token>)
    requires xs != []
    ensures Print(xs) == Print(xs[..|xs| - 1]) + Text(xs[|xs| - 1])
  {
    hide Text;
    var n := |xs| - 1;
    var last := [xs[n]];
    assert xs == xs[..n] + last && last[1..] == [];
    PrintAppend(xs[..n], last);
    assert Print(last) == Text(xs[n]) + Print([]);
  }

  lemma {:induction false} DropRight(xs: seq<Token>) returns (ys: seq<Token>)
    requires Reading(xs) && AllSolid(xs)
    ensures Reading(ys) && AllSolid(ys) && Print(ys) == StripRight(Print(xs))
  {
    hide Fits, Text;
    var s := Print(xs);
    if s == "" || !IsSpace(s[|s| - 1]) {
      ys := xs;
    } else {
      var n := |xs| - 1;
      var last := xs[n];
      assert last in xs;
      PrintLast(xs);
      LastFits(xs);
      SpaceIsPlain(last, "");
      assert s[..|s| - 1] == Print(xs[..n]);
      ReadingPrefix(xs, n);
      ys := DropRight(xs[..n]);
    }
  }

  lemma {:induction false} LastFits(xs: seq<Token>)
    requires Reading(xs) && xs != []
    ensures Fits(xs[|xs| - 1], "")
  {
    if |xs| > 1 { LastFits(xs[1..]); }
  }

  lemma StripLeftEdge(s: string)
    ensures var r := StripLeft(s); r == "" || !IsSpace(r[0])
    ensures |StripLeft(s)| <= |s| && StripLeft(s) == s[|s| - |StripLeft(s)|..]
  {}

  lemma StripRightEdge(s: string)
    ensures var r := StripRight(s); r <= s && (r == "" || !IsSpace(r[|r| - 1]))
  {}

  /** Blanks at both ends go, and nothing else. */
  lemma StripIs(s: string) returns (a: string, b: string)
    ensures s == a + Strip(s) + b && (forall c :: c in a + b ==> IsSpace(c))
    ensures Strip(s) != "" ==> !IsSpace(Strip(s)[0]) && !IsSpace(Strip(s)[|Strip(s)| - 1])
  {
    hide IsSpace;
    a := StripLeftIs(s);
    b := StripRightIs(StripLeft(s));
    assert s == a + (Strip(s) + b);
  }

  lemma {:induction false} StripLeftIs(s: string) returns (a: string)
    ensures s == a + StripLeft(s) && (forall c :: c in a ==> IsSpace(c))
    ensures StripLeft(s) != "" ==> !IsSpace(StripLeft(s)[0])
  {
    hide IsSpace;
    if s != "" && IsSpace(s[0]) {
      a := StripLeftIs(s[1..]);
      a := [s[0]] + a;
    } else {
      a := "";
    }
  }

  lemma {:induction false} StripRightIs(s: string) returns (b: string)
    ensures s == StripRight(s) + b && forall c :: c in b ==> IsSpace(c)
    ensures StripRight(s) != "" ==> !IsSpace(StripRight(s)[|StripRight(s)| - 1]) && StripRight(s)[0] == s[0]
  {
    hide IsSpace;
    if s != "" && IsSpace(s[|s| - 1]) {
      b := StripRightIs(s[..|s| - 1]);
      b := b + [s[|s| - 1]];
    } else {
      b := "";
    }
  }

  lemma StripTwice(s: string)
    ensures Strip(Strip(s)) == Strip(s)
  {
    var a := StripLeft(s);
    StripLeftEdge(s);
    StripRightEdge(a);
  }

  // ---- statements ----

  /** A non-blank statement that is read without comments or separators. */
  ghost predicate Whole(x: string) {
    x != "" && Strip(x) == x && exists xs :: Reading(xs) && AllSolid(xs) && Print(xs) == x
  }

  lemma {:induction false} SplitAcross(ts: seq<Token>, more: seq<Token>, part: string)
    requires NoSemicolon(ts)
    ensures Split(ts + more, part) == Split(more, part + Print(Bares(ts)))
  {
    hide Text;
    if ts == [] {
      assert ts + more == more && part + "" == part;
    } else {
      assert ts[0] in ts;
      assert (ts + more)[0] == ts[0] && (ts + more)[1..] == ts[1..] + more;
      assert Bares(ts)[1..] == Bares(ts[1..]);
      SplitAcross(ts[1..], more, part + Kept(ts[0]));
      KeptIsBare(ts[0]);
      assert (part + Kept(ts[0])) + Print(Bares(ts[1..])) == part + Print(Bares(ts));
    }
  }

  lemma KeptIsBare(t: Token)
    ensures Kept(t) == Text(Bare(t))
  {}

  /** Every statement of a reading can stand on its own. */
  lemma {:induction false} StatementsAreWhole(piece: seq<Token>, ts: seq<Token>)
    requires Reading(piece + ts) && NoSemicolon(piece)
    ensures forall x :: x in Split(ts, Print(Bares(piece))) ==> Whole(x)
    decreases |ts|
  {
    hide Fits, Text, Whole, Strip;
    if ts == [] {
      PieceIsWhole(piece, ts);
    } else if ts[0].Semicolon? {
      PieceIsWhole(piece, ts);
      ReadingSuffix(piece + ts, |piece| + 1);
      assert (piece + ts)[|piece| + 1..] == [] + ts[1..];
      StatementsAreWhole([], ts[1..]);
    } else {
      var more := piece + [ts[0]];
      assert more + ts[1..] == piece + ts;
      StatementsAreWhole(more, ts[1..]);
      BaresAppend(piece, ts[0]);
    }
  }

  lemma {:induction false} BaresAppend(piece: seq<Token>, t: Token)
    ensures Print(Bares(piece + [t])) == Print(Bares(piece)) + Kept(t)
  {
    hide Text, Kept, Bare, Bares;
    KeptIsBare(t);
    BaresNext(piece, t);
    PrintAppend(Bares(piece), [Bare(t)]);
    assert [Bare(t)][1..] == [];
    assert Print([Bare(t)]) == Text(Bare(t)) + Print([]);
  }

  lemma {:induction false} BaresNext(piece: seq<Token>, t: Token)
    ensures Bares(piece + [t]) == Bares(piece) + [Bare(t)]
  {
    hide Bare;
    if piece == [] {
      assert piece + [t] == [t];
    } else {
      assert (piece + [t])[0] == piece[0] && (piece + [t])[1..] == piece[1..] + [t];
      BaresNext(piece[1..], t);
    }
  }

  lemma {:induction false} ReadingSuffix(ts: seq<Token>, k: nat)
    requires Reading(ts) && k <= |ts|
    ensures Reading(ts[k..])
  {
    hide Fits;
    if k > 0 {
      ReadingSuffix(ts[1..], k - 1);
      assert ts[1..][k - 1..] == ts[k..];
    }
  }

  lemma PieceIsWhole(piece: seq<Token>, rest: seq<Token>)
    requires Reading(piece + rest) && NoSemicolon(piece)
    ensures forall x :: x in Emit(Print(Bares(piece))) ==> Whole(x)
  {
    hide Fits, Reading, Print, StripLeft, StripRight, Bares;
    var n := BaresReading(piece, rest);
    var xs := Bares(piece);
    var ys := DropLeft(xs);
    var zs := DropRight(ys);
    StripTwice(Print(xs));
    assert Print(zs) == Strip(Print(xs));
  }

  function Join(list: seq<string>): string {
    if list == [] then "" else if |list| == 1 then list[0] else list[0] + ";" + Join(list[1..])
  }

  lemma BaresOfSolid(xs: seq<Token>)
    requires AllSolid(xs)
    ensures Bares(xs) == xs
  {
    if xs != [] {
      assert xs[0] in xs;
      BaresOfSolid(xs[1..]);
    }
  }

  lemma {:induction false} JoinIsRead(list: seq<string>) returns (us: seq<Token>)
    requires forall x :: x in list ==> Whole(x)
    ensures Reading(us) && Print(us) == Join(list) && Split(us, "") == list
  {
    hide Fits, Text, Strip, Bares;
    if list == [] {
      us := [];
      assert Emit("") == [] by { BlankIsEmpty(); }
    } else {
      var x := list[0];
      assert x in list;
      var xs :| Reading(xs) && AllSolid(xs) && Print(xs) == x;
      BaresOfSolid(xs);
      assert "" + x == x;
      if |list| == 1 {
        us := xs;
        SplitAcross(xs, [], "");
        assert xs + [] == xs;
        assert list == [x];
      } else {
        var vs := JoinIsRead(list[1..]);
        us := xs + [Semicolon] + vs;
        ReadingExtend(xs, vs);
        var more := [Semicolon] + vs;
        assert us == xs + more && more[1..] == vs;
        PrintAppend(xs, more);
        SemicolonText(vs);
        SplitAcross(xs, more, "");
        assert list == [x] + list[1..];
      }
    }
  }

  lemma SemicolonText(vs: seq<Token>)
    ensures Print([Semicolon] + vs) == ";" + Print(vs)
  {
    assert ([Semicolon] + vs)[1..] == vs;
  }

  lemma BlankIsEmpty()
    ensures Strip("") == ""
  {}

  /** The round trip, for every source that has statements at all. */
  lemma Rejoin(source: string)
    requires Meaning(source).Parsed?
    ensures Meaning(Join(Meaning(source).list)) == Meaning(source)
  {
    hide Meaning, Reading, Print, Whole, Split, Join;
    MeaningOfReadings(source);
    var list := Meaning(source).list;
    var ts :| Reading(ts) && Print(ts) == source;
    assert [] + ts == ts;
    StatementsAreWhole([], ts);
    assert Print(Bares([])) == "" by { NothingPrints(); }
    var us := JoinIsRead(list);
    MeaningOfReadings(Join(list));
  }

  lemma NothingPrints()
    ensures Bares([]) == [] && Print([]) == ""
  {}
}
