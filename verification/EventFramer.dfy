/** The byte-at-a-time framing of the event stream in frontend/webui/messaging_live.py. */
module EventFramer {

  newtype Byte = x: int | 0 <= x < 256

  type Bytes = seq<Byte>

  const LF: Byte := 10
  const CR: Byte := 13
  const LIMIT: nat := 4096
  /** "data: " */
  const DATA: Bytes := [100, 97, 116, 97, 58, 32]

  datatype Framing = Framing(events: seq<Bytes>, oversized: bool)

  // ---- what the stream means ----

  /** The bytes end with a blank line. */
  predicate Blank(s: Bytes) { |s| >= 2 && s[|s| - 2] == LF && s[|s| - 1] == LF }

  /** There is no blank line yet. */
  ghost predicate Open(s: Bytes) { forall k :: 0 <= k < |s| - 1 ==> !(s[k] == LF && s[k + 1] == LF) }

  /** The bytes end with their leftmost blank line. */
  ghost predicate Block(s: Bytes) { Blank(s) && Open(s[..|s| - 1]) }

  ghost function Flat(blocks: seq<Bytes>): Bytes {
    if blocks == [] then [] else blocks[0] + Flat(blocks[1..])
  }

  /** The stream, cut after every leftmost blank line. */
  ghost predicate IsSplit(blocks: seq<Bytes>, rest: Bytes, stream: Bytes) {
    Flat(blocks) + rest == stream && Open(rest) && forall b :: b in blocks ==> Block(b)
  }

  function LineEnd(s: Bytes): (n: nat)
    ensures n <= |s| && (n < |s| ==> s[n] == LF || s[n] == CR)
    ensures forall k :: 0 <= k < n ==> s[k] != LF && s[k] != CR
  {
    if s == [] || s[0] == LF || s[0] == CR then 0 else
      var n := LineEnd(s[1..]);
      assert forall k :: 0 < k < n + 1 ==> s[k] == s[1..][k - 1];
      n + 1
  }

  /** `bytes.splitlines`: lines end with a line feed, a carriage return, or both in this order. */
  function Lines(s: Bytes): seq<Bytes>
    decreases |s|
  {
    if s == [] then [] else
      var n := LineEnd(s);
      if n == |s| then [s]
      else [s[..n]] + Lines(s[if s[n] == CR && n + 1 < |s| && s[n + 1] == LF then n + 2 else n + 1..])
  }

  /** A line ends at the first line feed or carriage return, and both together are one end. */
  lemma LinesByBreak(line: Bytes, brk: Bytes, t: Bytes)
    requires forall k :: 0 <= k < |line| ==> line[k] != 10 && line[k] != 13
    requires brk == [10] || (brk == [13] && (t != [] ==> t[0] != 10)) || brk == [13, 10]
    ensures Lines(line + brk + t) == [line] + Lines(t) && Lines(line) == if line == [] then [] else [line]
  {
    var s := line + brk + t;
    assert forall k :: 0 <= k < |line| ==> s[k] == line[k];
    assert s[|line|] == brk[0];
    assert LineEnd(s) == |line| && (line != [] ==> LineEnd(line) == |line|);
    assert |brk| == 1 && t != [] ==> s[|line| + 1] == t[0];
    assert |brk| == 2 ==> s[|line| + 1] == brk[1];
    assert s[..|line|] == line && s[|line| + |brk|..] == t;
  }

  predicate IsData(line: Bytes) { |line| >= |DATA| && line[..|DATA|] == DATA }

  function Payloads(lines: seq<Bytes>): seq<Bytes> {
    if lines == [] then []
    else
      var n := |lines| - 1;
      Payloads(lines[..n]) + if IsData(lines[n]) then [lines[n][|DATA|..]] else []
  }

  /** The events of the blocks before the first piece that is too long, and whether there is one. */
  ghost function Outcome(blocks: seq<Bytes>, rest: Bytes): Framing {
    if blocks == [] then Framing([], |rest| > LIMIT)
    else if |blocks[0]| > LIMIT then Framing([], true)
    else
      var later := Outcome(blocks[1..], rest);
      Framing(Payloads(Lines(blocks[0])) + later.events, later.oversized)
  }

  lemma OutcomeStep(block: Bytes, blocks: seq<Bytes>, rest: Bytes)
    ensures Outcome([block] + blocks, rest) ==
      if |block| > LIMIT then Framing([], true)
      else Framing(Payloads(Lines(block)) + Outcome(blocks, rest).events, Outcome(blocks, rest).oversized)
  {
    assert ([block] + blocks)[1..] == blocks;
  }

  // ---- the cuts are determined by the stream ----

  lemma {:induction false} FlatAppend(blocks: seq<Bytes>, more: seq<Bytes>)
    ensures Flat(blocks + more) == Flat(blocks) + Flat(more)
  {
    if blocks == [] {
      assert blocks + more == more;
    } else {
      assert (blocks + more)[1..] == blocks[1..] + more;
      FlatAppend(blocks[1..], more);
    }
  }

  lemma Split(stream: Bytes) returns (blocks: seq<Bytes>, rest: Bytes)
    ensures IsSplit(blocks, rest, stream)
  {
    if stream == [] {
      blocks, rest := [], [];
    } else {
      var n := |stream| - 1;
      blocks, rest := Split(stream[..n]);
      assert stream == Flat(blocks) + (rest + [stream[n]]);
      rest := rest + [stream[n]];
      if Blank(rest) {
        FlatAppend(blocks, [rest]);
        assert Flat([rest]) == rest;
        blocks, rest := blocks + [rest], [];
      }
    }
  }

  /** Of two beginnings of the same bytes, one open and one ending with a blank line, the open one
      is the shorter. */
  lemma OpenIsShort(s: Bytes, a: Bytes, b: Bytes)
    requires a <= s && b <= s && Blank(b)
    ensures Open(a) ==> |a| < |b|
  {
    if |b| <= |a| {
      assert a[|b| - 2] == s[|b| - 2] == b[|b| - 2] && a[|b| - 1] == s[|b| - 1] == b[|b| - 1];
    }
  }

  lemma SameFirst(s: Bytes, a: Bytes, b: Bytes)
    requires a <= s && b <= s && Block(a) && Block(b)
    ensures a == b
  {
    OpenIsShort(s, a[..|a| - 1], b);
    OpenIsShort(s, b[..|b| - 1], a);
    assert a == s[..|a|] && b == s[..|b|];
  }

  lemma StartsWith(s: Bytes, first: Bytes, blocks: seq<Bytes>, rest: Bytes)
    requires s == Flat(blocks) + rest && Open(rest) && forall b :: b in blocks ==> Block(b)
    requires first <= s && Block(first)
    ensures blocks != [] && blocks[0] == first && s[|first|..] == Flat(blocks[1..]) + rest
  {
    var open := if blocks == [] then rest else [];
    assert open <= s;
    OpenIsShort(s, open, first);
    assert s == blocks[0] + (Flat(blocks[1..]) + rest);
    SameFirst(s, first, blocks[0]);
  }

  lemma {:induction false} Aligned(done: seq<Bytes>, tail: Bytes, blocks: seq<Bytes>, rest: Bytes)
    requires Flat(done) + tail == Flat(blocks) + rest && Open(rest)
    requires (forall b :: b in done ==> Block(b)) && forall b :: b in blocks ==> Block(b)
    ensures |done| <= |blocks| && done == blocks[..|done|]
    ensures tail == Flat(blocks[|done|..]) + rest
  {
    hide Block, Open;
    if done != [] {
      var s := Flat(done) + tail;
      assert s == done[0] + (Flat(done[1..]) + tail);
      StartsWith(s, done[0], blocks, rest);
      assert s[|done[0]|..] == Flat(done[1..]) + tail;
      Aligned(done[1..], tail, blocks[1..], rest);
      assert blocks[|done|..] == blocks[1..][|done| - 1..];
      assert done == [done[0]] + done[1..] && blocks[..|done|] == [blocks[0]] + blocks[1..][..|done| - 1];
    }
  }

  /** A stream is cut in one way only. */
  lemma SplitIsUnique(blocks: seq<Bytes>, rest: Bytes, blocks': seq<Bytes>, rest': Bytes, stream: Bytes)
    requires IsSplit(blocks, rest, stream) && IsSplit(blocks', rest', stream)
    ensures blocks == blocks' && rest == rest'
  {
    Aligned(blocks, rest, blocks', rest');
    Aligned(blocks', rest', blocks, rest);
    assert blocks'[|blocks|..] == [];
  }

  // ---- the framer ----

  /** Blocks that fit are framed one by one. */
  lemma {:induction false} OutcomeAfter(done: seq<Bytes>, more: seq<Bytes>, rest: Bytes)
    requires !Outcome(done, []).oversized
    ensures var later := Outcome(more, rest);
      Outcome(done + more, rest) == Framing(Outcome(done, []).events + later.events, later.oversized)
  {
    if done == [] {
      assert done + more == more;
    } else {
      OutcomeAfter(done[1..], more, rest);
      OutcomeJoined(done[0], done[1..], more, rest);
      assert done == [done[0]] + done[1..];
    }
  }

  lemma OutcomeJoined(block: Bytes, done: seq<Bytes>, more: seq<Bytes>, rest: Bytes)
    requires !Outcome([block] + done, []).oversized
    requires var later := Outcome(more, rest);
      !Outcome(done, []).oversized ==>
        Outcome(done + more, rest) == Framing(Outcome(done, []).events + later.events, later.oversized)
    ensures var later := Outcome(more, rest);
      Outcome([block] + done + more, rest) ==
        Framing(Outcome([block] + done, []).events + later.events, later.oversized)
  {
    hide Outcome, Payloads, Lines;
    OutcomeStep(block, done, []);
    OutcomeStep(block, done + more, rest);
    assert [block] + done + more == [block] + (done + more);
  }

  lemma OutcomeWith(done: seq<Bytes>, block: Bytes)
    requires !Outcome(done, []).oversized && |block| <= LIMIT
    ensures Outcome(done + [block], []) == Framing(Outcome(done, []).events + Payloads(Lines(block)), false)
  {
    hide Payloads, Lines;
    OutcomeAfter(done, [block], []);
    assert Outcome([block], []) == Framing(Payloads(Lines(block)) + [], false);
  }

  /** Blocks that fit, and their events. */
  ghost predicate Cut(done: seq<Bytes>, events: seq<Bytes>) {
    Outcome(done, []) == Framing(events, false) && forall b :: b in done ==> Block(b)
  }

  /** When the stream ends, the pending bytes are what is left of it. */
  lemma AtEnd(done: seq<Bytes>, events: seq<Bytes>, pending: Bytes, stream: Bytes)
    requires Cut(done, events) && Flat(done) + pending == stream && Open(pending) && |pending| <= LIMIT
    ensures forall blocks, rest :: IsSplit(blocks, rest, stream) ==>
      Outcome(blocks, rest) == Framing(events, false) && rest == pending
  {
    forall blocks, rest | IsSplit(blocks, rest, stream)
      ensures Outcome(blocks, rest) == Framing(events, false) && rest == pending
    {
      SplitIsUnique(done, pending, blocks, rest, stream);
      OutcomeAfter(done, [], rest);
      assert done + [] == done;
    }
  }

  /** Once too many bytes are pending, whatever follows the block or remainder is too long. */
  lemma WhenOversized(done: seq<Bytes>, events: seq<Bytes>, pending: Bytes, unread: Bytes, stream: Bytes)
    requires Cut(done, events) && Flat(done) + (pending + unread) == stream
    requires |pending| == LIMIT + 1 && Open(pending[..LIMIT])
    ensures forall blocks, rest :: IsSplit(blocks, rest, stream) ==> Outcome(blocks, rest) == Framing(events, true)
  {
    hide Payloads, Lines, Open, Block;
    forall blocks, rest | IsSplit(blocks, rest, stream)
      ensures Outcome(blocks, rest) == Framing(events, true)
    {
      Aligned(done, pending + unread, blocks, rest);
      var others := blocks[|done|..];
      OutcomeAfter(done, others, rest);
      assert blocks == done + others;
      if others != [] { assert others[0] in blocks; }
      TooLong(pending, unread, others, rest);
    }
  }

  lemma TooLong(pending: Bytes, unread: Bytes, blocks: seq<Bytes>, rest: Bytes)
    requires |pending| == LIMIT + 1 && Open(pending[..LIMIT])
    requires pending + unread == Flat(blocks) + rest && (blocks != [] ==> Block(blocks[0]))
    ensures Outcome(blocks, rest) == Framing([], true)
  {
    var tail := pending + unread;
    if blocks != [] {
      assert tail == blocks[0] + (Flat(blocks[1..]) + rest);
      assert blocks[0] <= tail && pending[..LIMIT] <= tail;
      OpenIsShort(tail, pending[..LIMIT], blocks[0]);
    }
  }

  /** Which lines were picked: all data lines and no others, from first to last; and each event is what
      follows the field name on its line. */
  ghost predicate Picked(lines: seq<Bytes>, picks: seq<nat>, events: seq<Bytes>) {
    |picks| == |events| && (forall i, j :: 0 <= i < j < |picks| ==> picks[i] < picks[j]) &&
    (forall i :: 0 <= i < |picks| ==> picks[i] < |lines| && lines[picks[i]] == DATA + events[i]) &&
    forall k :: 0 <= k < |lines| && DATA <= lines[k] ==> k in picks
  }

  /** The loop over the lines of a block. */
  method Yield(block: Bytes) returns (events: seq<Bytes>, ghost picks: seq<nat>)
    ensures Picked(Lines(block), picks, events)
    ensures events == Payloads(Lines(block))
  {
    var lines := Lines(block);
    events, picks := [], [];
    var i := 0;
    while i < |lines|
      invariant i <= |lines| && events == Payloads(lines[..i]) && Picked(lines[..i], picks, events)
    {
      assert lines[..i + 1][..i] == lines[..i];
      PickedNext(lines, i, picks, events);
      if IsData(lines[i]) {
        events, picks := events + [lines[i][|DATA|..]], picks + [i];
      }
      i := i + 1;
    }
    assert lines[..i] == lines;
  }

  lemma PickedNext(lines: seq<Bytes>, i: nat, picks: seq<nat>, events: seq<Bytes>)
    requires i < |lines| && Picked(lines[..i], picks, events)
    ensures if IsData(lines[i]) then Picked(lines[..i + 1], picks + [i], events + [lines[i][|DATA|..]])
      else Picked(lines[..i + 1], picks, events)
  {
    hide Picked;
    assert lines[..i + 1] == lines[..i] + [lines[i]];
    assert IsData(lines[i]) <==> DATA <= lines[i];
    if DATA <= lines[i] {
      assert lines[i] == DATA + lines[i][|DATA|..];
      PickedTake(lines[..i], picks, events, lines[i][|DATA|..]);
    } else {
      PickedSkip(lines[..i], picks, events, lines[i]);
    }
  }

  lemma PickedTake(lines: seq<Bytes>, picks: seq<nat>, events: seq<Bytes>, event: Bytes)
    requires Picked(lines, picks, events)
    ensures Picked(lines + [DATA + event], picks + [|lines|], events + [event])
  {
    var all, next := lines + [DATA + event], picks + [|lines|];
    assert next[|picks|] == |lines| && forall k :: k in picks ==> k in next;
    assert forall k :: 0 <= k < |lines| ==> all[k] == lines[k];
  }

  lemma PickedSkip(lines: seq<Bytes>, picks: seq<nat>, events: seq<Bytes>, line: Bytes)
    requires Picked(lines, picks, events) && !(DATA <= line)
    ensures Picked(lines + [line], picks, events)
  {
    assert forall k :: 0 <= k < |lines| ==> (lines + [line])[k] == lines[k];
  }

  /** What one more byte makes of the pending bytes. */
  lemma OneByte(before: Bytes, x: Byte)
    requires Open(before) && |before| <= LIMIT
    ensures var pending := before + [x];
      if |pending| > LIMIT then |pending| == LIMIT + 1 && Open(pending[..LIMIT])
      else if Blank(pending) then Block(pending) else Open(pending)
  {
    var pending := before + [x];
    assert pending[..|before|] == before;
  }

  lemma CutMore(done: seq<Bytes>, events: seq<Bytes>, block: Bytes)
    requires Cut(done, events) && Block(block) && |block| <= LIMIT
    ensures Cut(done + [block], events + Payloads(Lines(block))) && Flat(done + [block]) == Flat(done) + block
  {
    hide Block, Payloads, Lines;
    OutcomeWith(done, block);
    FlatAppend(done, [block]);
    assert Flat([block]) == block + [] == block;
  }

  /** The loop of `stream_events`. It yields the events of the blocks of the stream, and raises
      exactly if a block or the remainder is too long, after the events before it. */
  method Frames(stream: Bytes) returns (r: Framing, pending: Bytes)
    ensures forall blocks, rest :: IsSplit(blocks, rest, stream) ==> r == Outcome(blocks, rest)
    ensures !r.oversized ==> forall blocks, rest :: IsSplit(blocks, rest, stream) ==> pending == rest
    ensures |pending| <= LIMIT + 1
  {
    hide Payloads, Lines, IsSplit, Outcome, Cut, Open, Block, Blank, Flat;
    var i, events, oversized := 0, [], false;
    pending := [];
    ghost var done := [];
    NothingCut();
    while i < |stream| && !oversized
      invariant i <= |stream| && Flat(done) + pending == stream[..i] && Cut(done, events)
      invariant if oversized then |pending| == LIMIT + 1 && Open(pending[..LIMIT])
        else |pending| <= LIMIT && Open(pending)
    {
      OneByte(pending, stream[i]);
      assert stream[..i + 1] == Flat(done) + (pending + [stream[i]]);
      pending := pending + [stream[i]];
      if |pending| > LIMIT {
        oversized := true;
      } else if Blank(pending) {
        CutMore(done, events, pending);
        ghost var picks;
        var found;
        found, picks := Yield(pending);
        events, done, pending := events + found, done + [pending], [];
        assert Flat(done) + [] == stream[..i + 1];
      }
      i := i + 1;
    }
    if oversized {
      assert stream == Flat(done) + (pending + stream[i..]);
      WhenOversized(done, events, pending, stream[i..], stream);
    } else {
      assert stream[..i] == stream;
      AtEnd(done, events, pending, stream);
    }
    r := Framing(events, oversized);
  }

  lemma NothingCut()
    ensures Cut([], []) && Flat([]) + [] == [] && Open([])
  {}

  // ---- the events a server prints ----

  predicate OneLine(payload: Bytes) { LF !in payload && CR !in payload }

  function Printed(payload: Bytes): Bytes { DATA + payload + [LF, LF] }

  function PrintedAll(payloads: seq<Bytes>): (r: seq<Bytes>)
    ensures |r| == |payloads|
  {
    if payloads == [] then [] else [Printed(payloads[0])] + PrintedAll(payloads[1..])
  }

  lemma PrintedIsBlock(payload: Bytes)
    requires OneLine(payload)
    ensures Block(Printed(payload)) && Payloads(Lines(Printed(payload))) == [payload]
  {
    var s := Printed(payload);
    var line := DATA + payload;
    assert LF !in DATA && CR !in DATA;
    forall k | 0 <= k < |line| ensures s[k] != LF && s[k] != CR {
      assert s[k] == line[k] &&
        if k < |DATA| then line[k] == DATA[k] && DATA[k] in DATA else line[k] == payload[k - |DATA|];
    }
    assert s[|line|] == LF && LineEnd(s) == |line|;
    assert s[..|line|] == line && s[|line| + 1..] == [LF];
    assert LineEnd([LF]) == 0;
    assert [LF][..0] == [] && [LF][1..] == [];
    assert Lines([LF]) == [[]] + Lines([]);
    assert Lines(s) == [line] + [[]];
    assert IsData(line) && line[|DATA|..] == payload;
    assert Payloads([line, []][..1]) == Payloads([line]) == Payloads([]) + [payload];
  }

  /** How many payloads come before the first that is too long for a block. */
  function Fitting(payloads: seq<Bytes>): (n: nat)
    ensures n <= |payloads| && (n < |payloads| ==> |payloads[n]| + 8 > LIMIT)
    ensures forall k :: 0 <= k < n ==> |payloads[k]| + 8 <= LIMIT
  {
    if payloads == [] || |payloads[0]| + 8 > LIMIT then 0
    else
      var n := Fitting(payloads[1..]);
      assert forall k :: 0 < k < n + 1 ==> payloads[k] == payloads[1..][k - 1];
      n + 1
  }

  /** Printing payloads of one line each and framing the bytes gives the payloads back, unless one
      is too long; then it gives those before it and raises. */
  lemma {:induction false} PrintedIsFramed(payloads: seq<Bytes>)
    requires forall p :: p in payloads ==> OneLine(p)
    ensures IsSplit(PrintedAll(payloads), [], Flat(PrintedAll(payloads)))
    ensures Outcome(PrintedAll(payloads), []) == Framing(payloads[..Fitting(payloads)], Fitting(payloads) < |payloads|)
  {
    if payloads != [] {
      PrintedIsFramed(payloads[1..]);
      PrintedStep(payloads[0], payloads[1..]);
      assert payloads == [payloads[0]] + payloads[1..];
    }
  }

  lemma PrintedStep(payload: Bytes, payloads: seq<Bytes>)
    requires OneLine(payload) && IsSplit(PrintedAll(payloads), [], Flat(PrintedAll(payloads)))
    requires Outcome(PrintedAll(payloads), []) == Framing(payloads[..Fitting(payloads)], Fitting(payloads) < |payloads|)
    ensures var all := [payload] + payloads;
      IsSplit(PrintedAll(all), [], Flat(PrintedAll(all))) &&
      Outcome(PrintedAll(all), []) == Framing(all[..Fitting(all)], Fitting(all) < |all|)
  {
    hide Outcome, Payloads, Lines, Block, Open;
    var all, n := [payload] + payloads, Fitting(payloads);
    PrintedIsBlock(payload);
    assert all[1..] == payloads;
    assert PrintedAll(all) == [Printed(payload)] + PrintedAll(payloads);
    OutcomeStep(Printed(payload), PrintedAll(payloads), []);
    assert all[..n + 1] == [payload] + payloads[..n];
  }
}
