/** The reference cache of frontend/webui/api_client.py, for requests that do not overlap, against a
    server whose values change over time. */
module ReferenceCache {
  import opened Wrappers

  type Key = nat

  type Token = nat

  type Value = nat

  /** An entity tag; it identifies the value it was sent with. */
  datatype Tag = Tag(value: Value)

  datatype Response = NotModified | Content(value: Value, etag: Option<Tag>) | Failed

  datatype Entry = Entry(value: Value, etag: Option<Tag>, checkedAt: int)

  /** In milliseconds. */
  const LIFETIME: int := 30_000

  /** The values of the server, by identity and resource, from some time on. */
  datatype Epoch = Epoch(start: int, values: map<(Token, Key), Value>)

  function At(values: map<(Token, Key), Value>, token: Token, key: Key): Value {
    if (token, key) in values then values[(token, key)] else 0
  }

  /** The time until which epoch `i` lasts, so far. */
  function Until(timeline: seq<Epoch>, clock: int, i: nat): int
    requires i < |timeline|
  {
    if i + 1 < |timeline| then timeline[i + 1].start else clock
  }

  /** At time `t` the server held this value. */
  ghost predicate HeldAt(timeline: seq<Epoch>, clock: int, token: Token, key: Key, v: Value, t: int) {
    exists i :: 0 <= i < |timeline| && Holds(timeline, clock, i, token, key, v, t)
  }

  ghost predicate Holds(timeline: seq<Epoch>, clock: int, i: nat, token: Token, key: Key, v: Value, t: int)
    requires i < |timeline|
  {
    timeline[i].start <= t <= Until(timeline, clock, i) && At(timeline[i].values, token, key) == v
  }

  /** The epochs follow one another. */
  ghost predicate Proper(timeline: seq<Epoch>, clock: int) {
    timeline != [] && timeline[|timeline| - 1].start <= clock &&
    forall i, j :: 0 <= i < j < |timeline| ==> timeline[i].start <= timeline[j].start
  }

  /** The past stays. */
  ghost predicate Later(timeline: seq<Epoch>, clock: int, timeline': seq<Epoch>, clock': int) {
    |timeline| <= |timeline'| && timeline'[..|timeline|] == timeline && clock <= clock' &&
    (|timeline'| > |timeline| > 0 ==> timeline'[|timeline|].start >= clock)
  }

  lemma HeldLater(timeline: seq<Epoch>, clock: int, timeline': seq<Epoch>, clock': int, token: Token, key: Key,
      v: Value, t: int)
    requires Later(timeline, clock, timeline', clock') && HeldAt(timeline, clock, token, key, v, t)
    ensures HeldAt(timeline', clock', token, key, v, t)
  {
    var i :| 0 <= i < |timeline| && Holds(timeline, clock, i, token, key, v, t);
    assert timeline'[i] == timeline'[..|timeline|][i];
    assert i + 1 < |timeline| ==> timeline'[i + 1] == timeline'[..|timeline|][i + 1];
    assert Holds(timeline', clock', i, token, key, v, t);
  }

  lemma NothingPassed(timeline: seq<Epoch>, clock: int)
    ensures Later(timeline, clock, timeline, clock)
  {
    assert timeline[..|timeline|] == timeline;
  }

  lemma LaterTwice(a: seq<Epoch>, ca: int, b: seq<Epoch>, cb: int, c: seq<Epoch>, cc: int)
    requires Later(a, ca, b, cb) && Later(b, cb, c, cc)
    ensures Later(a, ca, c, cc)
  {
    assert c[..|a|] == c[..|b|][..|a|];
    assert |a| < |b| ==> c[|a|] == c[..|b|][|a|];
  }

  // ---- what passed between the client and the server ----

  /** One read: the time it was sent, answered and its answer arrived, and the value that the server
      held when it answered. */
  datatype Exchange = Exchange(token: Token, key: Key, condition: Option<Tag>, sent: int, answered: int, arrived: int,
                               response: Response, value: Value)

  /** The read told the client this value, by sending it or by confirming the one it had. */
  predicate Confirms(x: Exchange, token: Token, key: Key, v: Value) {
    x.token == token && x.key == key && !x.response.Failed? && x.value == v
  }

  /** The answer is true: 304 is only sent if the tag asked about is that of the present value. */
  predicate Truthful(x: Exchange) {
    match x.response
    case NotModified => x.condition == Some(Tag(x.value))
    case Content(v, etag) => v == x.value && (etag.Some? ==> etag.value == Tag(v))
    case Failed => true
  }

  /** Reads are answered while they are under way, and do not overlap. */
  ghost predicate Logged(log: seq<Exchange>, timeline: seq<Epoch>, clock: int) {
    (forall i :: 0 <= i < |log| ==> Answered(log[i], timeline, clock)) &&
    forall i, j :: 0 <= i < j < |log| ==> log[i].arrived <= log[j].sent
  }

  ghost predicate Answered(x: Exchange, timeline: seq<Epoch>, clock: int) {
    x.sent <= x.answered <= x.arrived <= clock && Truthful(x) &&
    HeldAt(timeline, clock, x.token, x.key, x.value, x.answered)
  }

  lemma LoggedLater(log: seq<Exchange>, timeline: seq<Epoch>, clock: int, timeline': seq<Epoch>, clock': int)
    requires Logged(log, timeline, clock) && Later(timeline, clock, timeline', clock')
    ensures Logged(log, timeline', clock')
  {
    forall i | 0 <= i < |log| ensures Answered(log[i], timeline', clock') {
      var x := log[i];
      HeldLater(timeline, clock, timeline', clock', x.token, x.key, x.value, x.answered);
    }
  }

  lemma LoggedMore(log: seq<Exchange>, x: Exchange, timeline: seq<Epoch>, clock: int)
    requires Logged(log, timeline, clock) && Answered(x, timeline, clock)
    requires forall i :: 0 <= i < |log| ==> log[i].arrived <= x.sent
    ensures Logged(log + [x], timeline, clock)
  {}

  /** Read `i` told this value, and no read of the same resource has succeeded since. */
  ghost predicate LastConfirms(log: seq<Exchange>, i: nat, token: Token, key: Key, v: Value) {
    i < |log| && Confirms(log[i], token, key, v) &&
    forall j :: i < j < |log| && log[j].token == token && log[j].key == key ==> log[j].response.Failed?
  }

  lemma StillConfirms(log: seq<Exchange>, log': seq<Exchange>, i: nat, token: Token, key: Key, v: Value)
    requires LastConfirms(log, i, token, key, v) && |log'| == |log| + 1 && log'[..|log|] == log
    requires log'[|log|].key != key || log'[|log|].response.Failed?
    ensures LastConfirms(log', i, token, key, v) && log'[i] == log[i]
  {
    forall j | 0 <= j < |log| ensures log'[j] == log[j] { assert log'[..|log|][j] == log'[j]; }
  }

  lemma LastRead(log: seq<Exchange>, timeline: seq<Epoch>, clock: int)
    requires log != [] && Logged(log, timeline, clock)
    ensures var x := log[|log| - 1];
      Truthful(x) && (!x.response.Failed? ==> LastConfirms(log, |log| - 1, x.token, x.key, x.value))
  {
    assert Answered(log[|log| - 1], timeline, clock);
  }

  function Payload(r: Response): Value { if r.Content? then r.value else 0 }

  function ETag(r: Response): Option<Tag> { if r.Content? then r.etag else None }

  class Server {
    var clock: int
    var timeline: seq<Epoch>
    /** So far, nobody but the one client has changed anything. */
    ghost var alone: bool
    /** All reads of the client. */
    ghost var log: seq<Exchange>

    constructor (values: map<(Token, Key), Value>)
      ensures Valid() && alone && clock == 0 && timeline == [Epoch(0, values)] && log == []
    {
      clock, timeline, alone, log := 0, [Epoch(0, values)], true, [];
    }

    ghost predicate Valid()
      reads this
    {
      Proper(timeline, clock) && Logged(log, timeline, clock)
    }

    function Current(token: Token, key: Key): Value
      requires timeline != []
      reads `timeline
    {
      At(timeline[|timeline| - 1].values, token, key)
    }

    /** Time passes, and others may change values meanwhile. */
    method Pass()
      requires Valid()
      modifies `clock, `timeline, `alone
      ensures Valid() && Later(old(timeline), old(clock), timeline, clock)
      ensures alone ==> old(alone) && forall token, key :: Current(token, key) == old(Current(token, key))
    {
      hide Logged;
      var steps: nat, time: int := *, *;
      while steps > 0
        invariant Proper(timeline, clock)
        invariant Later(old(timeline), old(clock), timeline, clock)
        invariant alone ==> old(alone) && forall token, key :: Current(token, key) == old(Current(token, key))
      {
        var values: map<(Token, Key), Value> := *;
        ghost var before, now := timeline, clock;
        time := *;
        if time > clock { clock := time; }
        timeline, alone := timeline + [Epoch(clock, values)], false;
        LaterTwice(old(timeline), old(clock), before, now, timeline, clock);
        steps := steps - 1;
      }
      if time > clock { clock := time; }
      LoggedLater(log, old(timeline), old(clock), timeline, clock);
    }

    /** The server carries out a mutation of the client, which may change anything or nothing. */
    method Mutate()
      requires Valid()
      modifies `timeline
      ensures Valid() && Later(old(timeline), clock, timeline, clock)
    {
      hide Logged;
      var values: map<(Token, Key), Value> := *;
      timeline := timeline + [Epoch(clock, values)];
      LoggedLater(log, old(timeline), clock, timeline, clock);
    }

    /** The answer to a conditional read: 304 only if the tag is that of the present value. */
    method Answer(token: Token, key: Key, condition: Option<Tag>) returns (r: Response)
      requires timeline != []
      ensures r.NotModified? ==> condition == Some(Tag(Current(token, key)))
      ensures r.Content? ==> r.value == Current(token, key) && (r.etag.Some? ==> r.etag.value == Tag(r.value))
    {
      var fails: bool, tagged: bool, full: bool := *, *, *;
      var value := Current(token, key);
      r := if fails then Failed
           else if condition == Some(Tag(value)) && !full then NotModified
           else Content(value, if tagged then Some(Tag(value)) else None);
    }

    /** One read: the server answers some time after it was sent, and the answer arrives some time
        after that. */
    method Read(token: Token, key: Key, condition: Option<Tag>) returns (r: Response)
      requires Valid()
      modifies `clock, `timeline, `alone, `log
      ensures Valid() && Later(old(timeline), old(clock), timeline, clock)
      ensures |log| == |old(log)| + 1 && log[..|old(log)|] == old(log)
      ensures var x := log[|log| - 1];
        x.token == token && x.key == key && x.condition == condition && x.response == r &&
        x.sent == old(clock) && x.arrived == clock && (alone ==> x.value == Current(token, key))
      ensures alone ==> old(alone) && forall t, k :: Current(t, k) == old(Current(t, k))
    {
      hide Logged, HeldAt, Later;
      ghost var sent := clock;
      ArrivedBefore(log, timeline, clock);
      Pass();
      ghost var timeline1, answered := timeline, clock;
      ghost var v := Current(token, key);
      r := Answer(token, key, condition);
      PresentIsHeld(timeline, clock, token, key);
      Pass();
      assert alone ==> v == Current(token, key);
      ghost var x := Exchange(token, key, condition, sent, answered, clock, r, v);
      LaterTwice(old(timeline), old(clock), timeline1, answered, timeline, clock);
      Arrives(log, x, timeline1, timeline, clock, old(timeline));
      log := log + [x];
    }
  }

  lemma PresentIsHeld(timeline: seq<Epoch>, clock: int, token: Token, key: Key)
    requires Proper(timeline, clock)
    ensures HeldAt(timeline, clock, token, key, At(timeline[|timeline| - 1].values, token, key), clock)
  {
    assert Holds(timeline, clock, |timeline| - 1, token, key, At(timeline[|timeline| - 1].values, token, key), clock);
  }

  /** A true answer arrives after all earlier ones. */
  lemma Arrives(log: seq<Exchange>, x: Exchange, between: seq<Epoch>, timeline: seq<Epoch>, clock: int,
      before: seq<Epoch>)
    requires Logged(log, timeline, clock) && Truthful(x) && (forall i :: 0 <= i < |log| ==> log[i].arrived <= x.sent)
    requires Later(before, x.sent, between, x.answered) && Later(between, x.answered, timeline, clock) &&
      x.arrived == clock
    requires HeldAt(between, x.answered, x.token, x.key, x.value, x.answered)
    ensures Logged(log + [x], timeline, clock)
  {
    hide Logged, HeldAt;
    HeldLater(between, x.answered, timeline, clock, x.token, x.key, x.value, x.answered);
    LoggedMore(log, x, timeline, clock);
  }

  lemma ArrivedBefore(log: seq<Exchange>, timeline: seq<Epoch>, clock: int)
    requires Logged(log, timeline, clock)
    ensures forall i :: 0 <= i < |log| ==> log[i].arrived <= clock
  {
    forall i | 0 <= i < |log| ensures log[i].arrived <= clock { assert Answered(log[i], timeline, clock); }
  }

  class ApiClient {
    const server: Server
    var cache: map<Key, Entry>
    var token: Token
    /** For every entry, the last read that confirmed it. */
    ghost var origin: map<Key, nat>

    constructor (server: Server, token: Token)
      requires server.Valid()
      ensures this.server == server && this.token == token && Valid() && cache == map[]
    {
      this.server, this.token := server, token;
      cache, origin := map[], map[];
    }

    ghost predicate Valid()
      reads this, server
    {
      server.Valid() && forall k :: k in cache ==> Trusted(k)
    }

    /** The entry is what the last successful read of its resource told, since that read arrived; and it
        is still the present value if only this client changes values. */
    ghost predicate Trusted(k: Key)
      requires server.Valid() && k in cache
      reads this, server
    {
      k in origin && LastConfirms(server.log, origin[k], token, k, cache[k].value) &&
      server.log[origin[k]].arrived == cache[k].checkedAt &&
      (cache[k].etag.Some? ==> cache[k].etag.value == Tag(cache[k].value)) &&
      (server.alone ==> cache[k].value == server.Current(token, k))
    }

    method Pass()
      requires Valid()
      modifies server`clock, server`timeline, server`alone
      ensures Valid() && Later(old(server.timeline), old(server.clock), server.timeline, server.clock)
      ensures server.alone ==>
        old(server.alone) && forall k :: server.Current(token, k) == old(server.Current(token, k))
    {
      hide Logged, LastConfirms;
      server.Pass();
      forall k | k in cache ensures Trusted(k) { assert old(Trusted(k)); }
    }

    /** `set_session_token`: rows of one identity are never shown to another. */
    method SetSessionToken(token: Token)
      requires Valid()
      modifies `token, `cache
      ensures Valid() && this.token == token
      ensures cache == if token == old(this.token) then old(cache) else map[]
    {
      if token != this.token { ClearReferenceCache(); }
      this.token := token;
    }

    method ClearReferenceCache()
      requires server.Valid()
      modifies `cache
      ensures Valid() && cache == map[]
    {
      cache := map[];
    }

    /** `request` with a method other than GET or HEAD that is not a read-only preview. Whether it
        succeeds or not, nothing read before it is kept. */
    method Mutate() returns (ok: bool)
      requires Valid()
      modifies server`clock, server`timeline, server`alone, `cache
      ensures Valid() && cache == map[] && Later(old(server.timeline), old(server.clock), server.timeline, server.clock)
    {
      hide Logged;
      ClearReferenceCache();
      ghost var timeline, clock := server.timeline, server.clock;
      Pass();
      ghost var timeline1, clock1 := server.timeline, server.clock;
      var arrives: bool := *;
      if arrives { server.Mutate(); }
      ghost var timeline2, clock2 := server.timeline, server.clock;
      Pass();
      if arrives { LaterTwice(timeline, clock, timeline1, clock1, timeline2, clock2); }
      LaterTwice(timeline, clock, timeline2, clock2, server.timeline, server.clock);
      ok := *;
    }

    /** `_reference_get`. A fresh entry is returned without a read. Otherwise there is one read, with
        the tag of the entry if it has one; its answer is returned and kept, a confirmed entry counts
        as fresh from its arrival, and a failure changes nothing. `from` is the read that told the
        value; if nobody else changes values, the value is the present one. */
    method ReferenceGet(key: Key) returns (r: Option<Value>, ghost from: nat)
      requires Valid()
      modifies server`clock, server`timeline, server`alone, server`log, `cache, `origin
      ensures Valid() && Later(old(server.timeline), old(server.clock), server.timeline, server.clock)
      ensures r.Some? ==> LastConfirms(server.log, from, token, key, r.value)
      ensures r.Some? ==>
        key in cache && cache[key].value == r.value && server.log[from].arrived == cache[key].checkedAt
      ensures r.Some? && server.alone ==> r.value == server.Current(token, key)
      ensures old(key in cache && server.clock - cache[key].checkedAt < LIFETIME) ==>
         r == Some(old(cache)[key].value) && cache == old(cache) && unchanged(server)
      ensures !old(key in cache && server.clock - cache[key].checkedAt < LIFETIME) ==>
        |server.log| == |old(server.log)| + 1 && server.log[..|old(server.log)|] == old(server.log) &&
        var x := server.log[|server.log| - 1];
        x.token == token && x.key == key && x.sent == old(server.clock) && x.arrived == server.clock &&
        x.condition == (if key in old(cache) then old(cache)[key].etag else None) &&
        cache - {key} == old(cache) - {key} &&
        (x.response.Content? ==>
          key in cache && cache[key] == Entry(x.response.value, x.response.etag, server.clock)) &&
        (x.response.NotModified? ==> key in cache && (key in old(cache) ==>
          cache[key] == Entry(old(cache)[key].value, old(cache)[key].etag, server.clock))) &&
        (x.response.Failed? ==> cache == old(cache)) &&
        r == (if x.response.Failed? then None else Some(cache[key].value)) && (r.Some? ==> from == |server.log| - 1)
    {
      hide Logged, LastConfirms, Proper, Later, Confirms;
      NothingPassed(server.timeline, server.clock);
      from := 0;
      var cached := if key in cache then Some(cache[key]) else None;
      assert key in cache ==> Trusted(key);
      if cached.Some? && server.clock - cached.value.checkedAt < LIFETIME {
        return Some(cached.value.value), origin[key];
      }
      ghost var log := server.log;
      var response := server.Read(token, key, if cached.Some? then cached.value.etag else None);
      ghost var x := server.log[|server.log| - 1];
      LastRead(server.log, server.timeline, server.clock);
      forall k | k in cache && (k != key || response.Failed?) ensures Trusted(k) {
        assert old(Trusted(k));
        StillConfirms(log, server.log, origin[k], token, k, cache[k].value);
      }
      if response.Failed? { return None, 0; }
      var entry := if response.NotModified? && cached.Some? then cached.value.(checkedAt := server.clock)
                   else Entry(Payload(response), ETag(response), server.clock);
      cache, origin := cache[key := entry], origin[key := |server.log| - 1];
      r, from := Some(entry.value), |server.log| - 1;
    }
  }

  // ---- how old a returned value may be ----

  /** Some moment between the sending and the arrival of the read explains what it told. */
  ghost predicate Explained(x: Exchange, timeline: seq<Epoch>, clock: int) {
    exists t :: x.sent <= t <= x.arrived && HeldAt(timeline, clock, x.token, x.key, x.value, t)
  }

  /** A history of the server that agrees with all that the client was told. */
  ghost predicate Consistent(log: seq<Exchange>, timeline: seq<Epoch>, clock: int) {
    Proper(timeline, clock) && forall x :: x in log && !x.response.Failed? ==> Explained(x, timeline, clock)
  }

  ghost predicate HeldLately(timeline: seq<Epoch>, clock: int, token: Token, key: Key, v: Value) {
    exists t :: clock - t < LIFETIME && HeldAt(timeline, clock, token, key, v, t)
  }

  /** The reads were made one after the other, before `clock`. */
  ghost predicate Sequential(log: seq<Exchange>, clock: int) {
    (forall i :: 0 <= i < |log| ==> log[i].sent <= log[i].arrived <= clock) &&
    forall i, j :: 0 <= i < j < |log| ==> log[i].arrived <= log[j].sent
  }

  /** What happened is one of the histories that agree with what the client was told. */
  lemma TruthIsConsistent(log: seq<Exchange>, timeline: seq<Epoch>, clock: int)
    requires Proper(timeline, clock) && Logged(log, timeline, clock)
    ensures Consistent(log, timeline, clock) && Sequential(log, clock)
  {
    forall x | x in log ensures Explained(x, timeline, clock) && x.sent <= x.arrived <= clock {
      var i :| 0 <= i < |log| && log[i] == x;
      assert Answered(log[i], timeline, clock);
    }
  }

  /** What a server holds that is about to change every value it told back to another one. */
  function Away(token: Token, key: Key, v: Value): map<(Token, Key), Value> { map[(token, key) := v + 1] }

  function Told(x: Exchange, token: Token, key: Key, v: Value): map<(Token, Key), Value> {
    if x.response.Failed? then Away(token, key, v) else Away(token, key, v)[(x.token, x.key) := x.value]
  }

  /** Such a server: it holds what it tells only at the moment a read is sent. */
  function Fickle(log: seq<Exchange>, token: Token, key: Key, v: Value): (timeline: seq<Epoch>)
    requires log != []
    ensures |timeline| == 2 * |log| + 1
  {
    seq(2 * |log| + 1, i requires 0 <= i < 2 * |log| + 1 =>
      if i == 0 then Epoch(log[0].sent, Away(token, key, v))
      else if i % 2 == 1 then Epoch(log[(i - 1) / 2].sent, Told(log[(i - 1) / 2], token, key, v))
      else Epoch(log[(i - 1) / 2].sent, Away(token, key, v)))
  }

  /** The read at which its epoch `i` starts. */
  function ReadAt(i: nat): nat { if i == 0 then 0 else (i - 1) / 2 }

  lemma FickleStarts(log: seq<Exchange>, token: Token, key: Key, v: Value)
    requires log != []
    ensures var timeline := Fickle(log, token, key, v);
      forall i :: 0 <= i < |timeline| ==> ReadAt(i) < |log| && timeline[i].start == log[ReadAt(i)].sent
  {
    hide Told, Away;
  }

  lemma FickleIsProper(log: seq<Exchange>, clock: int, token: Token, key: Key, v: Value)
    requires log != [] && Sequential(log, clock)
    ensures Proper(Fickle(log, token, key, v), clock)
  {
    hide Told, Away, Fickle;
    var timeline := Fickle(log, token, key, v);
    FickleStarts(log, token, key, v);
    forall i, j | 0 <= i < j < |timeline| ensures timeline[i].start <= timeline[j].start {
      var m, n := ReadAt(i), ReadAt(j);
      assert m <= n && (m < n ==> log[m].sent <= log[m].arrived <= log[n].sent);
    }
    assert ReadAt(2 * |log|) == |log| - 1 && log[|log| - 1].sent <= log[|log| - 1].arrived <= clock;
  }

  lemma FickleIsConsistent(log: seq<Exchange>, clock: int, token: Token, key: Key, v: Value)
    requires log != [] && Sequential(log, clock)
    ensures Consistent(log, Fickle(log, token, key, v), clock)
  {
    hide Proper;
    var timeline := Fickle(log, token, key, v);
    FickleIsProper(log, clock, token, key, v);
    forall x | x in log && !x.response.Failed? ensures Explained(x, timeline, clock) {
      var j :| 0 <= j < |log| && log[j] == x;
      assert (2 * j + 1 - 1) / 2 == j && (2 * j + 2 - 1) / 2 == j;
      assert Holds(timeline, clock, 2 * j + 1, x.token, x.key, x.value, x.sent);
      assert HeldAt(timeline, clock, x.token, x.key, x.value, x.sent);
    }
  }

  /** It holds the value at no other moments than those of the reads that told it. */
  lemma FickleHolds(log: seq<Exchange>, clock: int, token: Token, key: Key, v: Value, t: int) returns (j: nat)
    requires log != [] && HeldAt(Fickle(log, token, key, v), clock, token, key, v, t)
    ensures j < |log| && Confirms(log[j], token, key, v) && t == log[j].sent
  {
    var timeline := Fickle(log, token, key, v);
    var i :| 0 <= i < |timeline| && Holds(timeline, clock, i, token, key, v, t);
    assert i % 2 == 1;
    j := (i - 1) / 2;
    assert (i + 1 - 1) / 2 == j && timeline[i + 1].start == log[j].sent;
  }

  /** A returned value is sure to have been held within the last 30 seconds, whatever the server did
      that agrees with what the client was told, exactly if the read that told it was sent less than
      30 seconds ago. Its arrival does not matter. */
  lemma LatelyIff(log: seq<Exchange>, i: nat, clock: int, token: Token, key: Key, v: Value)
    requires Sequential(log, clock) && LastConfirms(log, i, token, key, v)
    ensures (forall timeline :: Consistent(log, timeline, clock) ==> HeldLately(timeline, clock, token, key, v)) <==>
      clock - log[i].sent < LIFETIME
  {
    if clock - log[i].sent < LIFETIME {
      forall timeline | Consistent(log, timeline, clock) ensures HeldLately(timeline, clock, token, key, v) {
        assert log[i] in log && Explained(log[i], timeline, clock);
      }
    } else {
      var timeline := Fickle(log, token, key, v);
      FickleIsConsistent(log, clock, token, key, v);
      forall t | HeldAt(timeline, clock, token, key, v, t) ensures clock - t >= LIFETIME {
        var j := FickleHolds(log, clock, token, key, v, t);
        assert j < i ==> log[j].sent <= log[j].arrived <= log[i].sent;
      }
      assert Consistent(log, timeline, clock) && !HeldLately(timeline, clock, token, key, v);
    }
  }

  /** A history in which the promise fails. The server answers at once, the value changes a
      millisecond later, the answer is under way for four seconds, and the entry is still fresh when the
      value has been gone for more than 30 seconds. */
  lemma FreshButOld()
    ensures var log := [Exchange(0, 0, None, 0, 0, 4001, Content(5, None), 5)];
      var timeline := [Epoch(0, map[(0, 0) := 5]), Epoch(1, map[(0, 0) := 6])];
      Proper(timeline, 34000) && Logged(log, timeline, 34000) && LastConfirms(log, 0, 0, 0, 5) &&
      34000 - log[0].arrived < LIFETIME && !HeldLately(timeline, 34000, 0, 0, 5)
  {
    var timeline := [Epoch(0, map[(0, 0) := 5]), Epoch(1, map[(0, 0) := 6])];
    assert Holds(timeline, 34000, 0, 0, 0, 5, 0);
    assert !Holds(timeline, 34000, 1, 0, 0, 5, 34000);
  }
}
