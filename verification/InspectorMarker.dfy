/** The invisible markers of frontend/webui/i18n_catalogue.py around rendered messages, and how they
    are removed: by its pattern, and layer by layer in static/translation-inspector.js. */
module InspectorMarker {
  import opened Wrappers

  type Byte = x: nat | x < 256

  /** A code point. */
  type Point = nat

  type Text = seq<Point>

  const START: Point := 0x2063
  const SEPARATOR: Point := 0x2064
  const BASE: Point := 0xFE00
  /** The largest length that the browser takes for exact. */
  const MAX_SAFE: nat := 0x1F_FFFF_FFFF_FFFF

  predicate Selector(c: Point) { BASE <= c < BASE + 16 }

  predicate Digits(s: Text) { forall c :: c in s ==> Selector(c) }

  function KeyDigits(key: seq<Byte>): (s: Text)
    ensures Digits(s) && |s| == 2 * |key|
  {
    if key == [] then [] else [BASE + key[0] / 16, BASE + key[0] % 16] + KeyDigits(key[1..])
  }

  function LengthDigits(n: nat): (s: Text)
    ensures Digits(s) && s != []
  {
    if n < 16 then [BASE + n] else LengthDigits(n / 16) + [BASE + n % 16]
  }

  function Header(key: seq<Byte>, fallback: bool, length: nat): Text {
    [START] + KeyDigits(key) + [SEPARATOR, BASE + if fallback then 1 else 0, SEPARATOR] + LengthDigits(length) +
      [SEPARATOR]
  }

  /** `_diagnostic_marker` for a client that inspects. */
  function Marker(key: seq<Byte>, fallback: bool, rendered: Text): Text { Header(key, fallback, |rendered|) + rendered }

  // ---- reading a header back ----

  /** Pairs of digits as bytes; an odd digit at the end is passed over. */
  function KeyOf(digits: Text): seq<Byte>
    requires Digits(digits)
  {
    if |digits| < 2 then []
    else
      assert digits[0] in digits && digits[1] in digits;
      [(digits[0] - BASE) * 16 + (digits[1] - BASE)] + KeyOf(digits[2..])
  }

  function LengthOf(digits: Text): nat
    requires Digits(digits)
  {
    if digits == [] then 0
    else
      var n := |digits| - 1;
      assert digits[n] in digits;
      LengthOf(digits[..n]) * 16 + (digits[n] - BASE)
  }

  lemma {:induction false} KeyComesBack(key: seq<Byte>)
    ensures KeyOf(KeyDigits(key)) == key
  {
    if key != [] {
      KeyComesBack(key[1..]);
      assert KeyDigits(key)[2..] == KeyDigits(key[1..]);
    }
  }

  lemma {:induction false} LengthComesBack(n: nat)
    ensures LengthOf(LengthDigits(n)) == n
  {
    var digits := LengthDigits(n);
    if n < 16 {
      assert digits[..0] == [];
    } else {
      LengthComesBack(n / 16);
      assert digits[..|digits| - 1] == LengthDigits(n / 16);
    }
  }

  /** The first place of `c` from `at` on. */
  function IndexOf(s: Text, c: Point, at: nat): (r: int)
    ensures r == -1 || (at <= r < |s| && s[r] == c)
    ensures forall i :: at <= i < |s| && (r == -1 || i < r) ==> s[i] != c
    decreases |s| - at
  {
    if at >= |s| then -1 else if s[at] == c then at else IndexOf(s, c, at + 1)
  }

  lemma IndexIs(s: Text, c: Point, at: nat, r: nat)
    requires at <= r < |s| && s[r] == c && forall i :: at <= i < r ==> s[i] != c
    ensures IndexOf(s, c, at) == r
  {
    var q := IndexOf(s, c, at);
    assert q == -1 || q <= r;
  }

  lemma NoIndex(s: Text, c: Point, at: nat)
    requires forall i :: at <= i < |s| ==> s[i] != c
    ensures IndexOf(s, c, at) == -1
  {}

  /** The three separators after a start: of the key, the flag and the length. */
  function Separators(s: Text): (int, int, int) {
    var b := IndexOf(s, SEPARATOR, 1);
    var c := if b < 0 then -1 else IndexOf(s, SEPARATOR, b + 1);
    (b, c, if c < 0 then -1 else IndexOf(s, SEPARATOR, c + 1))
  }

  predicate Framed(s: Text, key: Text, flag: Point, length: Text, rest: Text) {
    s == [START] + key + [SEPARATOR, flag, SEPARATOR] + length + [SEPARATOR] + rest
  }

  lemma Parts(s: Text, key: Text, flag: Point, length: Text, rest: Text)
    requires Framed(s, key, flag, length, rest)
    ensures var b := 1 + |key|;
      var d := b + 3 + |length|;
      |s| == d + 1 + |rest| && s[0] == START && s[1..b] == key && s[b] == SEPARATOR && s[b + 1] == flag &&
        s[b + 2] == SEPARATOR &&
      s[b + 3..d] == length && s[d] == SEPARATOR && s[d + 1..] == rest && s[1..] == key + s[b..] &&
        s[b + 3..] == length + s[d..]
  {}

  lemma NoSeparator(s: Text, a: nat, b: nat)
    requires a <= b <= |s| && Digits(s[a..b])
    ensures forall i :: a <= i < b ==> s[i] != SEPARATOR
  {
    forall i | a <= i < b ensures s[i] != SEPARATOR { assert s[i] == s[a..b][i - a] && s[i] in s[a..b]; }
  }

  lemma SeparatorsAre(s: Text, key: Text, flag: Point, length: Text, rest: Text)
    requires Framed(s, key, flag, length, rest) && Digits(key) && Digits(length) && flag != SEPARATOR
    ensures Separators(s) == (1 + |key|, 3 + |key|, 4 + |key| + |length|)
  {
    hide Framed, IndexOf, Digits, Selector;
    Parts(s, key, flag, length, rest);
    var b := 1 + |key|;
    NoSeparator(s, 1, b);
    NoSeparator(s, b + 3, b + 3 + |length|);
    IndexIs(s, SEPARATOR, 1, b);
    IndexIs(s, SEPARATOR, b + 1, b + 2);
    IndexIs(s, SEPARATOR, b + 3, b + 3 + |length|);
  }

  datatype Frame = Frame(key: seq<Byte>, fallback: bool, rendered: Text, rest: Text)

  /** What the browser makes of a text that starts with a marker. */
  function Read(s: Text): Option<Frame> {
    var (b, c, d) := Separators(s);
    if s == [] || s[0] != START || d < 0 || !Digits(s[1..b]) || !Digits(s[c + 1..d]) then None
    else
      var n := LengthOf(s[c + 1..d]);
      if c + 1 == d || |s| - (d + 1) < n then None
      else Some(Frame(KeyOf(s[1..b]), s[b + 1] == BASE + 1, s[d + 1..][..n], s[d + 1..][n..]))
  }

  lemma ReadFramed(s: Text, key: Text, flag: Point, length: Text, rest: Text)
    requires Framed(s, key, flag, length, rest) && Digits(key) && Digits(length) && length != [] && flag != SEPARATOR
    requires LengthOf(length) <= |rest|
    ensures Read(s) == Some(Frame(KeyOf(key), flag == BASE + 1, rest[..LengthOf(length)], rest[LengthOf(length)..]))
  {
    hide Framed, Digits, Separators, KeyOf, LengthOf;
    Parts(s, key, flag, length, rest);
    SeparatorsAre(s, key, flag, length, rest);
  }

  lemma MarkerIsFramed(key: seq<Byte>, fallback: bool, n: nat, rest: Text)
    ensures Framed(Header(key, fallback, n) + rest, KeyDigits(key), BASE + (if fallback then 1 else 0),
      LengthDigits(n), rest)
  {}

  /** From a marker followed by anything, everything is recovered: the key, the flag, the exact
      rendered text, which may hold markers of its own, and what follows. */
  lemma MarkerIsRead(key: seq<Byte>, fallback: bool, rendered: Text, rest: Text)
    ensures Read(Marker(key, fallback, rendered) + rest) == Some(Frame(key, fallback, rendered, rest))
  {
    hide Header, KeyDigits, LengthDigits, Digits, Framed, Read, KeyOf, LengthOf;
    var n, after := |rendered|, rendered + rest;
    MarkerIsFramed(key, fallback, n, after);
    KeyComesBack(key);
    LengthComesBack(n);
    ReadFramed(Header(key, fallback, n) + after, KeyDigits(key), BASE + (if fallback then 1 else 0),
      LengthDigits(n), after);
    assert after[..n] == rendered && after[n..] == rest;
    assert Marker(key, fallback, rendered) + rest == Header(key, fallback, n) + after;
  }

  /** Two markers followed by anything are equal only if all their parts are. */
  lemma MarkerIsUnique(key: seq<Byte>, fallback: bool, rendered: Text, rest: Text,
                       key': seq<Byte>, fallback': bool, rendered': Text, rest': Text)
    requires Marker(key, fallback, rendered) + rest == Marker(key', fallback', rendered') + rest'
    ensures key == key' && fallback == fallback' && rendered == rendered' && rest == rest'
  {
    MarkerIsRead(key, fallback, rendered, rest);
    MarkerIsRead(key', fallback', rendered', rest');
  }

  // ---- removing metadata by its pattern ----

  /** How many selectors come first. */
  function Run(s: Text): (n: nat)
    ensures n <= |s| && Digits(s[..n]) && (n < |s| ==> !Selector(s[n]))
  {
    if s == [] || !Selector(s[0]) then 0
    else
      var n := Run(s[1..]);
      assert s[..n + 1] == [s[0]] + s[1..][..n];
      n + 1
  }

  lemma {:induction false} RunIs(digits: Text, s: Text)
    requires Digits(digits) && (s != [] ==> !Selector(s[0]))
    ensures Run(digits + s) == |digits|
  {
    if digits == [] {
      assert digits + s == s;
    } else {
      assert digits[0] in digits && (digits + s)[1..] == digits[1..] + s;
      RunIs(digits[1..], s);
    }
  }

  /** The length of the match of the pattern at the start of the text, or zero. */
  function Match(s: Text): (n: nat)
    ensures n <= |s|
  {
    if s == [] || s[0] != START then 0
    else
      var k := Run(s[1..]);
      if k == 0 || |s| < k + 5 || s[k + 1] != SEPARATOR || !(BASE <= s[k + 2] <= BASE + 1) ||
         s[k + 3] != SEPARATOR
      then 0
      else
        var m := Run(s[k + 4..]);
        if m == 0 || |s| < k + m + 5 || s[k + m + 4] != SEPARATOR then 0 else k + m + 5
  }

  /** `strip_diagnostic_metadata`: every match of the pattern is dropped, from left to right. */
  function Strip(s: Text): Text
    decreases |s|
  {
    if s == [] then []
    else if Match(s) > 0 then Strip(s[Match(s)..])
    else [s[0]] + Strip(s[1..])
  }

  lemma MatchFramed(s: Text, key: Text, flag: Point, length: Text, rest: Text)
    requires Framed(s, key, flag, length, rest) && Digits(key) && key != [] && Digits(length) && length != []
    requires BASE <= flag <= BASE + 1
    ensures Match(s) == |key| + |length| + 5
  {
    hide Framed, Run, Digits;
    Parts(s, key, flag, length, rest);
    RunIs(key, s[|key| + 1..]);
    RunIs(length, s[|key| + |length| + 4..]);
  }

  /** Only a text that starts with a header matches: a start, selectors, a separator, one of the first two
      selectors, a separator, selectors, a separator. */
  lemma MatchIsFramed(s: Text) returns (key: Text, flag: Point, length: Text, rest: Text)
    requires Match(s) > 0
    ensures s == [START] + key + [SEPARATOR, flag, SEPARATOR] + length + [SEPARATOR] + rest
    ensures key != [] && length != [] && Digits(key) && Digits(length) && (flag == BASE || flag == BASE + 1)
    ensures Match(s) == |key| + |length| + 5
  {
    hide Selector, Digits, Run;
    var k := Run(s[1..]);
    var m := Run(s[k + 4..]);
    key, flag, length, rest := s[1..][..k], s[k + 2], s[k + 4..][..m], s[k + m + 5..];
    assert s == s[..1] + key + s[k + 1..k + 4] + length + s[k + m + 4..k + m + 5] + rest;
    assert s[..1] == [START] && s[k + 1..k + 4] == [SEPARATOR, flag, SEPARATOR] &&
      s[k + m + 4..k + m + 5] == [SEPARATOR];
  }

  lemma HeaderMatches(key: seq<Byte>, fallback: bool, n: nat, rest: Text)
    requires key != []
    ensures Match(Header(key, fallback, n) + rest) == |Header(key, fallback, n)|
  {
    hide KeyDigits, LengthDigits, Digits, Framed, Match;
    var flag := BASE + if fallback then 1 else 0;
    MarkerIsFramed(key, fallback, n, rest);
    MatchFramed(Header(key, fallback, n) + rest, KeyDigits(key), flag, LengthDigits(n), rest);
  }

  /** Stripping a marked text is stripping the rendered text alone, whatever follows. */
  lemma StripMarker(key: seq<Byte>, fallback: bool, rendered: Text, rest: Text)
    requires key != []
    ensures Strip(Marker(key, fallback, rendered) + rest) == Strip(rendered + rest)
  {
    var header := Header(key, fallback, |rendered|);
    assert Marker(key, fallback, rendered) + rest == header + (rendered + rest);
    HeaderMatches(key, fallback, |rendered|, rendered + rest);
    assert (header + (rendered + rest))[|header|..] == rendered + rest;
  }

  /** A marker hides nothing of what comes before it: no match runs into its start. */
  lemma {:induction false} StripBefore(before: Text, s: Text)
    requires s != [] && s[0] == START
    ensures Strip(before + s) == Strip(before) + Strip(s)
    decreases |before|
  {
    if before == [] {
      assert before + s == s;
    } else {
      MatchBefore(before, s);
      var n := Match(before);
      if n > 0 {
        assert (before + s)[n..] == before[n..] + s;
        StripBefore(before[n..], s);
      } else {
        assert (before + s)[1..] == before[1..] + s;
        StripBefore(before[1..], s);
      }
    }
  }

  lemma {:induction false} RunBefore(before: Text, s: Text)
    requires s != [] && !Selector(s[0])
    ensures Run(before + s) == Run(before)
  {
    if before != [] {
      assert (before + s)[1..] == before[1..] + s;
      if Selector(before[0]) { RunBefore(before[1..], s); }
    } else {
      assert before + s == s;
    }
  }

  lemma MatchBefore(before: Text, s: Text)
    requires before != [] && s != [] && s[0] == START
    ensures Match(before + s) == Match(before)
  {
    hide Run;
    var t := before + s;
    if before[0] == START {
      RunBefore(before[1..], s);
      assert t[1..] == before[1..] + s;
      var k := Run(before[1..]);
      if |before| >= k + 5 {
        RunBefore(before[k + 4..], s);
        assert t[k + 4..] == before[k + 4..] + s;
      }
    }
  }

  // ---- documents: visible text and markers, one inside the other ----

  datatype Doc = End | Visible(c: Point, next: Doc) | Marked(key: seq<Byte>, fallback: bool, body: Doc, next: Doc)

  /** Visible text may hold anything but the start of a marker, and no key is empty. */
  predicate Proper(doc: Doc) {
    match doc
    case End => true
    case Visible(c, next) => c != START && Proper(next)
    case Marked(key, _, body, next) => key != [] && Proper(body) && Proper(next)
  }

  function Print(doc: Doc): Text {
    match doc
    case End => []
    case Visible(c, next) => [c] + Print(next)
    case Marked(key, fallback, body, next) => Marker(key, fallback, Print(body)) + Print(next)
  }

  function Shown(doc: Doc): Text {
    match doc
    case End => []
    case Visible(c, next) => [c] + Shown(next)
    case Marked(_, _, body, next) => Shown(body) + Shown(next)
  }

  lemma StripVisible(c: Point, s: Text)
    requires c != START
    ensures Strip([c] + s) == [c] + Strip(s)
  {
    assert ([c] + s)[1..] == s;
  }

  /** Stripping a document leaves what it shows, whatever follows it. */
  lemma {:induction false} StripPrinted(doc: Doc, rest: Text)
    requires Proper(doc)
    ensures Strip(Print(doc) + rest) == Shown(doc) + Strip(rest)
  {
    hide Strip, Match, Marker;
    match doc
    case End =>
      assert Print(doc) + rest == rest;
    case Visible(c, next) =>
      StripPrinted(next, rest);
      assert Print(doc) + rest == [c] + (Print(next) + rest);
      StripVisible(c, Print(next) + rest);
    case Marked(key, fallback, body, next) =>
      StripPrinted(next, rest);
      StripPrinted(body, Print(next) + rest);
      assert Print(doc) + rest == Marker(key, fallback, Print(body)) + (Print(next) + rest);
      StripMarker(key, fallback, Print(body), Print(next) + rest);
  }

  // ---- the browser: one layer at a time ----

  datatype Entry = Entry(key: seq<Byte>, fallback: bool, rendered: Text)

  function Joined(doc: Doc, more: Doc): Doc {
    match doc
    case End => more
    case Visible(c, next) => Visible(c, Joined(next, more))
    case Marked(key, fallback, body, next) => Marked(key, fallback, body, Joined(next, more))
  }

  /** The document without its outermost markers. */
  function Peeled(doc: Doc): Doc {
    match doc
    case End => End
    case Visible(c, next) => Visible(c, Peeled(next))
    case Marked(_, _, body, next) => Joined(body, Peeled(next))
  }

  function Entries(doc: Doc): seq<Entry> {
    match doc
    case End => []
    case Visible(_, next) => Entries(next)
    case Marked(key, fallback, body, next) => [Entry(key, fallback, Print(body))] + Entries(next)
  }

  lemma {:induction false} PrintJoined(doc: Doc, more: Doc)
    ensures Print(Joined(doc, more)) == Print(doc) + Print(more)
  {
    hide Marker;
    match doc
    case End =>
    case Visible(_, next) => PrintJoined(next, more);
    case Marked(_, _, _, next) => PrintJoined(next, more);
  }

  lemma {:induction false} ShownJoined(doc: Doc, more: Doc)
    ensures Shown(Joined(doc, more)) == Shown(doc) + Shown(more)
  {
    match doc
    case End =>
    case Visible(_, next) => ShownJoined(next, more);
    case Marked(_, _, _, next) => ShownJoined(next, more);
  }

  lemma {:induction false} ProperJoined(doc: Doc, more: Doc)
    requires Proper(doc) && Proper(more)
    ensures Proper(Joined(doc, more)) && Depth(Joined(doc, more)) == Max(Depth(doc), Depth(more))
  {
    match doc
    case End =>
    case Visible(_, next) => ProperJoined(next, more);
    case Marked(_, _, _, next) => ProperJoined(next, more);
  }

  function Max(a: nat, b: nat): nat { if a < b then b else a }

  /** How deep markers are nested. */
  function Depth(doc: Doc): nat {
    match doc
    case End => 0
    case Visible(_, next) => Depth(next)
    case Marked(_, _, body, next) => Max(1 + Depth(body), Depth(next))
  }

  /** A layer less, and still the same to see. */
  lemma {:induction false} PeeledShows(doc: Doc)
    requires Proper(doc)
    ensures Proper(Peeled(doc)) && Shown(Peeled(doc)) == Shown(doc)
    ensures Depth(Peeled(doc)) == if Depth(doc) > 0 then Depth(doc) - 1 else 0
  {
    match doc
    case End =>
    case Visible(_, next) => PeeledShows(next);
    case Marked(_, _, body, next) =>
      PeeledShows(next);
      ProperJoined(body, Peeled(next));
      ShownJoined(body, Peeled(next));
  }

  lemma {:induction false} FlatIsShown(doc: Doc)
    requires Depth(doc) == 0
    ensures Print(doc) == Shown(doc)
  {
    match doc
    case End =>
    case Visible(_, next) => FlatIsShown(next);
  }

  function PeeledTimes(doc: Doc, n: nat): Doc
    decreases n
  {
    if n == 0 then doc else PeeledTimes(Peeled(doc), n - 1)
  }

  lemma NothingStrips()
    ensures Strip([]) == []
  {}

  /** As many rounds of the browser as there are layers leave what the pattern leaves. */
  lemma {:induction false} RoundsStrip(doc: Doc)
    requires Proper(doc)
    ensures Print(PeeledTimes(doc, Depth(doc))) == Shown(doc) == Strip(Print(doc))
    decreases Depth(doc)
  {
    hide Strip, Match, Shown, Print, Peeled, Proper;
    StripPrinted(doc, []);
    NothingStrips();
    assert Print(doc) + [] == Print(doc) && Shown(doc) + [] == Shown(doc);
    if Depth(doc) == 0 {
      FlatIsShown(doc);
    } else {
      PeeledShows(doc);
      RoundsStrip(Peeled(doc));
    }
  }

  /** The visible text up to the first marker, and the rest. */
  function Lead(doc: Doc): Text { if doc.Visible? then [doc.c] + Lead(doc.next) else [] }

  function Tail(doc: Doc): Doc { if doc.Visible? then Tail(doc.next) else doc }

  lemma {:induction false} LeadAndTail(doc: Doc)
    requires Proper(doc)
    ensures !Tail(doc).Visible? && Proper(Tail(doc)) && forall i :: 0 <= i < |Lead(doc)| ==> Lead(doc)[i] != START
    ensures Print(doc) == Lead(doc) + Print(Tail(doc))
  {
    hide Marker;
    if doc.Visible? { LeadAndTail(doc.next); }
  }

  lemma {:induction false} LeadIsKept(doc: Doc)
    ensures Print(Peeled(doc)) == Lead(doc) + Print(Peeled(Tail(doc))) && Entries(doc) == Entries(Tail(doc))
  {
    hide Marker, Joined;
    if doc.Visible? { LeadIsKept(doc.next); }
  }

  /** `rest` is what is left of the document when the browser is at `at`. */
  ghost predicate At(doc: Doc, value: Text, at: nat, rest: Doc, out: Text, entries: seq<Entry>) {
    at <= |value| <= MAX_SAFE && Proper(rest) && Print(rest) == value[at..] &&
    Print(Peeled(doc)) == out + Print(Peeled(rest)) && Entries(doc) == entries + Entries(rest)
  }

  lemma Cut(value: Text, at: nat, lead: Text, tail: Text)
    requires at <= |value| && value[at..] == lead + tail
    ensures at + |lead| <= |value| && value[at..at + |lead|] == lead && value[at + |lead|..] == tail
  {
    assert value[at..at + |lead|] == value[at..][..|lead|];
    assert value[at + |lead|..] == value[at..][|lead|..];
  }

  lemma NextStart(value: Text, at: nat, lead: Text, tail: Text)
    requires at <= |value| && value[at..] == lead + tail && (forall i :: 0 <= i < |lead| ==> lead[i] != START)
    requires tail != [] ==> tail[0] == START
    ensures IndexOf(value, START, at) == if tail == [] then -1 else at + |lead|
  {
    var a := at + |lead|;
    Cut(value, at, lead, tail);
    assert forall i :: at <= i < a ==> value[i] == value[at..a][i - at];
    if tail == [] {
      NoIndex(value, START, at);
    } else {
      assert value[a] == value[a..][0];
      IndexIs(value, START, at, a);
    }
  }

  /** The next start of a marker is where the visible text ends. */
  lemma StartIs(value: Text, at: nat, rest: Doc)
    requires at <= |value| && Proper(rest) && Print(rest) == value[at..]
    ensures var a := at + |Lead(rest)|;
      a <= |value| && value[at..a] == Lead(rest) && value[a..] == Print(Tail(rest)) &&
      IndexOf(value, START, at) == if Tail(rest).Marked? then a else -1
    ensures !Tail(rest).Marked? ==> value[at..] == Lead(rest)
  {
    hide Marker, Proper, Lead, Tail, IndexOf;
    LeadAndTail(rest);
    var lead, tail := Lead(rest), Tail(rest);
    PrintStarts(tail);
    Cut(value, at, lead, Print(tail));
    NextStart(value, at, lead, Print(tail));
  }

  lemma PrintStarts(doc: Doc)
    ensures doc.Marked? ==> Print(doc) != [] && Print(doc)[0] == START
  {
    if doc.Marked? { MarkerStarts(doc.key, doc.fallback, Print(doc.body)); }
  }

  lemma EndIsBlank()
    ensures Proper(End) && Print(End) == [] && Peeled(End) == End && Entries(End) == []
  {}

  lemma AtStart(doc: Doc, value: Text, at: nat, rest: Doc, out: Text, entries: seq<Entry>)
    requires At(doc, value, at, rest, out, entries)
    ensures var a := IndexOf(value, START, at);
      if a < 0 then At(doc, value, |value|, End, out + value[at..], entries)
      else At(doc, value, a, Tail(rest), out + value[at..a], entries) && Tail(rest).Marked?
  {
    hide Marker, Lead, Tail, Print, Peeled, Entries, IndexOf, Proper;
    LeadAndTail(rest);
    LeadIsKept(rest);
    StartIs(value, at, rest);
    EndIsBlank();
    assert value[|value|..] == [] && entries + [] == entries;
    assert out + (Lead(rest) + Print(Peeled(Tail(rest)))) == out + Lead(rest) + Print(Peeled(Tail(rest)));
  }

  lemma MarkerIsLonger(key: seq<Byte>, fallback: bool, rendered: Text)
    ensures |rendered| <= |Marker(key, fallback, rendered)|
  {}

  lemma MarkerStarts(key: seq<Byte>, fallback: bool, rendered: Text)
    ensures Marker(key, fallback, rendered) != [] && Marker(key, fallback, rendered)[0] == START
  {}

  /** A whole marker is taken at once. */
  lemma AtMarker(doc: Doc, value: Text, a: nat, rest: Doc, out: Text, entries: seq<Entry>)
    requires At(doc, value, a, rest, out, entries) && rest.Marked?
    ensures var rendered := Print(rest.body);
      var next := a + |Marker(rest.key, rest.fallback, rendered)|;
      Read(value[a..]) == Some(Frame(rest.key, rest.fallback, rendered, Print(rest.next))) &&
      |value[a..]| == |Marker(rest.key, rest.fallback, rendered)| + |Print(rest.next)| && rest.key != [] &&
      |rendered| <= MAX_SAFE &&
      At(doc, value, next, rest.next, out + rendered, entries + [Entry(rest.key, rest.fallback, rendered)])
  {
    hide Marker, Read, Joined;
    var rendered := Print(rest.body);
    var marker := Marker(rest.key, rest.fallback, rendered);
    MarkerIsRead(rest.key, rest.fallback, rendered, Print(rest.next));
    PrintJoined(rest.body, Peeled(rest.next));
    assert Print(Peeled(rest)) == rendered + Print(Peeled(rest.next));
    assert out + (rendered + Print(Peeled(rest.next))) == out + rendered + Print(Peeled(rest.next));
    Cut(value, a, marker, Print(rest.next));
    assert |rendered| <= |marker| by { MarkerIsLonger(rest.key, rest.fallback, rendered); }
  }

  /** `parse` of the browser. Of a document it takes off the outermost markers, and reports them. */
  method Inspect(value: Text, ghost doc: Doc) returns (out: Text, entries: seq<Entry>)
    ensures Proper(doc) && Print(doc) == value && |value| <= MAX_SAFE ==>
      out == Print(Peeled(doc)) && entries == Entries(doc)
    ensures START !in value ==> out == value && entries == []
  {
    hide At, Proper, Print, Peeled, Entries, Read, Separators, Tail, Marker;
    if START !in value {
      NoMarkers(doc);
      return value, [];
    }
    out, entries := [], [];
    var at := 0;
    ghost var rest, known := doc, Proper(doc) && Print(doc) == value && |value| <= MAX_SAFE;
    Begin(value, doc);
    while at < |value|
      invariant at <= |value| && (known ==> At(doc, value, at, rest, out, entries))
    {
      if known { AtStart(doc, value, at, rest, out, entries); }
      var a := IndexOf(value, START, at);
      if a < 0 {
        out, at, rest := out + value[at..], |value|, End;
      } else {
        out := out + value[at..a];
        rest := Tail(rest);
        if known { AtMarker(doc, value, a, rest, out, entries); }
        var s := value[a..];
        var taken, entry, after := TryMarker(s);
        if taken {
          out, entries, at := out + entry.rendered, entries + [entry], a + after;
        } else if Separators(s).2 < 0 {
          out, at := out + s, |value|;
        } else {
          out, at := out + [START], a + 1;
        }
        if known { rest := rest.next; }
      }
    }
    if known { AtEnd(doc, value, rest, out, entries); }
  }

  lemma AtEnd(doc: Doc, value: Text, rest: Doc, out: Text, entries: seq<Entry>)
    requires At(doc, value, |value|, rest, out, entries)
    ensures out == Print(Peeled(doc)) && entries == Entries(doc)
  {
    PrintsSomething(rest);
  }

  lemma {:induction false} NoMarkers(doc: Doc)
    ensures START !in Print(doc) ==> Peeled(doc) == doc && Entries(doc) == []
  {
    hide Marker;
    match doc
    case End =>
    case Visible(c, next) =>
      NoMarkers(next);
      assert forall p :: p in Print(next) ==> p in Print(doc);
    case Marked(key, fallback, body, _) =>
      MarkerStarts(key, fallback, Print(body));
      assert Print(doc)[0] == START;
  }

  lemma PrintsSomething(doc: Doc)
    ensures doc == End || Print(doc) != []
  {
    match doc
    case End =>
    case Visible(_, _) =>
    case Marked(key, fallback, body, _) => MarkerStarts(key, fallback, Print(body));
  }

  /** One attempt at a marker. Fields that are not made of selectors may be taken for anything. */
  method TryMarker(s: Text) returns (taken: bool, entry: Entry, after: nat)
    requires s != [] && s[0] == START
    ensures taken ==> 0 < after <= |s|
    ensures Separators(s).2 < 0 ==> !taken
    ensures Read(s).Some? && Read(s).value.key != [] && |Read(s).value.rendered| <= MAX_SAFE ==>
      taken && entry == Entry(Read(s).value.key, Read(s).value.fallback, Read(s).value.rendered) &&
        after == |s| - |Read(s).value.rest|
  {
    var (b, c, d) := Separators(s);
    taken, entry, after := false, Entry([], false, []), 0;
    if d >= 0 {
      var key: seq<Byte>, n: nat, valid: bool := *, *, *;
      if Digits(s[1..b]) && Digits(s[c + 1..d]) {
        key, n, valid := KeyOf(s[1..b]), LengthOf(s[c + 1..d]), c + 1 < d;
      }
      if valid && key != [] && n <= MAX_SAFE && d + 1 + n <= |s| {
        taken, entry, after := true, Entry(key, s[b + 1] == BASE + 1, s[d + 1..][..n]), d + 1 + n;
      }
    }
  }

  lemma Begin(value: Text, doc: Doc)
    ensures Proper(doc) && Print(doc) == value && |value| <= MAX_SAFE ==> At(doc, value, 0, doc, [], [])
  {
    assert value[0..] == value && [] + Print(Peeled(doc)) == Print(Peeled(doc)) && [] + Entries(doc) == Entries(doc);
  }
}
