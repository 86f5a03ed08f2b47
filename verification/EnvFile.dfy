/** Lines and assignments of an environment file, as tools/reconcile_local_env.py reads them. */
module EnvFile {
  import opened Texts
  import opened Wrappers

  datatype Setting = Setting(key: string, value: string)

  /** The characters at which `splitlines` breaks a text. */
  predicate Break(c: char) {
    '\n' <= c <= '\r' || '\U{1C}' <= c <= '\U{1E}' || c == '\U{85}' || c == '\U{2028}' || c == '\U{2029}'
  }

  predicate Letter(c: char) { 'a' <= c <= 'z' || 'A' <= c <= 'Z' || c == '_' }

  predicate WordChar(c: char) { Letter(c) || '0' <= c <= '9' }

  // ---- lines ----

  function LineEnd(s: string): (n: nat)
    ensures n <= |s| && (n < |s| ==> Break(s[n])) && forall k :: 0 <= k < n ==> !Break(s[k])
  {
    if s == "" || Break(s[0]) then 0
    else
      var n := LineEnd(s[1..]);
      assert forall k :: 0 < k < n + 1 ==> s[k] == s[1..][k - 1];
      n + 1
  }

  /** A break is one character, but carriage return and line feed together are one break. */
  function AfterBreak(s: string, n: nat): (m: nat)
    requires n < |s|
    ensures n < m <= |s|
  {
    if s[n] == '\r' && n + 1 < |s| && s[n + 1] == '\n' then n + 2 else n + 1
  }

  function Lines(s: string): seq<string>
    decreases |s|
  {
    if s == "" then []
    else
      var n := LineEnd(s);
      if n == |s| then [s] else [s[..n]] + Lines(s[AfterBreak(s, n)..])
  }

  predicate OneLine(s: string) { forall k :: 0 <= k < |s| ==> !Break(s[k]) }

  /** A text that ends with a line feed, if it is not empty. */
  predicate Ended(s: string) { s == "" || s[|s| - 1] == '\n' }

  lemma LineEndAppend(s: string, t: string)
    ensures LineEnd(s) < |s| ==> LineEnd(s + t) == LineEnd(s)
  {
    var n, m := LineEnd(s), LineEnd(s + t);
    if n < |s| {
      assert forall k :: 0 <= k < |s| ==> (s + t)[k] == s[k];
      assert forall k :: 0 <= k < m ==> !Break((s + t)[k]);
    }
  }

  lemma LinesRest(s: string, t: string, n: nat, m: nat)
    requires n == LineEnd(s) == LineEnd(s + t) < |s| && m == AfterBreak(s, n) == AfterBreak(s + t, n)
    ensures Lines(s) == [s[..n]] + Lines(s[m..]) && Lines(s + t) == [s[..n]] + Lines(s[m..] + t)
  {
    assert (s + t)[..n] == s[..n] && (s + t)[m..] == s[m..] + t;
  }

  lemma SameBreak(s: string, t: string, n: nat)
    requires Ended(s) && n < |s|
    ensures AfterBreak(s + t, n) == AfterBreak(s, n) && Ended(s[AfterBreak(s, n)..])
  {
    assert s[n] == (s + t)[n] && (n + 1 < |s| ==> s[n + 1] == (s + t)[n + 1]);
    assert n + 1 == |s| ==> s[n] == '\n';
  }

  lemma EndedBreaks(s: string)
    requires Ended(s) && s != ""
    ensures LineEnd(s) < |s|
  {
    assert Break(s[|s| - 1]);
  }

  lemma NoLines()
    ensures Lines("") == []
  {}

  lemma {:induction false} LinesAppend(s: string, t: string)
    requires Ended(s)
    ensures Lines(s + t) == Lines(s) + Lines(t)
    decreases |s|
  {
    hide Lines, AfterBreak, LineEnd, Ended;
    if s == "" {
      NoLines();
      assert s + t == t;
    } else {
      var n := LineEnd(s);
      EndedBreaks(s);
      LineEndAppend(s, t);
      SameBreak(s, t, n);
      LinesRest(s, t, n, AfterBreak(s, n));
      LinesAppend(s[AfterBreak(s, n)..], t);
    }
  }

  /** The ten characters that end a line. */
  const BREAKS: string := "\n\r\U{0b}\U{0c}\U{1c}\U{1d}\U{1e}\U{85}\U{2028}\U{2029}"

  lemma BreaksAre(c: char)
    ensures Break(c) <==> c in BREAKS
  {}

  /** A text without one of them is one line; and what ends with one of them, or with a carriage return
      and a line feed, is a line, followed by the lines of the rest. */
  lemma LinesByBreak(line: string, brk: string, t: string)
    requires forall k :: 0 <= k < |line| ==> line[k] !in BREAKS
    requires (|brk| == 1 && brk[0] in BREAKS && !(brk == "\r" && t != "" && t[0] == '\n')) || brk == "\r\n"
    ensures Lines(line + brk + t) == [line] + Lines(t) && Lines(line) == if line == "" then [] else [line]
  {
    hide Break;
    var s := line + brk + t;
    BreaksAre(brk[0]);
    forall k | 0 <= k < |line| ensures !Break(line[k]) { BreaksAre(line[k]); }
    EndsAt(s, line, brk[0]);
    assert line != "" ==> LineEnd(line) == |line|;
    assert |brk| == 1 && t != "" ==> s[|line| + 1] == t[0];
    assert |brk| == 2 ==> s[|line| + 1] == '\n';
    assert s[..|line|] == line && s[|line| + |brk|..] == t;
  }

  lemma EndsAt(s: string, line: string, c: char)
    requires line + [c] <= s && Break(c) && forall k :: 0 <= k < |line| ==> !Break(line[k])
    ensures LineEnd(s) == |line| && s[|line|] == c
  {
    var n := LineEnd(s);
    assert s[|line|] == (line + [c])[|line|] && forall k :: 0 <= k < |line| ==> s[k] == (line + [c])[k] == line[k];
    assert n <= |line|;
  }

  lemma LinesOfLine(line: string, t: string)
    requires OneLine(line)
    ensures Lines(line + "\n" + t) == [line] + Lines(t)
  {
    var s := line + "\n" + t;
    assert s[|line|] == '\n' && forall k :: 0 <= k < |line| ==> s[k] == line[k];
    var n := LineEnd(s);
    assert n <= |line|;
    assert n == |line|;
    assert s[..n] == line && s[n + 1..] == t;
  }

  /** `'\n'.join(lines) + '\n'` */
  function Joined(lines: seq<string>): string {
    if lines == [] then "" else lines[0] + "\n" + Joined(lines[1..])
  }

  lemma {:induction false} LinesOfJoined(lines: seq<string>)
    requires forall l :: l in lines ==> OneLine(l)
    ensures Lines(Joined(lines)) == lines
  {
    if lines != [] {
      LinesOfJoined(lines[1..]);
      LinesOfLine(lines[0], Joined(lines[1..]));
    }
  }

  lemma {:induction false} LinesAreLines(s: string)
    ensures forall l :: l in Lines(s) ==> OneLine(l)
    decreases |s|
  {
    if s != "" {
      var n := LineEnd(s);
      if n < |s| { LinesAreLines(s[AfterBreak(s, n)..]); }
    }
  }

  lemma LinesOfNothing()
    ensures Lines("") == [] && Lines("\n") == [""]
  {
    LinesOfLine("", "");
    assert "" + "\n" + "" == "\n";
  }

  lemma LinesOfLast(s: string)
    requires s != "" && LineEnd(s) == |s|
    ensures Lines(s) == [s]
  {}

  lemma LinesStep(s: string)
    requires s != "" && LineEnd(s) < |s|
    ensures Lines(s) == [s[..LineEnd(s)]] + Lines(s[AfterBreak(s, LineEnd(s))..])
  {}

  /** What is left of a text after its first line, before and after a line feed is added. */
  lemma EndedRest(s: string, n: nat)
    requires n < |s|
    ensures var m, k, t := AfterBreak(s, n), AfterBreak(s + "\n", n), s + "\n";
      if m < |s| then t[k..] == s[m..] + "\n" else t[k..] == "" || t[k..] == "\n"
  {
    var t := s + "\n";
    if n + 1 < |s| {
      assert t[n] == s[n] && t[n + 1] == s[n + 1];
      var m := AfterBreak(s, n);
      assert t[m..] == s[m..] + "\n";
    } else {
      assert t[n + 1..] == "\n" && t[n + 2..] == "";
    }
  }

  /** A line feed at the end of an unfinished text ends its last line, or adds an empty one. */
  lemma {:induction false} LinesEnded(s: string)
    requires s != ""
    ensures Lines(s + "\n") == Lines(s) || Lines(s + "\n") == Lines(s) + [""]
    decreases |s|
  {
    hide Lines, AfterBreak;
    var n, t := LineEnd(s), s + "\n";
    if n == |s| {
      LinesOfLine(s, "");
      LinesOfNothing();
      LinesOfLast(s);
      assert s + "\n" + "" == t && [s] + [] == [s];
    } else {
      LinesOfNothing();
      LinesStep(s);
      LineEndAppend(s, "\n");
      LinesStep(t);
      var m := AfterBreak(s, n);
      assert t[..n] == s[..n];
      EndedRest(s, n);
      if m < |s| {
        LinesEnded(s[m..]);
        assert [s[..n]] + (Lines(s[m..]) + [""]) == [s[..n]] + Lines(s[m..]) + [""];
      } else {
        assert s[m..] == "" && [s[..n]] + [] == [s[..n]];
      }
    }
  }

  // ---- assignments ----

  function Spaces(s: string, i: nat): (n: nat)
    requires i <= |s|
    ensures i <= n <= |s| && (n < |s| ==> !IsSpace(s[n])) && forall k :: i <= k < n ==> IsSpace(s[k])
    decreases |s| - i
  {
    if i < |s| && IsSpace(s[i]) then Spaces(s, i + 1) else i
  }

  function Word(s: string, i: nat): (n: nat)
    requires i <= |s|
    ensures i <= n <= |s| && (n < |s| ==> !WordChar(s[n])) && forall k :: i <= k < n ==> WordChar(s[k])
    decreases |s| - i
  {
    if i < |s| && WordChar(s[i]) then Word(s, i + 1) else i
  }

  function SettingAt(s: string, i: nat): Option<Setting>
    requires i <= |s|
  {
    var j := Word(s, i);
    var e := Spaces(s, j);
    if i < |s| && Letter(s[i]) && e < |s| && s[e] == '=' then Some(Setting(s[i..j], s[e + 1..])) else None
  }

  /** The pattern for an assignment, with or without `export` before it. */
  function Assignment(s: string): Option<Setting> {
    var i := Spaces(s, 0);
    if i + 6 < |s| && s[i..i + 6] == "export" && IsSpace(s[i + 6]) && SettingAt(s, Spaces(s, i + 6)).Some?
    then SettingAt(s, Spaces(s, i + 6))
    else SettingAt(s, i)
  }

  /** What the source takes for a name: ASCII letters, digits and underscores, no digit first. */
  predicate IsKey(key: string) {
    key != "" && !('0' <= key[0] <= '9') && forall k :: 0 <= k < |key| ==>
      'a' <= key[k] <= 'z' || 'A' <= key[k] <= 'Z' || '0' <= key[k] <= '9' || key[k] == '_'
  }

  predicate Blanks(s: string) { forall k :: 0 <= k < |s| ==> IsSpace(s[k]) }

  /** `key=value`, with blanks before and after the key. */
  ghost predicate Plainly(s: string, key: string, value: string) {
    exists a, c :: Blanks(a) && Blanks(c) && s == a + key + c + "=" + value
  }

  /** The same with `export` and blanks before it. */
  ghost predicate Exported(s: string, key: string, value: string) {
    exists a, b, c :: Blanks(a) && Blanks(b) && b != "" && Blanks(c) && s == a + "export" + b + key + c + "=" + value
  }

  lemma SpacesAre(s: string, i: nat, n: nat)
    requires i <= n <= |s| && (forall k :: i <= k < n ==> IsSpace(s[k])) && (n < |s| ==> !IsSpace(s[n]))
    ensures Spaces(s, i) == n
  {}

  lemma WordIs(s: string, i: nat, n: nat)
    requires i <= n <= |s| && (forall k :: i <= k < n ==> WordChar(s[k])) && (n < |s| ==> !WordChar(s[n]))
    ensures Word(s, i) == n
  {}

  /** No blank is part of a word. */
  lemma BlankIsNoWord(c: char)
    ensures IsSpace(c) ==> !WordChar(c) && c != '='
  {}

  /** From `i` on the text is a key, blanks, an equals sign and the value. */
  ghost predicate KeyedAt(s: string, i: nat, key: string, c: string, value: string) {
    i <= |s| && IsKey(key) && Blanks(c) && s[i..] == key + c + "=" + value
  }

  lemma KeyedParts(s: string, i: nat, key: string, c: string, value: string)
    requires KeyedAt(s, i, key, c, value)
    ensures var j := i + |key|; var e := j + |c|;
      i < j <= e < |s| && s[e] == '=' && s[i..j] == key && s[e + 1..] == value && Letter(s[i]) &&
      (forall k :: i <= k < j ==> WordChar(s[k])) && !WordChar(s[j]) && (forall k :: j <= k < e ==> IsSpace(s[k]))
  {
    var t, j := s[i..], i + |key|;
    var e := j + |c|;
    assert forall k :: i <= k < |s| ==> s[k] == t[k - i];
    assert forall k :: 0 <= k < |key| ==> t[k] == key[k];
    assert forall k :: |key| <= k < |key| + |c| ==> t[k] == c[k - |key|];
    assert t[|key| + |c|] == '=';
    BlankIsNoWord(s[j]);
    assert t[|key| + |c| + 1..] == value && t[..|key|] == key;
  }

  lemma SettingFrom(s: string, i: nat, j: nat, e: nat)
    requires i < j <= e < |s| && Letter(s[i]) && s[e] == '='
    requires (forall k :: i <= k < j ==> WordChar(s[k])) && !WordChar(s[j]) && forall k :: j <= k < e ==> IsSpace(s[k])
    ensures SettingAt(s, i) == Some(Setting(s[i..j], s[e + 1..])) && Word(s, i) == j && Spaces(s, j) == e
  {
    hide Letter, WordChar, IsSpace, Word, Spaces;
    WordIs(s, i, j);
    EqualsIsNoBlank();
    SpacesAre(s, j, e);
  }

  lemma SettingIs(s: string, i: nat, key: string, c: string, value: string)
    requires KeyedAt(s, i, key, c, value)
    ensures SettingAt(s, i) == Some(Setting(key, value)) && Word(s, i) == i + |key|
    ensures Spaces(s, i + |key|) == i + |key| + |c|
  {
    hide Letter, WordChar, IsSpace, SettingAt, Word, Spaces, Blanks, KeyedAt, IsKey;
    KeyedParts(s, i, key, c, value);
    SettingFrom(s, i, i + |key|, i + |key| + |c|);
  }

  lemma EqualsIsNoBlank()
    ensures !IsSpace('=') && !Letter('=')
  {}

  lemma InParts(s: string, i: nat, j: nat, e: nat)
    requires i <= j <= e < |s|
    ensures s[i..] == s[i..j] + s[j..e] + [s[e]] + s[e + 1..]
  {}

  lemma IsSetting(s: string, i: nat) returns (c: string)
    requires i <= |s| && SettingAt(s, i).Some?
    ensures KeyedAt(s, i, SettingAt(s, i).value.key, c, SettingAt(s, i).value.value)
  {
    var j := Word(s, i);
    var e := Spaces(s, j);
    c := s[j..e];
    assert i < j <= e < |s|;
    InParts(s, i, j, e);
  }

  /** A line is an assignment of a value to a key exactly if it has one of the two shapes. */
  lemma AssignmentIff(s: string, key: string, value: string)
    ensures Assignment(s) == Some(Setting(key, value)) <==>
      IsKey(key) && (Plainly(s, key, value) || Exported(s, key, value))
  {
    hide KeyedAt, IsKey, SettingAt;
    if Assignment(s) == Some(Setting(key, value)) { AssignmentShape(s); }
    if IsKey(key) && Plainly(s, key, value) {
      var a, c :| Blanks(a) && Blanks(c) && s == a + key + c + "=" + value;
      PlainlyRead(s, a, key, c, value);
    }
    if IsKey(key) && Exported(s, key, value) {
      var a, b, c :| Blanks(a) && Blanks(b) && b != "" && Blanks(c) && s == a + "export" + b + key + c + "=" + value;
      ExportedRead(s, a, b, key, c, value);
    }
  }

  lemma Assembled(before: string, key: string, c: string, value: string)
    ensures before + (key + c + "=" + value) == before + key + c + "=" + value
  {}

  lemma PlainShape(s: string, i: nat)
    requires i <= |s| && Blanks(s[..i]) && SettingAt(s, i).Some?
    ensures var r := SettingAt(s, i).value; IsKey(r.key) && Plainly(s, r.key, r.value)
  {
    hide SettingAt, IsKey, Blanks;
    var r, a := SettingAt(s, i).value, s[..i];
    var c := IsSetting(s, i);
    assert s == a + s[i..];
    Assembled(a, r.key, c, r.value);
  }

  lemma ExportShape(s: string, i: nat, n: nat)
    requires i + 6 < n <= |s| && Blanks(s[..i]) && s[i..i + 6] == "export" && Blanks(s[i + 6..n]) &&
      SettingAt(s, n).Some?
    ensures var r := SettingAt(s, n).value; IsKey(r.key) && Exported(s, r.key, r.value)
  {
    hide SettingAt, IsKey, Blanks;
    var r, a, b := SettingAt(s, n).value, s[..i], s[i + 6..n];
    var c := IsSetting(s, n);
    assert s == a + "export" + b + s[n..];
    Assembled(a + "export" + b, r.key, c, r.value);
  }

  lemma AssignmentShape(s: string)
    requires Assignment(s).Some?
    ensures var r := Assignment(s).value; IsKey(r.key) && (Plainly(s, r.key, r.value) || Exported(s, r.key, r.value))
  {
    hide SettingAt, IsKey, Plainly, Exported;
    var i := Spaces(s, 0);
    if i + 6 < |s| && s[i..i + 6] == "export" && IsSpace(s[i + 6]) && SettingAt(s, Spaces(s, i + 6)).Some? {
      ExportShape(s, i, Spaces(s, i + 6));
    } else {
      PlainShape(s, i);
    }
  }

  lemma PlainlyRead(s: string, a: string, key: string, c: string, value: string)
    requires IsKey(key) && Blanks(a) && Blanks(c) && s == a + key + c + "=" + value
    ensures Assignment(s) == Some(Setting(key, value))
  {
    hide SettingAt, IsKey;
    var i := |a|;
    assert s[i..] == key + c + "=" + value;
    assert forall k :: 0 <= k < i ==> s[k] == a[k];
    SettingIs(s, i, key, c, value);
    KeyedParts(s, i, key, c, value);
    BlankIsNoWord(s[i]);
    SpacesAre(s, 0, i);
    if i + 6 < |s| && s[i..i + 6] == "export" && IsSpace(s[i + 6]) { NotExported(s, i, key, c, value); }
  }

  /** `export` is the key itself if no other one follows. */
  lemma NotExported(s: string, i: nat, key: string, c: string, value: string)
    requires KeyedAt(s, i, key, c, value) && i + 6 < |s| && s[i..i + 6] == "export" && IsSpace(s[i + 6])
    ensures SettingAt(s, Spaces(s, i + 6)) == None
  {
    KeyedParts(s, i, key, c, value);
    BlankIsNoWord(s[i + 6]);
    assert forall k :: i <= k < i + 6 ==> s[k] == s[i..i + 6][k - i] && WordChar(s[k]);
    WordIs(s, i, i + 6);
    WordIs(s, i, i + |key|);
    EqualsIsNoBlank();
    SpacesAre(s, i + 6, i + 6 + |c|);
  }

  lemma ExportedRead(s: string, a: string, b: string, key: string, c: string, value: string)
    requires IsKey(key) && Blanks(a) && Blanks(b) && b != "" && Blanks(c) &&
      s == a + "export" + b + key + c + "=" + value
    ensures Assignment(s) == Some(Setting(key, value))
  {
    hide SettingAt, IsKey;
    var i, n := |a|, |a| + 6 + |b|;
    ExportedParts(s, a, b, key + c + "=" + value);
    assert s[n..] == key + c + "=" + value;
    SettingIs(s, n, key, c, value);
    KeyedParts(s, n, key, c, value);
    BlankIsNoWord(s[n]);
    SpacesAre(s, 0, i);
    SpacesAre(s, i + 6, n);
  }

  lemma ExportedParts(s: string, a: string, b: string, rest: string)
    requires Blanks(a) && Blanks(b) && b != "" && s == a + "export" + b + rest
    ensures var i, n := |a|, |a| + 6 + |b|;
      n <= |s| && s[i..i + 6] == "export" && !IsSpace(s[i]) && s[n..] == rest &&
      (forall k :: 0 <= k < i ==> IsSpace(s[k])) && forall k :: i + 6 <= k < n ==> IsSpace(s[k])
  {
    hide IsSpace;
    var i, n := |a|, |a| + 6 + |b|;
    assert forall k :: 0 <= k < i ==> s[k] == a[k];
    assert forall k :: i + 6 <= k < n ==> s[k] == b[k - (i + 6)];
    assert s[i..i + 6] == "export" && s[i] == "export"[0] && s[n..] == rest;
    EIsNoBlank();
  }

  lemma EIsNoBlank()
    ensures !IsSpace('e')
  {}

  /** A key, an equals sign and a value are an assignment of that value to that key. */
  lemma AssignmentOf(key: string, value: string)
    requires IsKey(key)
    ensures Assignment(key + "=" + value) == Some(Setting(key, value))
  {
    assert key + "=" + value == "" + key + "" + "=" + value;
    PlainlyRead(key + "=" + value, "", key, "", value);
  }

  /** All assignments of a file, in order. */
  function Settings(lines: seq<string>): seq<Setting> {
    if lines == [] then []
    else
      var n := |lines| - 1;
      Settings(lines[..n]) + if Assignment(lines[n]).Some? then [Assignment(lines[n]).value] else []
  }

  lemma {:induction false} SettingsAppend(a: seq<string>, b: seq<string>)
    ensures Settings(a + b) == Settings(a) + Settings(b)
  {
    if b == [] {
      assert a + b == a;
    } else {
      var n := |b| - 1;
      assert (a + b)[..|a + b| - 1] == a + b[..n];
      SettingsAppend(a, b[..n]);
    }
  }

  function Keys(settings: seq<Setting>): set<string> { set s | s in settings :: s.key }

  /** The value that counts: the last one. */
  function Effective(settings: seq<Setting>, key: string): Option<string> {
    if settings == [] then None
    else
      var n := |settings| - 1;
      if settings[n].key == key then Some(settings[n].value) else Effective(settings[..n], key)
  }

  lemma {:induction false} EffectiveAppend(a: seq<Setting>, b: seq<Setting>, key: string)
    ensures Effective(a + b, key) == if key in Keys(b) then Effective(b, key) else Effective(a, key)
  {
    if b == [] {
      assert a + b == a;
    } else {
      var n := |b| - 1;
      assert (a + b)[..|a + b| - 1] == a + b[..n] && b[n] in b;
      assert Keys(b) == Keys(b[..n]) + {b[n].key} by { assert b == b[..n] + [b[n]]; }
      EffectiveAppend(a, b[..n], key);
    }
  }

  // ---- placeholders ----

  function Lower(c: char): char { if 'A' <= c <= 'Z' then (c as int + 32) as char else c }

  function LowerAll(s: string): string { if s == "" then "" else [Lower(s[0])] + LowerAll(s[1..]) }

  function Closing(s: string, i: nat): nat
    requires i <= |s|
    decreases |s| - i
  {
    if i == |s| || s[i] == '>' then i else Closing(s, i + 1)
  }

  predicate PlaceholderAt(s: string)
    requires s != ""
  {
    (|s| > 7 && LowerAll(s[..7]) == "replace" && (s[7] == '_' || s[7] == '-')) ||
    (s[0] == '<' && 1 < Closing(s, 1) < |s|)
  }

  /** The value looks like an example: it contains `replace_`, `replace-` or something in angle brackets. */
  predicate Placeholder(s: string) { s != "" && (PlaceholderAt(s) || Placeholder(s[1..])) }

  lemma {:induction false} LowerAllAt(s: string)
    ensures |LowerAll(s)| == |s| && forall k :: 0 <= k < |s| ==> LowerAll(s)[k] == Lower(s[k])
  {
    if s != "" { LowerAllAt(s[1..]); }
  }

  /** `replace` in letters of any case, from `i` on. */
  ghost predicate ReplaceAt(v: string, i: nat) {
    i + 8 <= |v| && (v[i + 7] == '_' || v[i + 7] == '-') &&
    forall k :: 0 <= k < 7 ==> v[i + k] == "replace"[k] || v[i + k] == "REPLACE"[k]
  }

  /** Angle brackets at `i` and `j` with something between them, but no closing one. */
  ghost predicate BracketsAt(v: string, i: nat, j: nat) {
    i + 1 < j < |v| && v[i] == '<' && v[j] == '>' && forall k :: i < k < j ==> v[k] != '>'
  }

  lemma LowerIs(c: char, d: char, e: char)
    requires 'a' <= d <= 'z' && 'A' <= e <= 'Z' && d as int == e as int + 32
    ensures Lower(c) == d <==> c == d || c == e
  {}

  lemma ReplaceIs(v: string, i: nat)
    requires i + 7 < |v|
    ensures LowerAll(v[i..][..7]) == "replace" <==>
      forall k :: 0 <= k < 7 ==> v[i + k] == "replace"[k] || v[i + k] == "REPLACE"[k]
  {
    hide LowerAll, Lower;
    var s := v[i..][..7];
    LowerAllAt(s);
    forall k | 0 <= k < 7
      ensures Lower(s[k]) == "replace"[k] <==> v[i + k] == "replace"[k] || v[i + k] == "REPLACE"[k]
    {
      assert s[k] == v[i + k];
      LowerIs(s[k], "replace"[k], "REPLACE"[k]);
    }
  }

  lemma {:induction false} ClosingIs(s: string, i: nat)
    requires i <= |s|
    ensures i <= Closing(s, i) <= |s| && (Closing(s, i) < |s| ==> s[Closing(s, i)] == '>')
    ensures forall k :: i <= k < Closing(s, i) ==> s[k] != '>'
    decreases |s| - i
  {
    if i < |s| && s[i] != '>' { ClosingIs(s, i + 1); }
  }

  lemma PlaceholderAtIs(v: string, i: nat)
    requires i < |v|
    ensures PlaceholderAt(v[i..]) <==> ReplaceAt(v, i) || exists j :: BracketsAt(v, i, j)
  {
    hide LowerAll, Closing;
    var s := v[i..];
    if i + 7 < |v| { ReplaceIs(v, i); }
    ClosingIs(s, 1);
    var c := Closing(s, 1);
    if s[0] == '<' && 1 < c < |s| {
      assert forall k :: i < k < i + c ==> v[k] == s[k - i];
      assert BracketsAt(v, i, i + c);
    }
    if j :| BracketsAt(v, i, j) {
      assert forall k :: 0 <= k < |s| ==> s[k] == v[i + k];
      assert j == i + c;
    }
  }

  /** A value looks like an example exactly if one of the two occurs somewhere in it. */
  lemma PlaceholderIff(v: string)
    ensures Placeholder(v) <==> (exists i :: ReplaceAt(v, i)) || exists i, j :: BracketsAt(v, i, j)
  {
    hide Placeholder, PlaceholderAt;
    PlaceholderSomewhere(v);
    if i :| 0 <= i < |v| && PlaceholderAt(v[i..]) {
      PlaceholderAtIs(v, i);
    }
    if i :| ReplaceAt(v, i) {
      PlaceholderAtIs(v, i);
    }
    if i, j :| BracketsAt(v, i, j) {
      PlaceholderAtIs(v, i);
    }
  }

  lemma {:induction false} PlaceholderSomewhere(v: string)
    ensures Placeholder(v) <==> exists i :: 0 <= i < |v| && PlaceholderAt(v[i..])
  {
    hide PlaceholderAt;
    if v != "" {
      PlaceholderSomewhere(v[1..]);
      assert v[0..] == v;
      forall i | 0 <= i < |v| - 1 ensures v[1..][i..] == v[i + 1..] {}
      if i :| 0 <= i < |v[1..]| && PlaceholderAt(v[1..][i..]) {
        assert PlaceholderAt(v[i + 1..]);
      }
      if i :| 0 <= i < |v| && PlaceholderAt(v[i..]) {
        if i > 0 { assert PlaceholderAt(v[1..][i - 1..]); }
      }
    }
  }
}
