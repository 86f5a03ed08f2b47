/** The tokens of a source by chapter 4 of the PostgreSQL manual, with `standard_conforming_strings` on:
    a text in single quotes has backslash escapes only after an `E` (4.1.2.1, 4.1.2.2), and a dollar
    tag is shaped like an identifier and does not follow one (4.1.1, 4.1.2.4). Quoted identifiers and
    comments (4.1.5) are those of SqlTokens. As in the server, all characters beyond ASCII are letters. */
module SqlManual {
  import opened Wrappers
  import opened Texts
  import opened SqlTokens
  import opened SqlScan

  predicate IsLetter(c: char) { 'a' <= c <= 'z' || 'A' <= c <= 'Z' || c == '_' || c >= '\U{80}' }

  predicate IsNameChar(c: char) { IsLetter(c) || IsDigit(c) }

  /** What the text just read is: a keyword or identifier, a number, an `E` by itself, or an escape
      string with nothing but white space after it; a text in single quotes on a later line continues it. */
  datatype Context = Apart | Word | Number | Escaping | Continued(newLine: bool)

  predicate InWord(before: Context) { before.Word? || before.Escaping? }

  predicate Escapes(before: Context) { before.Escaping? || before == Continued(true) }

  function Next(before: Context, t: Token): Context {
    match t
    case Quoted(q, _) => if q == '\'' && Escapes(before) then Continued(false) else Apart
    case Line(_) => if before.Continued? then before else Apart
    case Block(_) => if before.Continued? then before else Apart
    case Plain(c) =>
      if before.Continued? && (c == ' ' || '\t' <= c <= '\r') then Continued(before.newLine || c == '\n')
      else if InWord(before) && (IsNameChar(c) || c == '$') then Word
      else if IsDigit(c) || (before.Number? && IsLetter(c)) then Number
      else if c == 'e' || c == 'E' then Escaping
      else if IsLetter(c) then Word else Apart
    case _ => Apart
  }

  // ---- lexical rules ----

  /** `$name$`, where the name is empty or an identifier without a dollar sign. */
  predicate IsNameTag(t: string) {
    |t| >= 2 && t[0] == '$' && t[|t| - 1] == '$' && (|t| > 2 ==> IsLetter(t[1])) &&
    forall k :: 1 <= k < |t| - 1 ==> IsNameChar(t[k])
  }

  ghost predicate StartsWithNameTag(s: string) {
    exists n :: 2 <= n <= |s| && IsNameTag(s[..n])
  }

  /** Token `t` may stand after `before` where the text `rest` follows it. */
  ghost predicate Allowed(t: Token, before: Context, rest: string) {
    match t
    case Quoted(q, units) =>
      if q == '\'' && !Escapes(before) then
        (forall u :: u in units ==> u.Doubled? || (u.Ordinary? && u.c != '\'')) && !("'" <= rest)
      else Fits(t, rest)
    case Dollar(tag, body) => !InWord(before) && IsNameTag(tag) && FirstAtEnd(tag, body)
    case Plain(c) =>
      c != '"' && c != '\'' && c != ';' && !("--" <= [c] + rest) && !("/*" <= [c] + rest) &&
      (InWord(before) || !StartsWithNameTag([c] + rest))
    case _ => Fits(t, rest)
  }

  /** `ts` is the manual's reading of the source text `Print(ts)`, after `before`. */
  ghost predicate ReadingAfter(ts: seq<Token>, before: Context) {
    ts != [] ==> Allowed(ts[0], before, Print(ts[1..])) && ReadingAfter(ts[1..], Next(before, ts[0]))
  }

  // ---- texts in single quotes without escapes ----

  function ScanPlain(s: string): Option<seq<QuoteUnit>> {
    if s == "" then None
    else if s[0] == '\'' then if "''" <= s then Cons(Doubled, ScanPlain(s[2..])) else Some([])
    else Cons(Ordinary(s[0]), ScanPlain(s[1..]))
  }

  ghost predicate EndsPlain(units: seq<QuoteUnit>, s: string, rest: string) {
    s == UnitsText(units, '\'') + "'" + rest && !("'" <= rest) &&
    forall u :: u in units ==> u.Doubled? || (u.Ordinary? && u.c != '\'')
  }

  lemma EndsPlainCons(u: QuoteUnit, units: seq<QuoteUnit>, s: string, rest: string)
    requires EndsPlain(units, s, rest) && (u.Doubled? || (u.Ordinary? && u.c != '\''))
    ensures EndsPlain([u] + units, UnitText(u, '\'') + s, rest)
  {
    assert ([u] + units)[1..] == units;
    assert UnitText(u, '\'') + s == UnitsText([u] + units, '\'') + "'" + rest;
  }

  lemma {:induction false} ScanPlainSound(s: string) returns (rest: string)
    requires ScanPlain(s).Some?
    ensures EndsPlain(ScanPlain(s).value, s, rest)
  {
    if s[0] != '\'' {
      rest := ScanPlainSound(s[1..]);
      EndsPlainCons(Ordinary(s[0]), ScanPlain(s[1..]).value, s[1..], rest);
      assert s == UnitText(Ordinary(s[0]), '\'') + s[1..];
    } else if "''" <= s {
      rest := ScanPlainSound(s[2..]);
      EndsPlainCons(Doubled, ScanPlain(s[2..]).value, s[2..], rest);
      assert s == UnitText(Doubled, '\'') + s[2..];
    } else {
      rest := s[1..];
      assert s == UnitsText([], '\'') + "'" + rest;
    }
  }

  lemma {:induction false} ScanPlainComplete(units: seq<QuoteUnit>, s: string, rest: string)
    requires EndsPlain(units, s, rest)
    ensures ScanPlain(s) == Some(units)
  {
    if units == [] {
      assert s[1..] == rest;
      if |s| >= 2 { assert s[1] == rest[0]; }
    } else {
      var u := units[0];
      var tail := UnitsText(units[1..], '\'') + "'" + rest;
      assert u in units;
      assert s == UnitText(u, '\'') + tail;
      assert EndsPlain(units[1..], tail, rest);
      ScanPlainComplete(units[1..], tail, rest);
      assert [u] + units[1..] == units;
      assert u.Ordinary? ==> s[0] == u.c && s[1..] == tail;
      assert u.Doubled? ==> s[0] == '\'' && s[1] == '\'' && s[2..] == tail;
    }
  }

  // ---- tags ----

  /** Length of the run of letters and digits that `s` starts with. */
  function NameRun(s: string): (n: nat)
    ensures n <= |s|
    ensures forall k :: 0 <= k < n ==> IsNameChar(s[k])
    ensures n < |s| ==> !IsNameChar(s[n])
  {
    if s != "" && IsNameChar(s[0]) then 1 + NameRun(s[1..]) else 0
  }

  function ScanNameTag(s: string): Option<string> {
    if s != "" && s[0] == '$' then
      var n := NameRun(s[1..]);
      if n + 1 < |s| && s[n + 1] == '$' && !IsDigit(s[1]) then Some(s[..n + 2]) else None
    else None
  }

  lemma NameTagIsRun(s: string, m: nat)
    requires 2 <= m <= |s| && IsNameTag(s[..m])
    ensures s[0] == '$' && m == NameRun(s[1..]) + 2 && s[m - 1] == '$' && !IsDigit(s[1])
  {
    var t := s[..m];
    var n := NameRun(s[1..]);
    assert t[0] == s[0] && t[1] == s[1] && t[m - 1] == s[m - 1] == s[1..][m - 2];
    assert forall k :: 1 <= k < m - 1 ==> IsNameChar(t[k]) && t[k] == s[1..][k - 1];
    assert !IsNameChar(s[1..][m - 2]);
  }

  lemma ScanNameTagSound(s: string)
    ensures ScanNameTag(s).Some? <==> StartsWithNameTag(s)
    ensures ScanNameTag(s).Some? ==> IsNameTag(ScanNameTag(s).value) && ScanNameTag(s).value <= s
  {
    if ScanNameTag(s).Some? {
      var n := NameRun(s[1..]);
      var t := s[..n + 2];
      forall k | 1 <= k < |t| - 1 ensures IsNameChar(t[k]) { assert t[k] == s[1..][k - 1]; }
      assert IsNameTag(s[..n + 2]);
    }
    if StartsWithNameTag(s) {
      var m :| 2 <= m <= |s| && IsNameTag(s[..m]);
      NameTagIsRun(s, m);
    }
  }

  lemma ScanNameTagComplete(tag: string, rest: string)
    requires IsNameTag(tag)
    ensures ScanNameTag(tag + rest) == Some(tag)
  {
    var s := tag + rest;
    assert s[..|tag|] == tag;
    NameTagIsRun(s, |tag|);
  }

  // ---- whole tokens ----

  /** The token that `s` starts with after `before`; none when it never ends. */
  function FirstAfter(s: string, before: Context): Option<Token>
    requires s != ""
  {
    if s[0] == '\'' && !Escapes(before) then
      match ScanPlain(s[1..])
      case None => None
      case Some(units) => Some(Quoted('\'', units))
    else if s[0] == '$' then
      match if InWord(before) then None else ScanNameTag(s)
      case Some(tag) =>
        (match ScanDollar(s[|tag|..], tag)
         case None => None
         case Some(body) => Some(Dollar(tag, body)))
      case None => Some(Plain('$'))
    else First(s)
  }

  lemma NoDollarNoTag(s: string)
    requires s != "" && s[0] != '$'
    ensures ScanTag(s) == None && !StartsWithNameTag(s)
  {
    ScanNameTagSound(s);
  }

  lemma FirstAfterSound(s: string, before: Context) returns (rest: string)
    requires s != "" && FirstAfter(s, before).Some?
    ensures s == Text(FirstAfter(s, before).value) + rest && Allowed(FirstAfter(s, before).value, before, rest)
    ensures |rest| < |s|
  {
    hide First, ScanPlain, ScanDollar, ScanNameTag, Fits, UnitsText;
    if s[0] == '\'' && !Escapes(before) {
      rest := PlainTextSound(s, before);
    } else if s[0] == '$' {
      rest := NameTagSound(s, before);
    } else {
      rest := FirstSound(s);
      SharedSound(s, before, rest);
    }
  }

  lemma PlainTextSound(s: string, before: Context) returns (rest: string)
    requires s != "" && s[0] == '\'' && !Escapes(before) && ScanPlain(s[1..]).Some?
    ensures var t := Quoted('\'', ScanPlain(s[1..]).value);
      s == Text(t) + rest && Allowed(t, before, rest) && |rest| < |s|
  {
    hide ScanPlain, UnitsText;
    rest := ScanPlainSound(s[1..]);
    var units := ScanPlain(s[1..]).value;
    assert s == "'" + s[1..];
    assert s == ("'" + UnitsText(units, '\'') + "'") + rest;
  }

  lemma NameTagSound(s: string, before: Context) returns (rest: string)
    requires s != "" && s[0] == '$' && FirstAfter(s, before).Some?
    ensures s == Text(FirstAfter(s, before).value) + rest && Allowed(FirstAfter(s, before).value, before, rest)
    ensures |rest| < |s|
  {
    hide ScanDollar, ScanNameTag, FirstAtEnd, IsNameTag;
    ScanNameTagSound(s);
    if InWord(before) || ScanNameTag(s).None? {
      rest := s[1..];
      assert s == "$" + rest;
    } else {
      var tag := ScanNameTag(s).value;
      rest := ScanDollarSound(s[|tag|..], tag);
      assert s == tag + s[|tag|..];
      assert s == (tag + ScanDollar(s[|tag|..], tag).value + tag) + rest;
      assert |tag| > 0 by { assert |tag| >= 2 by { ShortestNameTag(tag); } }
    }
  }

  lemma ShortestNameTag(tag: string)
    requires IsNameTag(tag)
    ensures |tag| >= 2 && tag[0] == '$'
  {}

  /** The tokens for which the manual has the rules of SqlTokens. */
  lemma SharedSound(s: string, before: Context, rest: string)
    requires s != "" && s[0] != '$' && (s[0] == '\'' ==> Escapes(before)) && First(s).Some?
    requires s == Text(First(s).value) + rest && Fits(First(s).value, rest)
    ensures Allowed(First(s).value, before, rest)
  {
    hide ScanQuote, ScanBlock, LineBody, UnitsText, CommentText, Closes, StartsWithNameTag;
    NoDollarNoTag(s);
  }

  lemma FirstAfterComplete(t: Token, before: Context, rest: string)
    requires Allowed(t, before, rest)
    ensures Text(t) != "" && FirstAfter(Text(t) + rest, before) == Some(t)
  {
    hide First, ScanPlain, ScanDollar, ScanNameTag, FirstAtEnd, IsNameTag, UnitsText, Fits;
    var s := Text(t) + rest;
    match t
    case Quoted(q, units) =>
      assert s[0] == q;
      if q == '\'' && !Escapes(before) {
        assert s[1..] == UnitsText(units, q) + "'" + rest;
        ScanPlainComplete(units, s[1..], rest);
      } else {
        FirstComplete(t, rest);
        QuotedMark(t, rest);
      }
    case Dollar(tag, body) =>
      ShortestNameTag(tag);
      assert s == tag + (body + tag + rest) && s[0] == '$';
      assert s[|tag|..] == body + tag + rest;
      ScanNameTagComplete(tag, body + tag + rest);
      ScanDollarComplete(tag, body, s[|tag|..], rest);
    case Plain(c) => PlainComplete(c, before, rest);
    case _ => FirstComplete(t, rest); SharedStart(t, rest);
  }

  lemma QuotedMark(t: Token, rest: string)
    requires t.Quoted? && Fits(t, rest)
    ensures t.mark == '"' || t.mark == '\''
  {}

  lemma SharedStart(t: Token, rest: string)
    requires t.Line? || t.Block? || t.Semicolon?
    ensures Text(t) != "" && (Text(t) + rest)[0] != '$' && (Text(t) + rest)[0] != '\''
  {}

  lemma PlainComplete(c: char, before: Context, rest: string)
    requires Allowed(Plain(c), before, rest)
    ensures FirstAfter([c] + rest, before) == Some(Plain(c))
  {
    ScanNameTagSound([c] + rest);
    if c != '$' { NoDollarNoTag([c] + rest); }
  }

  /** The manual's tokens of `s` after `before`; none when one of them never ends. */
  function LexAfter(s: string, before: Context): Option<seq<Token>>
    decreases |s|
  {
    if s == "" then Some([])
    else
      match FirstAfter(s, before)
      case None => None
      case Some(t) =>
        ghost var rest := RestAfter(s, before);
        Cons(t, LexAfter(s[|Text(t)|..], Next(before, t)))
  }

  ghost function RestAfter(s: string, before: Context): (rest: string)
    requires s != "" && FirstAfter(s, before).Some?
    ensures s == Text(FirstAfter(s, before).value) + rest && |rest| < |s|
  {
    assert exists rest: string :: s == Text(FirstAfter(s, before).value) + rest && |rest| < |s| by {
      var rest := FirstAfterSound(s, before);
    }
    var rest :| s == Text(FirstAfter(s, before).value) + rest && |rest| < |s|;
    rest
  }

  lemma {:induction false} LexAfterSound(s: string, before: Context)
    requires LexAfter(s, before).Some?
    ensures Print(LexAfter(s, before).value) == s && ReadingAfter(LexAfter(s, before).value, before)
    decreases |s|
  {
    hide FirstAfter, Text, Allowed, Next;
    if s != "" {
      var rest := FirstAfterSound(s, before);
      var t := FirstAfter(s, before).value;
      assert s[|Text(t)|..] == rest;
      LexAfterSound(rest, Next(before, t));
      assert LexAfter(s, before).value[1..] == LexAfter(rest, Next(before, t)).value;
    }
  }

  lemma {:induction false} LexAfterComplete(ts: seq<Token>, before: Context)
    requires ReadingAfter(ts, before)
    ensures LexAfter(Print(ts), before) == Some(ts)
  {
    hide FirstAfter, Text, Allowed, Next;
    if ts != [] {
      var rest := Print(ts[1..]);
      FirstAfterComplete(ts[0], before, rest);
      LexAfterComplete(ts[1..], Next(before, ts[0]));
      assert (Text(ts[0]) + rest)[|Text(ts[0])|..] == rest;
      assert [ts[0]] + ts[1..] == ts;
    }
  }
}
