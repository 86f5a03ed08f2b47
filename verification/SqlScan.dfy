/** A scanner for SqlTokens: reads the tokens of a source from left to right, and the proof
    that it finds the one reading a source has, or that there is none. */
module SqlScan {
  import opened Wrappers
  import opened SqlTokens

  function Cons<T>(x: T, tail: Option<seq<T>>): Option<seq<T>> {
    match tail
    case None => None
    case Some(xs) => Some([x] + xs)
  }

  // ---- quoted texts ----

  /** Units up to the closing mark, when the text before `s` left the quote open. */
  function ScanQuote(s: string, q: char): Option<seq<QuoteUnit>> {
    if s == "" then None
    else if s[0] == q then
      if |s| >= 2 && s[1] == q then Cons(Doubled, ScanQuote(s[2..], q)) else Some([])
    else if s[0] == '\\' && q == '\'' then
      if |s| >= 2 then Cons(Escaped(s[1]), ScanQuote(s[2..], q)) else None
    else Cons(Ordinary(s[0]), ScanQuote(s[1..], q))
  }

  ghost predicate EndsQuote(units: seq<QuoteUnit>, q: char, s: string, rest: string) {
    s == UnitsText(units, q) + [q] + rest && !([q] <= rest) && forall u :: u in units ==> GoodUnit(u, q)
  }

  lemma EndsQuoteCons(u: QuoteUnit, units: seq<QuoteUnit>, q: char, s: string, rest: string)
    requires EndsQuote(units, q, s, rest) && GoodUnit(u, q)
    ensures EndsQuote([u] + units, q, UnitText(u, q) + s, rest)
  {
    assert ([u] + units)[1..] == units;
    assert UnitText(u, q) + s == UnitsText([u] + units, q) + [q] + rest;
  }

  lemma {:induction false} ScanQuoteSound(s: string, q: char) returns (rest: string)
    requires ScanQuote(s, q).Some?
    ensures EndsQuote(ScanQuote(s, q).value, q, s, rest)
  {
    if s[0] == q {
      if |s| >= 2 && s[1] == q {
        rest := ScanQuoteSound(s[2..], q);
        EndsQuoteCons(Doubled, ScanQuote(s[2..], q).value, q, s[2..], rest);
        assert s == UnitText(Doubled, q) + s[2..];
      } else {
        rest := s[1..];
        assert s == UnitsText([], q) + [q] + rest;
      }
    } else if s[0] == '\\' && q == '\'' {
      rest := ScanQuoteSound(s[2..], q);
      EndsQuoteCons(Escaped(s[1]), ScanQuote(s[2..], q).value, q, s[2..], rest);
      assert s == UnitText(Escaped(s[1]), q) + s[2..];
    } else {
      rest := ScanQuoteSound(s[1..], q);
      EndsQuoteCons(Ordinary(s[0]), ScanQuote(s[1..], q).value, q, s[1..], rest);
      assert s == UnitText(Ordinary(s[0]), q) + s[1..];
    }
  }

  lemma {:induction false} ScanQuoteComplete(units: seq<QuoteUnit>, q: char, s: string, rest: string)
    requires EndsQuote(units, q, s, rest)
    ensures ScanQuote(s, q) == Some(units)
  {
    if units == [] {
      assert s[1..] == rest;
      if |s| >= 2 { assert s[1] == rest[0]; }
    } else {
      var u := units[0];
      var tail := UnitsText(units[1..], q) + [q] + rest;
      assert u in units;
      assert s == UnitText(u, q) + tail;
      assert EndsQuote(units[1..], q, tail, rest);
      ScanQuoteComplete(units[1..], q, tail, rest);
      assert [u] + units[1..] == units;
      match u
      case Ordinary(c) => assert s[0] == c && s[1..] == tail;
      case Doubled => assert s[0] == q && s[1] == q && s[2..] == tail;
      case Escaped(c) => assert s[0] == '\\' && s[1] == c && s[2..] == tail;
    }
  }

  // ---- comments ----

  /** Units up to the marker that closes `depth` open comments. */
  function ScanBlock(s: string, depth: nat): Option<seq<CommentUnit>>
    decreases |s|
  {
    if s == "" then None
    else if "/*" <= s then Cons(Opener, ScanBlock(s[2..], depth + 1))
    else if "*/" <= s then
      if depth <= 1 then Some([Closer]) else Cons(Closer, ScanBlock(s[2..], depth - 1))
    else Cons(Other(s[0]), ScanBlock(s[1..], depth))
  }

  lemma PrefixTransitive(p: string, a: string, s: string)
    ensures p <= a && a <= s ==> p <= s
  {
    if p <= a && a <= s { assert p == s[..|p|]; }
  }

  lemma ClosesCons(u: CommentUnit, tail: seq<CommentUnit>, depth: nat, s: string, rest: string)
    requires s == MarkerText(u) + (CommentText(tail) + rest)
    requires u.Other? ==> !("/*" <= s) && !("*/" <= s)
    requires u.Closer? ==> depth > 1
    requires Closes(tail, if u.Opener? then depth + 1 else if u.Closer? then depth - 1 else depth)
    ensures Closes([u] + tail, depth) && s == CommentText([u] + tail) + rest
  {
    hide CommentText, MarkerText;
    var inside := [u] + tail;
    CommentTextCons(u, tail);
    assert inside[0] == u && inside[1..] == tail;
    assert s == CommentText(inside) + rest;
    PrefixTransitive("/*", CommentText(inside), s);
    PrefixTransitive("*/", CommentText(inside), s);
    assert u.Other? ==> !("/*" <= CommentText(inside)) && !("*/" <= CommentText(inside));
  }

  lemma CommentTextCons(u: CommentUnit, tail: seq<CommentUnit>)
    ensures CommentText([u] + tail) == MarkerText(u) + CommentText(tail)
  {
    assert ([u] + tail)[1..] == tail;
  }

  lemma {:induction false} ScanBlockSound(s: string, depth: nat) returns (rest: string)
    requires ScanBlock(s, depth).Some?
    ensures s == CommentText(ScanBlock(s, depth).value) + rest && Closes(ScanBlock(s, depth).value, depth)
    decreases |s|
  {
    hide Closes, CommentText;
    if "/*" <= s {
      rest := ScanBlockSound(s[2..], depth + 1);
      ClosesCons(Opener, ScanBlock(s[2..], depth + 1).value, depth, s, rest);
    } else if "*/" <= s {
      if depth <= 1 {
        rest := s[2..];
        ClosesLast(depth);
      } else {
        rest := ScanBlockSound(s[2..], depth - 1);
        ClosesCons(Closer, ScanBlock(s[2..], depth - 1).value, depth, s, rest);
      }
    } else {
      rest := ScanBlockSound(s[1..], depth);
      ClosesCons(Other(s[0]), ScanBlock(s[1..], depth).value, depth, s, rest);
    }
  }

  lemma ClosesLast(depth: nat)
    requires depth <= 1
    ensures Closes([Closer], depth) && CommentText([Closer]) == "*/"
  {}

  /** A closing text has at least its final marker. */
  lemma {:induction false} ClosesLong(inside: seq<CommentUnit>, depth: nat)
    requires Closes(inside, depth)
    ensures |CommentText(inside)| >= 2
    decreases |inside|
  {
    if inside[0].Other? { ClosesLong(inside[1..], depth); }
  }

  lemma {:induction false} ScanBlockComplete(inside: seq<CommentUnit>, depth: nat, s: string, rest: string)
    requires Closes(inside, depth) && s == CommentText(inside) + rest
    ensures ScanBlock(s, depth) == Some(inside)
    decreases |inside|
  {
    var u, tail := inside[0], CommentText(inside[1..]) + rest;
    assert s == MarkerText(u) + tail;
    assert [u] + inside[1..] == inside;
    if u.Other? { ClosesLong(inside, depth); }
    var whole := CommentText(inside);
    assert whole <= s;
    assert u.Opener? ==> Closes(inside[1..], depth + 1);
    assert u.Other? ==> Closes(inside[1..], depth);
    assert u.Closer? ==> inside == [Closer] || (depth > 1 && Closes(inside[1..], depth - 1));
    assert u.Closer? && depth <= 1 ==> inside == [Closer];
    assert u.Other? ==> !("/*" <= whole) && !("*/" <= whole);
    hide Closes, CommentText;
    match u
    case Opener =>
      assert s[2..] == tail;
      ScanBlockComplete(inside[1..], depth + 1, tail, rest);
    case Closer =>
      assert s[2..] == tail && s[0] == '*';
      if depth > 1 {
        ScanBlockComplete(inside[1..], depth - 1, tail, rest);
      }
    case Other(c) =>
      assert s[0] == whole[0] && s[1] == whole[1];
      assert s[1..] == tail;
      ScanBlockComplete(inside[1..], depth, tail, rest);
  }

  // ---- dollar-quoted texts ----

  /** The text before the first occurrence of `tag`. */
  function ScanDollar(s: string, tag: string): Option<string> {
    if tag <= s then Some("")
    else if s == "" then None
    else Cons(s[0], ScanDollar(s[1..], tag))
  }

  lemma {:induction false} ScanDollarSound(s: string, tag: string) returns (rest: string)
    requires ScanDollar(s, tag).Some?
    ensures s == ScanDollar(s, tag).value + tag + rest && FirstAtEnd(tag, ScanDollar(s, tag).value)
  {
    if tag <= s {
      rest := s[|tag|..];
    } else {
      rest := ScanDollarSound(s[1..], tag);
      var tail := ScanDollar(s[1..], tag).value;
      var body := [s[0]] + tail;
      assert s == body + tag + rest;
      forall k | 0 <= k < |body| ensures !(tag <= (body + tag)[k..]) {
        if k == 0 {
          assert (body + tag)[0..] <= s;
        } else {
          assert (body + tag)[k..] == (tail + tag)[k - 1..];
        }
      }
    }
  }

  lemma {:induction false} ScanDollarComplete(tag: string, body: string, s: string, rest: string)
    requires FirstAtEnd(tag, body) && s == body + tag + rest
    ensures ScanDollar(s, tag) == Some(body)
  {
    if body == "" {
      assert tag <= s;
    } else {
      assert !(tag <= (body + tag)[0..]);
      assert (body + tag)[0..] == s[..|body| + |tag|];
      assert s[..|tag|] == (body + tag)[..|tag|];
      assert s[1..] == body[1..] + tag + rest;
      forall k | 0 <= k < |body[1..]| ensures !(tag <= (body[1..] + tag)[k..]) {
        assert (body[1..] + tag)[k..] == (body + tag)[k + 1..];
      }
      ScanDollarComplete(tag, body[1..], s[1..], rest);
      assert [s[0]] + body[1..] == body;
    }
  }

  /** Length of the run of tag characters that `s` starts with. */
  function TagRun(s: string): (n: nat)
    ensures n <= |s|
    ensures forall k :: 0 <= k < n ==> IsTagChar(s[k])
    ensures n < |s| ==> !IsTagChar(s[n])
  {
    if s != "" && IsTagChar(s[0]) then 1 + TagRun(s[1..]) else 0
  }

  /** The dollar tag that `s` starts with, if any. */
  function ScanTag(s: string): Option<string> {
    if s != "" && s[0] == '$' then
      var n := TagRun(s[1..]);
      if n + 1 < |s| && s[n + 1] == '$' then Some(s[..n + 2]) else None
    else None
  }

  lemma TagIsRun(s: string, m: nat)
    requires 2 <= m <= |s| && IsTag(s[..m])
    ensures s[0] == '$' && m == TagRun(s[1..]) + 2 && s[m - 1] == '$'
  {
    var t := s[..m];
    var n := TagRun(s[1..]);
    assert t[0] == s[0] && t[m - 1] == s[m - 1] == s[1..][m - 2];
    assert forall k :: 1 <= k < m - 1 ==> IsTagChar(t[k]) && t[k] == s[1..][k - 1];
    assert !IsTagChar(s[1..][m - 2]);
  }

  lemma ScanTagSound(s: string)
    ensures ScanTag(s).Some? <==> StartsWithTag(s)
    ensures ScanTag(s).Some? ==> IsTag(ScanTag(s).value) && ScanTag(s).value <= s
  {
    if ScanTag(s).Some? {
      var n := TagRun(s[1..]);
      var t := s[..n + 2];
      forall k | 1 <= k < |t| - 1 ensures IsTagChar(t[k]) { assert t[k] == s[1..][k - 1]; }
      assert IsTag(s[..n + 2]);
    }
    if StartsWithTag(s) {
      var m :| 2 <= m <= |s| && IsTag(s[..m]);
      TagIsRun(s, m);
    }
  }

  lemma ScanTagComplete(tag: string, rest: string)
    requires IsTag(tag)
    ensures ScanTag(tag + rest) == Some(tag)
  {
    var s := tag + rest;
    assert s[..|tag|] == tag;
    TagIsRun(s, |tag|);
  }

  // ---- line comments ----

  /** The text before the first line break. */
  function LineBody(s: string): (r: string)
    ensures r <= s && '\n' !in r && (r == s || s[|r|] == '\n')
  {
    if s == "" || s[0] == '\n' then "" else [s[0]] + LineBody(s[1..])
  }

  lemma {:induction false} LineBodyComplete(comment: string, rest: string)
    requires '\n' !in comment && (rest == "" || rest[0] == '\n')
    ensures LineBody(comment + rest) == comment
  {
    if comment == "" {
      assert comment + rest == rest;
    } else {
      assert comment[0] in comment;
      assert (comment + rest)[1..] == comment[1..] + rest;
      LineBodyComplete(comment[1..], rest);
    }
  }

  // ---- whole tokens ----

  /** The token that `s` starts with; none when it never ends. */
  function First(s: string): Option<Token>
    requires s != ""
  {
    if "--" <= s then Some(Line(LineBody(s[2..])))
    else if "/*" <= s then
      match ScanBlock(s[2..], 1)
      case None => None
      case Some(inside) => Some(Block(inside))
    else if s[0] == '"' || s[0] == '\'' then
      match ScanQuote(s[1..], s[0])
      case None => None
      case Some(units) => Some(Quoted(s[0], units))
    else
      match ScanTag(s)
      case Some(tag) =>
        (match ScanDollar(s[|tag|..], tag)
         case None => None
         case Some(body) => Some(Dollar(tag, body)))
      case None => if s[0] == ';' then Some(Semicolon) else Some(Plain(s[0]))
  }

  lemma LineSound(s: string) returns (rest: string)
    requires "--" <= s
    ensures s == Text(Line(LineBody(s[2..]))) + rest && Fits(Line(LineBody(s[2..])), rest)
  {
    var comment := LineBody(s[2..]);
    rest := s[2..][|comment|..];
    assert s == "--" + s[2..];
    assert s[2..] == comment + rest;
    assert s == ("--" + comment) + rest;
  }

  lemma BlockSound(s: string) returns (rest: string)
    requires "/*" <= s && ScanBlock(s[2..], 1).Some?
    ensures var t := Block(ScanBlock(s[2..], 1).value); s == Text(t) + rest && Fits(t, rest)
  {
    hide ScanBlock, Closes, CommentText;
    rest := ScanBlockSound(s[2..], 1);
    assert s == "/*" + s[2..];
    assert s == ("/*" + CommentText(ScanBlock(s[2..], 1).value)) + rest;
  }

  lemma QuotedSound(s: string) returns (rest: string)
    requires s != "" && (s[0] == '"' || s[0] == '\'') && ScanQuote(s[1..], s[0]).Some?
    ensures var t := Quoted(s[0], ScanQuote(s[1..], s[0]).value); s == Text(t) + rest && Fits(t, rest)
  {
    hide ScanQuote, UnitsText;
    rest := ScanQuoteSound(s[1..], s[0]);
    var units := ScanQuote(s[1..], s[0]).value;
    assert s == [s[0]] + s[1..];
    assert s == ([s[0]] + UnitsText(units, s[0]) + [s[0]]) + rest;
  }

  lemma DollarSound(s: string, tag: string) returns (rest: string)
    requires tag <= s && IsTag(tag) && ScanDollar(s[|tag|..], tag).Some?
    ensures var t := Dollar(tag, ScanDollar(s[|tag|..], tag).value); s == Text(t) + rest && Fits(t, rest)
  {
    hide ScanDollar, IsTag, FirstAtEnd;
    rest := ScanDollarSound(s[|tag|..], tag);
    assert s == tag + s[|tag|..];
    assert s == (tag + ScanDollar(s[|tag|..], tag).value + tag) + rest;
  }

  lemma FirstSound(s: string) returns (rest: string)
    requires s != "" && First(s).Some?
    ensures s == Text(First(s).value) + rest && Fits(First(s).value, rest)
    ensures |rest| < |s|
  {
    if "--" <= s {
      rest := LineSound(s);
    } else if "/*" <= s {
      rest := BlockSound(s);
    } else if s[0] == '"' || s[0] == '\'' {
      rest := QuotedSound(s);
    } else {
      ScanTagSound(s);
      if ScanTag(s).Some? {
        rest := DollarSound(s, ScanTag(s).value);
      } else {
        rest := s[1..];
        assert s == [s[0]] + rest;
      }
    }
  }

  lemma QuotedComplete(q: char, units: seq<QuoteUnit>, rest: string)
    requires Fits(Quoted(q, units), rest)
    ensures First(Text(Quoted(q, units)) + rest) == Some(Quoted(q, units))
  {
    hide ScanBlock, ScanTag, ScanDollar, LineBody, ScanQuote, UnitsText;
    var s := Text(Quoted(q, units)) + rest;
    assert s[0] == q;
    assert s[1..] == UnitsText(units, q) + [q] + rest;
    ScanQuoteComplete(units, q, s[1..], rest);
  }

  lemma DollarComplete(tag: string, body: string, rest: string)
    requires Fits(Dollar(tag, body), rest)
    ensures First(Text(Dollar(tag, body)) + rest) == Some(Dollar(tag, body))
  {
    hide ScanBlock, ScanTag, ScanDollar, LineBody, ScanQuote;
    var s := Text(Dollar(tag, body)) + rest;
    assert s == tag + (body + tag + rest);
    assert s[0] == tag[0] == '$';
    assert s[|tag|..] == body + tag + rest;
    ScanTagComplete(tag, body + tag + rest);
    ScanDollarComplete(tag, body, s[|tag|..], rest);
  }

  lemma LineComplete(comment: string, rest: string)
    requires Fits(Line(comment), rest)
    ensures First(Text(Line(comment)) + rest) == Some(Line(comment))
  {
    hide ScanBlock, ScanTag, ScanDollar, LineBody, ScanQuote;
    var s := Text(Line(comment)) + rest;
    assert s[0] == '-' && s[1] == '-' && s[2..] == comment + rest;
    LineBodyComplete(comment, rest);
  }

  lemma BlockComplete(inside: seq<CommentUnit>, rest: string)
    requires Fits(Block(inside), rest)
    ensures First(Text(Block(inside)) + rest) == Some(Block(inside))
  {
    hide ScanBlock, ScanTag, ScanDollar, LineBody, ScanQuote, Closes, CommentText;
    var s := Text(Block(inside)) + rest;
    assert s[0] == '/' && s[1] == '*' && s[2..] == CommentText(inside) + rest;
    ScanBlockComplete(inside, 1, s[2..], rest);
  }

  lemma FirstComplete(t: Token, rest: string)
    requires Fits(t, rest)
    ensures Text(t) != "" && First(Text(t) + rest) == Some(t)
  {
    match t
    case Quoted(q, units) => QuotedComplete(q, units, rest);
    case Dollar(tag, body) => DollarComplete(tag, body, rest);
    case Line(comment) => LineComplete(comment, rest);
    case Block(inside) => BlockComplete(inside, rest);
    case Semicolon => assert (";" + rest)[0] == ';';
    case Plain(c) => ScanTagSound([c] + rest);
  }

  /** The tokens of `s`; none when one of them never ends. */
  function Lex(s: string): Option<seq<Token>>
    decreases |s|
  {
    if s == "" then Some([])
    else
      match First(s)
      case None => None
      case Some(t) =>
        ghost var rest := FirstRest(s);
        Cons(t, Lex(s[|Text(t)|..]))
  }

  ghost function FirstRest(s: string): (rest: string)
    requires s != "" && First(s).Some?
    ensures s == Text(First(s).value) + rest && |rest| < |s|
  {
    assert exists rest: string :: s == Text(First(s).value) + rest && |rest| < |s| by {
      var rest := FirstSound(s);
    }
    var rest :| s == Text(First(s).value) + rest && |rest| < |s|;
    rest
  }

  lemma {:induction false} LexSound(s: string)
    requires Lex(s).Some?
    ensures Print(Lex(s).value) == s && Reading(Lex(s).value)
    decreases |s|
  {
    if s != "" {
      var rest := FirstSound(s);
      var t := First(s).value;
      assert s[|Text(t)|..] == rest;
      LexSound(rest);
      assert Lex(s).value[1..] == Lex(rest).value;
    }
  }

  /** Every reading is found, so a source has at most one. */
  lemma {:induction false} LexComplete(ts: seq<Token>)
    requires Reading(ts)
    ensures Lex(Print(ts)) == Some(ts)
  {
    hide First, Text, Fits;
    if ts != [] {
      var rest := Print(ts[1..]);
      FirstComplete(ts[0], rest);
      LexComplete(ts[1..]);
      assert (Text(ts[0]) + rest)[|Text(ts[0])|..] == rest;
      assert [ts[0]] + ts[1..] == ts;
    }
  }
}
