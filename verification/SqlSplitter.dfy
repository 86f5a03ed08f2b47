/** The character loop `statements` of tools/canonical_schema.py, proved against the tokens
    of SqlTokens. Python's ValueError is the outcome `Unterminated`. */
module SqlSplitter {
  import opened Wrappers
  import opened Texts
  import opened SqlTokens
  import opened SqlScan

  datatype Outcome = Parsed(list: seq<string>) | Unterminated

  /** Text left to read, and which construct the loop is inside of. */
  datatype Inside = Outside | InQuote(mark: char) | InDollar(tag: string) | InBlock(depth: nat)

  function From(s: string, n: nat): string { if n <= |s| then s[n..] else "" }

  function UpTo(s: string, n: nat): string { if n <= |s| then s[..n] else s }

  /** What the construct that is open still takes from `s`: its length, if it ends. */
  function Remaining(state: Inside, s: string): Option<nat> {
    match state
    case Outside => Some(0)
    case InQuote(q) =>
      (match ScanQuote(s, q)
       case None => None
       case Some(units) => Some(|UnitsText(units, q)| + 1))
    case InDollar(tag) =>
      (match ScanDollar(s, tag)
       case None => None
       case Some(body) => Some(|body| + |tag|))
    case InBlock(depth) =>
      match ScanBlock(s, depth)
      case None => None
      case Some(inside) => Some(|CommentText(inside)|)
  }

  /** The outcome once `rest` is read from outside every construct. */
  function Finish(result: seq<string>, part: string, rest: string): Outcome {
    match Lex(rest)
    case None => Unterminated
    case Some(ts) => Parsed(result + Split(ts, part))
  }

  /** The outcome when the open construct takes `taken` more characters of `s`. */
  function Complete(result: seq<string>, part: string, comment: bool, taken: Option<nat>, s: string): Outcome {
    match taken
    case None => Unterminated
    case Some(n) => Finish(result, if comment then part else part + UpTo(s, n), From(s, n))
  }

  /** The final outcome of the loop when it stands before `s`. */
  function Resume(result: seq<string>, part: string, state: Inside, s: string): Outcome {
    Complete(result, part, state.InBlock?, Remaining(state, s), s)
  }

  /** The statements of a whole source. */
  function Meaning(source: string): Outcome { Resume([], "", Outside, source) }

  lemma ResumeOutside(result: seq<string>, part: string, s: string)
    ensures Resume(result, part, Outside, s) == Finish(result, part, s)
  {
    assert From(s, 0) == s && part + UpTo(s, 0) == part;
  }

  /** The outcome is that of the one reading the source has, and an error exactly when it has none. */
  lemma MeaningOfReadings(source: string)
    ensures forall ts :: Reading(ts) && Print(ts) == source ==> Meaning(source) == Parsed(Split(ts, ""))
    ensures Meaning(source).Unterminated? <==> !exists ts :: Reading(ts) && Print(ts) == source
  {
    hide Reading, Print, Lex, Resume, Split;
    ResumeOutside([], "", source);
    forall ts | Reading(ts) && Print(ts) == source ensures Lex(source) == Some(ts) {
      LexComplete(ts);
    }
    if Lex(source).Some? {
      LexSound(source);
      assert [] + Split(Lex(source).value, "") == Split(Lex(source).value, "");
    }
  }

  // ---- one step of the loop keeps the outcome ----

  lemma CompleteLater(result: seq<string>, part: string, comment: bool, taken: Option<nat>, s: string, k: nat)
    requires k <= |s|
    ensures Complete(result, part, comment, if taken.Some? then Some(k + taken.value) else None, s)
         == Complete(result, if comment then part else part + s[..k], comment, taken, s[k..])
  {
    hide Finish;
    if taken.Some? {
      var n := taken.value;
      if k + n <= |s| {
        assert s[k..][n..] == s[k + n..];
        assert (part + s[..k]) + s[k..][..n] == part + s[..k + n];
      } else {
        assert (part + s[..k]) + s[k..] == part + s;
      }
    }
  }

  lemma StepInside(result: seq<string>, part: string, state: Inside, s: string, k: nat, next: Inside)
    requires k <= |s| && state.InBlock? == next.InBlock?
    requires Remaining(state, s) ==
      if Remaining(next, s[k..]).Some? then Some(k + Remaining(next, s[k..]).value) else None
    ensures Resume(result, part, state, s)
         == Resume(result, if state.InBlock? then part else part + s[..k], next, s[k..])
  {
    hide Remaining, Complete;
    CompleteLater(result, part, state.InBlock?, Remaining(next, s[k..]), s, k);
  }

  lemma StepLeave(result: seq<string>, part: string, state: Inside, s: string, k: nat)
    requires k <= |s| && !state.Outside? && Remaining(state, s) == Some(k)
    ensures Resume(result, part, state, s)
         == Resume(result, if state.InBlock? then part else part + s[..k], Outside, s[k..])
  {
    ResumeOutside(result, if state.InBlock? then part else part + s[..k], s[k..]);
  }

  lemma FinishToken(result: seq<string>, part: string, s: string, t: Token, rest: string)
    requires s != "" && First(s) == Some(t) && s == Text(t) + rest
    ensures Finish(result, part, s) ==
      if t.Semicolon? then Finish(result + Emit(part), "", rest) else Finish(result, part + Kept(t), rest)
  {
    hide First, Text, Emit, Kept;
    assert s[|Text(t)|..] == rest;
    if Lex(rest).Some? {
      var ts := Lex(rest).value;
      assert ([t] + ts)[1..] == ts;
      assert result + (Emit(part) + Split(ts, "")) == (result + Emit(part)) + Split(ts, "");
    }
  }

  /** A construct whose first `k` characters were read is the token it starts. */
  lemma StepEnter(result: seq<string>, part: string, s: string, k: nat, state: Inside)
    requires k <= |s| && s != "" && !state.Outside?
    requires Remaining(state, s[k..]).None? ==> First(s).None?
    requires Remaining(state, s[k..]).Some? ==>
      First(s).Some? && k + Remaining(state, s[k..]).value == |Text(First(s).value)|
    requires First(s).Some? ==>
      First(s).value.Block? == state.InBlock? && !First(s).value.Line? && !First(s).value.Semicolon?
    ensures Resume(result, part, Outside, s)
         == Resume(result, if state.InBlock? then part + " " else part + s[..k], state, s[k..])
  {
    hide First, Text, Remaining, Emit, Split;
    ResumeOutside(result, part, s);
    NothingFirst(s);
    if First(s).Some? {
      var t := First(s).value;
      var rest := FirstSound(s);
      FinishToken(result, part, s, t, rest);
      EnterTaken(part, s, k, Text(t), rest);
    }
  }

  lemma NothingFirst(s: string)
    ensures s != "" && First(s).None? ==> Lex(s).None?
  {
    hide First;
  }

  lemma EnterTaken(part: string, s: string, k: nat, text: string, rest: string)
    requires k <= |text| && s == text + rest
    ensures UpTo(s[k..], |text| - k) == text[k..] && From(s[k..], |text| - k) == rest
    ensures part + s[..k] + UpTo(s[k..], |text| - k) == part + text
  {
    assert s[k..] == text[k..] + rest;
    assert s[..k] + text[k..] == text;
    assert part + s[..k] + text[k..] == part + (s[..k] + text[k..]);
  }

  /** A token read in one step. */
  lemma StepToken(result: seq<string>, part: string, s: string, t: Token)
    requires s != "" && First(s) == Some(t) && |Text(t)| <= |s|
    ensures Resume(result, part, Outside, s)
         == if t.Semicolon? then Resume(result + Emit(part), "", Outside, s[|Text(t)|..])
            else Resume(result, part + Kept(t), Outside, s[|Text(t)|..])
  {
    var rest := FirstSound(s);
    assert s[|Text(t)|..] == rest;
    ResumeOutside(result, part, s);
    FinishToken(result, part, s, t, rest);
    ResumeOutside(result + Emit(part), "", rest);
    ResumeOutside(result, part + Kept(t), rest);
  }

  lemma StepQuote(result: seq<string>, part: string, q: char, s: string, k: nat)
    requires s != "" && (q == '"' || q == '\'')
    requires k == if s[0] == q then (if |s| >= 2 && s[1] == q then 2 else 1)
                  else if s[0] == '\\' && q == '\'' && |s| >= 2 then 2 else 1
    ensures Resume(result, part, InQuote(q), s)
         == Resume(result, part + s[..k], if s[0] == q && k == 1 then Outside else InQuote(q), s[k..])
  {
    hide Resume;
    if s[0] == q && k == 1 {
      assert ScanQuote(s, q) == Some([]);
      StepLeave(result, part, InQuote(q), s, 1);
    } else {
      var u := if s[0] == q then Doubled else if k == 2 then Escaped(s[1]) else Ordinary(s[0]);
      if s[0] == '\\' && q == '\'' && k == 1 {
        assert s[1..] == "" && ScanQuote(s[1..], q) == None;
      } else {
        assert ScanQuote(s, q) == Cons(u, ScanQuote(s[k..], q));
        if ScanQuote(s[k..], q).Some? {
          var us := ScanQuote(s[k..], q).value;
          assert ([u] + us)[1..] == us && |UnitText(u, q)| == k;
        }
      }
      StepInside(result, part, InQuote(q), s, k, InQuote(q));
    }
  }

  lemma StepDollar(result: seq<string>, part: string, tag: string, s: string)
    requires s != "" && tag != ""
    ensures if tag <= s then Resume(result, part, InDollar(tag), s) == Resume(result, part + tag, Outside, s[|tag|..])
            else Resume(result, part, InDollar(tag), s) == Resume(result, part + s[..1], InDollar(tag), s[1..])
  {
    if tag <= s {
      assert s[..|tag|] == tag;
      StepLeave(result, part, InDollar(tag), s, |tag|);
    } else {
      StepInside(result, part, InDollar(tag), s, 1, InDollar(tag));
    }
  }

  lemma BlockEnds(s: string)
    requires "*/" <= s
    ensures Remaining(InBlock(1), s) == Some(2)
  {
    assert s[0] == '*';
    ClosesLast(1);
  }

  lemma StepBlock(result: seq<string>, part: string, depth: nat, s: string)
    requires s != "" && depth >= 1
    ensures Resume(result, part, InBlock(depth), s) ==
            if "/*" <= s then Resume(result, part, InBlock(depth + 1), s[2..])
            else if "*/" <= s then Resume(result, part, if depth == 1 then Outside else InBlock(depth - 1), s[2..])
            else Resume(result, part, InBlock(depth), s[1..])
  {
    if "*/" <= s && depth == 1 {
      BlockEnds(s);
      StepLeave(result, part, InBlock(depth), s, 2);
    } else {
      var u := if "/*" <= s then Opener else if "*/" <= s then Closer else Other(s[0]);
      var k := |MarkerText(u)|;
      var next := if u.Opener? then depth + 1 else if u.Closer? then depth - 1 else depth;
      if ScanBlock(s[k..], next).Some? {
        var us := ScanBlock(s[k..], next).value;
        assert ([u] + us)[1..] == us;
      }
      StepInside(result, part, InBlock(depth), s, k, InBlock(next));
    }
  }

  // ---- the loop ----

  function Pair(s: string, i: nat): string
    requires i <= |s|
  {
    if i + 2 <= |s| then s[i..i + 2] else s[i..]
  }

  /** The construct that the three variables of the loop stand for. */
  function State(quote: Option<char>, dollar: Option<string>, block: nat): Inside {
    if dollar.Some? then InDollar(dollar.value)
    else if quote.Some? then InQuote(quote.value)
    else if block > 0 then InBlock(block) else Outside
  }

  lemma PairIsPrefix(source: string, i: nat, p: string)
    requires i <= |source| && |p| == 2
    ensures Pair(source, i) == p <==> p <= source[i..]
  {
    if i + 2 <= |source| { assert source[i..][..2] == source[i..i + 2]; }
  }

  /** The suffix of `source` at `i`, seen from the suffix at an earlier index. */
  lemma Suffix(source: string, i: nat, k: nat)
    requires i + k <= |source|
    ensures source[i..][k..] == source[i + k..] && source[i..][..k] == source[i..i + k]
  {}

  lemma QuoteAt(result: seq<string>, part: string, q: char, source: string, i: nat)
    requires i < |source| && (q == '"' || q == '\'')
    ensures Resume(result, part, InQuote(q), source[i..]) ==
            if (source[i] == q && i + 1 < |source| && source[i + 1] == q) ||
               (source[i] != q && source[i] == '\\' && q == '\'' && i + 1 < |source|)
            then Resume(result, part + [source[i]] + [source[i + 1]], InQuote(q), source[i + 2..])
            else Resume(result, part + [source[i]], if source[i] == q then Outside else InQuote(q), source[i + 1..])
  {
    hide Resume;
    var s := source[i..];
    var k := if s[0] == q then (if |s| >= 2 && s[1] == q then 2 else 1)
             else if s[0] == '\\' && q == '\'' && |s| >= 2 then 2 else 1;
    StepQuote(result, part, q, s, k);
    Suffix(source, i, k);
    if k == 2 {
      assert part + source[i..i + 2] == part + [source[i]] + [source[i + 1]];
    } else {
      assert source[i..i + 1] == [source[i]];
    }
  }

  lemma DollarAt(result: seq<string>, part: string, tag: string, source: string, i: nat)
    requires i < |source| && tag != ""
    ensures tag <= source[i..] ==>
            Resume(result, part, InDollar(tag), source[i..]) == Resume(result, part + tag, Outside, source[i + |tag|..])
    ensures !(tag <= source[i..]) ==>
            Resume(result, part, InDollar(tag), source[i..]) ==
              Resume(result, part + [source[i]], InDollar(tag), source[i + 1..])
  {
    var s := source[i..];
    StepDollar(result, part, tag, s);
    Suffix(source, i, 1);
    assert s[..1] == [source[i]];
    if tag <= s { Suffix(source, i, |tag|); }
  }

  lemma BlockAt(result: seq<string>, part: string, depth: nat, source: string, i: nat)
    requires i < |source| && depth >= 1
    ensures Resume(result, part, InBlock(depth), source[i..]) ==
            if Pair(source, i) == "/*" then Resume(result, part, InBlock(depth + 1), source[i + 2..])
            else if Pair(source, i) == "*/"
            then Resume(result, part, if depth == 1 then Outside else InBlock(depth - 1), source[i + 2..])
            else Resume(result, part, InBlock(depth), source[i + 1..])
  {
    StepBlock(result, part, depth, source[i..]);
    PairIsPrefix(source, i, "/*");
    PairIsPrefix(source, i, "*/");
    Suffix(source, i, 1);
    if i + 2 <= |source| { Suffix(source, i, 2); }
  }

  lemma LineIsToken(s: string)
    requires "--" <= s
    ensures First(s) == Some(Line(LineBody(s[2..]))) && LineBody(s) == Text(Line(LineBody(s[2..])))
  {
    hide ScanBlock, ScanTag, ScanDollar, ScanQuote, LineBody;
    LineBodyOfTwo(s);
  }

  lemma LineBodyOfTwo(s: string)
    requires "--" <= s
    ensures LineBody(s) == "--" + LineBody(s[2..])
  {
    hide LineBody;
    var tail := s[1..];
    assert s[0] == '-' && tail[0] == '-' && tail[1..] == s[2..];
    LineBodyOfOne(s);
    LineBodyOfOne(tail);
  }

  lemma LineBodyOfOne(s: string)
    requires s != "" && s[0] == '-'
    ensures LineBody(s) == ['-'] + LineBody(s[1..])
  {}

  lemma LineAt(result: seq<string>, part: string, source: string, i: nat)
    requires i < |source| && Pair(source, i) == "--"
    ensures |LineBody(source[i..])| > 0
    ensures Resume(result, part, Outside, source[i..]) ==
      Resume(result, part + "\n", Outside, source[i + |LineBody(source[i..])|..])
  {
    hide Resume, First, LineBody;
    var s := source[i..];
    PairIsPrefix(source, i, "--");
    LineIsToken(s);
    StepToken(result, part, s, Line(LineBody(s[2..])));
    Suffix(source, i, |LineBody(s)|);
  }

  lemma CommentAt(result: seq<string>, part: string, source: string, i: nat)
    requires i < |source| && Pair(source, i) == "/*"
    ensures Resume(result, part, Outside, source[i..]) == Resume(result, part + " ", InBlock(1), source[i + 2..])
  {
    PairIsPrefix(source, i, "--");
    PairIsPrefix(source, i, "/*");
    StepEnter(result, part, source[i..], 2, InBlock(1));
    Suffix(source, i, 2);
  }

  lemma OpenAt(result: seq<string>, part: string, source: string, i: nat)
    requires i < |source| && Pair(source, i) != "--" && Pair(source, i) != "/*"
    ensures source[i] == '"' || source[i] == '\'' ==>
            Resume(result, part, Outside, source[i..]) ==
              Resume(result, part + [source[i]], InQuote(source[i]), source[i + 1..])
    ensures source[i] != '"' && source[i] != '\'' && ScanTag(source[i..]).Some? ==>
            var tag := ScanTag(source[i..]).value;
            tag != "" && i + |tag| <= |source| &&
            Resume(result, part, Outside, source[i..]) == Resume(result, part + tag, InDollar(tag), source[i + |tag|..])
  {
    hide Resume, First, Remaining, Pair;
    var s := source[i..];
    PairIsPrefix(source, i, "--");
    PairIsPrefix(source, i, "/*");
    if source[i] == '"' || source[i] == '\'' {
      QuoteOpens(result, part, s);
      Suffix(source, i, 1);
      assert source[i..i + 1] == [source[i]];
    } else if ScanTag(s).Some? {
      TagOpens(result, part, s);
      Suffix(source, i, |ScanTag(s).value|);
    }
  }

  lemma QuoteOpens(result: seq<string>, part: string, s: string)
    requires s != "" && !("--" <= s) && !("/*" <= s) && (s[0] == '"' || s[0] == '\'')
    ensures Resume(result, part, Outside, s) == Resume(result, part + s[..1], InQuote(s[0]), s[1..])
  {
    hide Resume, Lex;
    StepEnter(result, part, s, 1, InQuote(s[0]));
  }

  lemma TagOpens(result: seq<string>, part: string, s: string)
    requires s != "" && !("--" <= s) && !("/*" <= s) && s[0] != '"' && s[0] != '\'' && ScanTag(s).Some?
    ensures var tag := ScanTag(s).value;
      tag != "" && tag <= s && Resume(result, part, Outside, s) == Resume(result, part + tag, InDollar(tag), s[|tag|..])
  {
    hide Resume, Lex;
    ScanTagSound(s);
    var tag := ScanTag(s).value;
    StepEnter(result, part, s, |tag|, InDollar(tag));
    assert s[..|tag|] == tag;
  }

  lemma CharAt(result: seq<string>, part: string, source: string, i: nat)
    requires i < |source| && Pair(source, i) != "--" && Pair(source, i) != "/*"
    requires source[i] != '"' && source[i] != '\'' && ScanTag(source[i..]).None?
    ensures Resume(result, part, Outside, source[i..]) ==
            if source[i] == ';' then Resume(result + Emit(part), "", Outside, source[i + 1..])
            else Resume(result, part + [source[i]], Outside, source[i + 1..])
  {
    var s := source[i..];
    PairIsPrefix(source, i, "--");
    PairIsPrefix(source, i, "/*");
    StepToken(result, part, s, if source[i] == ';' then Semicolon else Plain(source[i]));
    Suffix(source, i, 1);
  }

  lemma Start(source: string)
    ensures Resume([], "", Outside, source[0..]) == Meaning(source)
  {
    assert source[0..] == source;
  }

  lemma End(result: seq<string>, part: string, state: Inside)
    requires state.InDollar? ==> state.tag != ""
    ensures Resume(result, part, state, "") == if state.Outside? then Parsed(result + Emit(part)) else Unterminated
  {
    assert part + UpTo("", 0) == part;
  }

  method Statements(source: string) returns (r: Outcome)
    ensures forall ts :: Reading(ts) && Print(ts) == source ==> r == Parsed(Split(ts, ""))
    ensures r.Unterminated? <==> !exists ts :: Reading(ts) && Print(ts) == source
    ensures r == Meaning(source)
  {
    hide Resume, Meaning;
    Start(source);
    var result: seq<string>, part: string, i := [], "", 0;
    var quote: Option<char>, dollar: Option<string>, block: nat := None, None, 0;
    while i < |source|
      invariant i <= |source|
      invariant dollar.Some? ==> quote.None? && block == 0 && dollar.value != ""
      invariant quote.Some? ==> block == 0 && (quote.value == '"' || quote.value == '\'')
      invariant Resume(result, part, State(quote, dollar, block), source[i..]) == Meaning(source)
      decreases |source| - i
    {
      var c, pair := source[i], Pair(source, i);
      if dollar.Some? {
        DollarAt(result, part, dollar.value, source, i);
        if dollar.value <= source[i..] {
          part, i, dollar := part + dollar.value, i + |dollar.value|, None;
        } else {
          part, i := part + [c], i + 1;
        }
        continue;
      }
      if quote.Some? {
        var q := quote.value;
        QuoteAt(result, part, q, source, i);
        part, i := part + [c], i + 1;
        if c == q {
          if i < |source| && source[i] == q {
            part, i := part + [source[i]], i + 1;
          } else {
            quote := None;
          }
        } else if c == '\\' && q == '\'' && i < |source| {
          part, i := part + [source[i]], i + 1;
        }
        continue;
      }
      if block > 0 {
        BlockAt(result, part, block, source, i);
        if pair == "/*" {
          block, i := block + 1, i + 2;
        } else if pair == "*/" {
          block, i := block - 1, i + 2;
        } else {
          i := i + 1;
        }
        continue;
      }
      if pair == "--" {
        LineAt(result, part, source, i);
        part, i := part + "\n", i + |LineBody(source[i..])|;
        continue;
      }
      if pair == "/*" {
        CommentAt(result, part, source, i);
        part, block, i := part + " ", 1, i + 2;
        continue;
      }
      OpenAt(result, part, source, i);
      if c == '"' || c == '\'' {
        part, quote, i := part + [c], Some(c), i + 1;
        continue;
      }
      if c == '$' {
        var tag := ScanTag(source[i..]);
        if tag.Some? {
          part, dollar, i := part + tag.value, tag, i + |tag.value|;
          continue;
        }
      }
      CharAt(result, part, source, i);
      if c == ';' {
        result := result + Emit(part);
        part, i := "", i + 1;
        continue;
      }
      part, i := part + [c], i + 1;
    }
    assert source[i..] == "";
    End(result, part, State(quote, dollar, block));
    MeaningOfReadings(source);
    if quote.Some? || dollar.Some? || block > 0 {
      return Unterminated;
    }
    return Parsed(result + Emit(part));
  }
}
