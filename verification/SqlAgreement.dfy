/** Where the tokens of the splitter (SqlTokens) are those of the PostgreSQL manual (SqlManual): a
    condition on the source that holds exactly then, and sources for which the outcomes differ. */
module SqlAgreement {
  import opened Wrappers
  import opened Texts
  import opened SqlTokens
  import opened SqlScan
  import opened SqlManual
  import opened SqlSplitter

  // ---- the outcome by the manual ----

  function MeaningAfter(result: seq<string>, part: string, s: string, before: Context): Outcome {
    match LexAfter(s, before)
    case None => Unterminated
    case Some(ts) => Parsed(result + Split(ts, part))
  }

  /** The statements of a whole source by the manual. */
  function ManualMeaning(source: string): Outcome { MeaningAfter([], "", source, Apart) }

  lemma ManualMeaningOfReadings(source: string)
    ensures forall ts :: ReadingAfter(ts, Apart) && Print(ts) == source ==>
      ManualMeaning(source) == Parsed(Split(ts, ""))
    ensures ManualMeaning(source).Unterminated? <==> !exists ts :: ReadingAfter(ts, Apart) && Print(ts) == source
  {
    hide ReadingAfter, Print, LexAfter, Split;
    assert forall list: seq<string> :: [] + list == list;
    forall ts | ReadingAfter(ts, Apart) && Print(ts) == source ensures LexAfter(source, Apart) == Some(ts) {
      LexAfterComplete(ts, Apart);
    }
    if LexAfter(source, Apart).Some? {
      LexAfterSound(source, Apart);
      assert [] + Split(LexAfter(source, Apart).value, "") == Split(LexAfter(source, Apart).value, "");
    }
  }

  // ---- the two readings side by side ----

  /** The tokens read, and whether a construct was left open after them. */
  datatype Trace = Trace(tokens: seq<Token>, open: bool)

  function Before(t: Token, trace: Trace): Trace { trace.(tokens := [t] + trace.tokens) }

  ghost function CodeTrace(s: string): Trace
    decreases |s|
  {
    if s == "" then Trace([], false)
    else if First(s).None? then Trace([], true)
    else Before(First(s).value, CodeTrace(FirstRest(s)))
  }

  ghost function ManualTrace(s: string, before: Context): Trace
    decreases |s|
  {
    if s == "" then Trace([], false)
    else if FirstAfter(s, before).None? then Trace([], true)
    else Before(FirstAfter(s, before).value,
      ManualTrace(RestAfter(s, before), Next(before, FirstAfter(s, before).value)))
  }

  lemma {:induction false} CodeTraceIsLex(s: string)
    ensures Lex(s) == if CodeTrace(s).open then None else Some(CodeTrace(s).tokens)
    decreases |s|
  {
    hide First, Text;
    if s != "" && First(s).Some? {
      var t, rest := First(s).value, FirstRest(s);
      assert s == Text(t) + rest;
      assert s[|Text(t)|..] == rest;
      CodeTraceIsLex(rest);
    }
  }

  lemma {:induction false} ManualTraceIsLex(s: string, before: Context)
    ensures LexAfter(s, before) == if ManualTrace(s, before).open then None else Some(ManualTrace(s, before).tokens)
    decreases |s|
  {
    hide FirstAfter, Text, Next;
    if s != "" && FirstAfter(s, before).Some? {
      var t, rest := FirstAfter(s, before).value, RestAfter(s, before);
      assert s == Text(t) + rest;
      assert s[|Text(t)|..] == rest;
      ManualTraceIsLex(rest, Next(before, t));
    }
  }

  /** The tokens are of one kind and take the same text. */
  predicate SameShape(t: Token, u: Token) {
    Text(t) == Text(u) && t.Quoted? == u.Quoted? && t.Dollar? == u.Dollar? && t.Line? == u.Line? &&
    t.Block? == u.Block? && t.Semicolon? == u.Semicolon?
  }

  predicate SameFirst(a: Option<Token>, b: Option<Token>) {
    a.Some? == b.Some? && (a.Some? ==> SameShape(a.value, b.value))
  }

  predicate SameTrace(a: Trace, b: Trace) {
    a.open == b.open && |a.tokens| == |b.tokens| &&
    forall k :: 0 <= k < |a.tokens| ==> SameShape(a.tokens[k], b.tokens[k])
  }

  // ---- the condition ----

  /** In the text in single quotes that the splitter reads from here, no backslash stands before a quote. */
  predicate NoEscapedQuote(s: string) {
    if s == "" then true
    else if s[0] == '\'' then "''" <= s ==> NoEscapedQuote(s[2..])
    else if s[0] == '\\' && |s| >= 2 then s[1] != '\'' && NoEscapedQuote(s[2..])
    else NoEscapedQuote(s[1..])
  }

  /** A token that starts here is safe: a text in single quotes without `E` has no escaped quote, and a
      dollar tag of ASCII letters, digits and underscores does not follow an identifier and does not
      start with a digit. A tag with other letters is not one to the splitter. */
  ghost predicate Safe(s: string, before: Context)
    requires s != ""
  {
    (s[0] == '\'' && !Escapes(before) ==> NoEscapedQuote(s[1..])) &&
    (s[0] == '$' ==>
      if StartsWithTag(s) then !InWord(before) && !IsDigit(s[1]) else InWord(before) || !StartsWithNameTag(s))
  }

  /** All tokens that the splitter reads are safe where they start. */
  ghost predicate Clear(s: string, before: Context)
    decreases |s|
  {
    s != "" ==>
      Safe(s, before) && (First(s).Some? ==> Clear(FirstRest(s), Next(before, First(s).value)))
  }

  // ---- texts in single quotes ----

  /** How much of the source a scan for the closing quote takes. */
  function Extent(units: Option<seq<QuoteUnit>>): Option<nat> {
    if units.None? then None else Some(|UnitsText(units.value, '\'')| + 1)
  }

  function Plus(n: nat, extent: Option<nat>): Option<nat> {
    if extent.None? then None else Some(n + extent.value)
  }

  lemma ExtentCons(u: QuoteUnit, units: Option<seq<QuoteUnit>>)
    ensures Extent(Cons(u, units)) == Plus(|UnitText(u, '\'')|, Extent(units))
  {
    if units.Some? { assert ([u] + units.value)[1..] == units.value; }
  }

  /** From one quote apart, the two scans never end at the same place, and not both of them are open. */
  lemma {:induction false} OutOfPhase(t: string)
    ensures Extent(ScanPlain("'" + t)) != Plus(1, Extent(ScanQuote(t, '\'')))
  {
    hide UnitsText;
    PlainQuote(t);
    if t != "" && t[0] == '\'' {
      if |t| >= 2 && t[1] == '\'' {
        assert t[1..] == "'" + t[2..];
        OutOfPhase(t[2..]);
        ExtentCons(Doubled, ScanQuote(t[2..], '\''));
      } else {
        NoText();
      }
    }
  }

  lemma NoText()
    ensures Extent(Some([])) == Some(1)
  {}

  lemma PlainQuote(t: string)
    ensures Extent(ScanPlain("'" + t)) ==
      if t != "" && t[0] == '\'' then Plus(2, Extent(ScanPlain(t[1..]))) else Some(1)
  {
    var s := "'" + t;
    assert t != "" ==> s[1] == t[0];
    if t != "" && t[0] == '\'' {
      assert s[2..] == t[1..];
      ExtentCons(Doubled, ScanPlain(t[1..]));
    }
  }

  lemma {:induction false} QuotesAgree(s: string)
    ensures Extent(ScanQuote(s, '\'')) == Extent(ScanPlain(s)) <==> NoEscapedQuote(s)
  {
    hide UnitsText, Extent;
    if s != "" {
      if s[0] == '\'' {
        if "''" <= s {
          QuotesAgree(s[2..]);
          ExtentCons(Doubled, ScanQuote(s[2..], '\''));
          ExtentCons(Doubled, ScanPlain(s[2..]));
        }
      } else if s[0] == '\\' && |s| >= 2 {
        ExtentCons(Escaped(s[1]), ScanQuote(s[2..], '\''));
        ExtentCons(Ordinary('\\'), ScanPlain(s[1..]));
        if s[1] == '\'' {
          assert s[1..] == "'" + s[2..];
          OutOfPhase(s[2..]);
        } else {
          assert s[1..][1..] == s[2..];
          QuotesAgree(s[2..]);
          ExtentCons(Ordinary(s[1]), ScanPlain(s[2..]));
        }
      } else {
        QuotesAgree(s[1..]);
        ExtentCons(Ordinary(s[0]), ScanQuote(s[1..], '\''));
        ExtentCons(Ordinary(s[0]), ScanPlain(s[1..]));
      }
    }
  }

  /** Equal extents are equal texts. */
  lemma PlainTextSafe(s: string, before: Context)
    requires s != "" && s[0] == '\'' && !Escapes(before)
    ensures SameFirst(First(s), FirstAfter(s, before)) <==> NoEscapedQuote(s[1..])
  {
    hide ScanQuote, ScanPlain, UnitsText, NoEscapedQuote;
    var a, b := ScanQuote(s[1..], '\''), ScanPlain(s[1..]);
    QuotesAgree(s[1..]);
    if a.Some? && b.Some? {
      var c := QuotedSound(s);
      var d := PlainTextSound(s, before);
      var t, u := Text(Quoted('\'', a.value)), Text(Quoted('\'', b.value));
      assert |t| == |UnitsText(a.value, '\'')| + 2 && |u| == |UnitsText(b.value, '\'')| + 2;
      assert t == s[..|t|] && u == s[..|u|];
    }
  }

  // ---- tags ----

  /** The splitter knows the letters, digits and underscores of ASCII, the manual all letters. */
  lemma TagCharsAre(c: char)
    ensures IsTagChar(c) <==> IsNameChar(c) && c < '\U{80}'
  {}

  lemma TagsAgree(s: string)
    requires StartsWithTag(s)
    ensures |s| >= 2 && ScanNameTag(s) == if IsDigit(s[1]) then None else ScanTag(s)
  {
    ScanTagSound(s);
    var tag := ScanTag(s).value;
    if !IsDigit(s[1]) {
      assert s == tag + s[|tag|..];
      assert forall k :: 1 <= k < |tag| - 1 ==> IsTagChar(tag[k]);
      ScanNameTagComplete(tag, s[|tag|..]);
    }
  }

  lemma DollarSafe(s: string, before: Context)
    requires s != "" && s[0] == '$'
    ensures SameFirst(First(s), FirstAfter(s, before)) <==> Safe(s, before)
  {
    hide ScanDollar, ScanTag, ScanNameTag, StartsWithTag, StartsWithNameTag;
    ScanTagSound(s);
    ScanNameTagSound(s);
    if StartsWithTag(s) { TagsAgree(s); }
  }

  /** The next tokens are the same exactly if the token is safe. */
  lemma SafeIff(s: string, before: Context)
    requires s != ""
    ensures SameFirst(First(s), FirstAfter(s, before)) <==> Safe(s, before)
  {
    hide First, NoEscapedQuote, Escapes, StartsWithTag, StartsWithNameTag;
    if s[0] == '\'' && !Escapes(before) {
      PlainTextSafe(s, before);
    } else if s[0] == '$' {
      DollarSafe(s, before);
    }
  }

  // ---- whole sources ----

  lemma NextSame(t: Token, u: Token, before: Context)
    requires SameShape(t, u)
    ensures Next(before, t) == Next(before, u)
  {
    if t.Quoted? { assert Text(t)[0] == t.mark && Text(u)[0] == u.mark; }
    if t.Plain? { assert Text(t) == [t.c] && Text(u) == [u.c]; }
  }

  lemma SameRest(s: string, before: Context)
    requires s != "" && First(s).Some? && SameFirst(First(s), FirstAfter(s, before))
    ensures FirstRest(s) == RestAfter(s, before)
    ensures Next(before, First(s).value) == Next(before, FirstAfter(s, before).value)
  {
    hide First, FirstAfter, Text, Next;
    var t, u := First(s).value, FirstAfter(s, before).value;
    var rest, rest' := FirstRest(s), RestAfter(s, before);
    assert s == Text(t) + rest && s == Text(u) + rest';
    assert s[|Text(t)|..] == rest && s[|Text(u)|..] == rest';
    NextSame(t, u, before);
  }

  lemma SameTraceCons(t: Token, a: Trace, u: Token, b: Trace)
    ensures SameTrace(Before(t, a), Before(u, b)) <==> SameShape(t, u) && SameTrace(a, b)
  {
    hide SameShape;
    var ts, us := [t] + a.tokens, [u] + b.tokens;
    if SameTrace(Before(t, a), Before(u, b)) {
      assert SameShape(ts[0], us[0]);
      forall k | 0 <= k < |a.tokens| ensures SameShape(a.tokens[k], b.tokens[k]) {
        assert SameShape(ts[k + 1], us[k + 1]);
      }
    }
  }

  /** The splitter reads the tokens that the manual reads, up to the same open construct if there is
      one, exactly for the clear sources. */
  lemma {:induction false} ClearIff(s: string, before: Context)
    ensures SameTrace(CodeTrace(s), ManualTrace(s, before)) <==> Clear(s, before)
    decreases |s|
  {
    hide First, FirstAfter, Next, Safe, SameShape, SameTrace;
    if s == "" {
      NoTokens();
    } else {
      SafeIff(s, before);
      var a, b := First(s), FirstAfter(s, before);
      if a.Some? && b.Some? {
        var t, u := a.value, b.value;
        SameTraceCons(t, CodeTrace(FirstRest(s)), u, ManualTrace(RestAfter(s, before), Next(before, u)));
        if SameShape(t, u) {
          SameRest(s, before);
          ClearIff(FirstRest(s), Next(before, t));
        }
      } else {
        TraceEnds(CodeTrace(s), ManualTrace(s, before));
      }
    }
  }

  lemma NoTokens()
    ensures SameTrace(Trace([], false), Trace([], false)) && SameTrace(Trace([], true), Trace([], true))
  {}

  lemma TraceEnds(a: Trace, b: Trace)
    requires a == Trace([], true) || b == Trace([], true)
    ensures a.tokens != [] || b.tokens != [] ==> !SameTrace(a, b)
    ensures a == b ==> SameTrace(a, b)
  {}

  lemma MeaningToken(result: seq<string>, part: string, s: string, before: Context)
    requires s != "" && FirstAfter(s, before).Some?
    ensures var t, rest := FirstAfter(s, before).value, RestAfter(s, before);
      MeaningAfter(result, part, s, before) ==
        if t.Semicolon? then MeaningAfter(result + Emit(part), "", rest, Next(before, t))
        else MeaningAfter(result, part + Kept(t), rest, Next(before, t))
  {
    hide FirstAfter, Text, Emit, Kept, Next;
    var t, rest := FirstAfter(s, before).value, RestAfter(s, before);
    assert s[|Text(t)|..] == rest;
    if LexAfter(rest, Next(before, t)).Some? {
      var ts := LexAfter(rest, Next(before, t)).value;
      assert ([t] + ts)[1..] == ts;
      assert result + (Emit(part) + Split(ts, "")) == (result + Emit(part)) + Split(ts, "");
    }
  }

  lemma {:induction false} ClearOutcome(result: seq<string>, part: string, s: string, before: Context)
    requires Clear(s, before)
    ensures Finish(result, part, s) == MeaningAfter(result, part, s, before)
    decreases |s|
  {
    hide First, FirstAfter, Next, Safe, SameShape, Split, Emit, Kept, Text;
    if s != "" {
      SafeIff(s, before);
      if First(s).Some? {
        var t, rest := First(s).value, FirstRest(s);
        SameRest(s, before);
        FinishToken(result, part, s, t, rest);
        MeaningToken(result, part, s, before);
        KeptSame(t, FirstAfter(s, before).value);
        if t.Semicolon? {
          ClearOutcome(result + Emit(part), "", rest, Next(before, t));
        } else {
          ClearOutcome(result, part + Kept(t), rest, Next(before, t));
        }
      }
    }
  }

  lemma KeptSame(t: Token, u: Token)
    requires SameShape(t, u)
    ensures Kept(t) == Kept(u) && t.Semicolon? == u.Semicolon?
  {}

  /** The statements of a clear source are those by the manual, or both find an open construct. */
  lemma ClearMeaning(source: string)
    requires Clear(source, Apart)
    ensures Meaning(source) == ManualMeaning(source)
  {
    hide Clear, Finish;
    ResumeOutside([], "", source);
    ClearOutcome([], "", source, Apart);
  }

  /** An identifier goes on after this token. */
  predicate Joins(t: Token) { t.Plain? && (IsNameChar(t.c) || t.c == '$') }

  /** What a source may contain: no text in single quotes has a backslash, no dollar tag starts with a
      digit, follows an identifier character or has letters beyond ASCII. */
  ghost predicate Usual(ts: seq<Token>, joined: bool) {
    ts != [] ==>
      (match ts[0]
       case Quoted(q, units) => q == '\'' ==> forall u :: u in units ==> !u.Escaped?
       case Dollar(tag, _) => !joined && |tag| >= 2 && !IsDigit(tag[1])
       case Plain(c) => c == '$' ==> !StartsWithNameTag(Print(ts))
       case _ => true) &&
      Usual(ts[1..], Joins(ts[0]))
  }

  lemma {:induction false} NoBackslash(s: string)
    requires ScanQuote(s, '\'').Some?
    ensures (forall u :: u in ScanQuote(s, '\'').value ==> !u.Escaped?) ==> NoEscapedQuote(s)
  {
    var units := ScanQuote(s, '\'').value;
    if s[0] == '\'' {
      if "''" <= s {
        assert units[1..] == ScanQuote(s[2..], '\'').value;
        NoBackslash(s[2..]);
      }
    } else if s[0] == '\\' {
      assert units[0] == Escaped(s[1]);
    } else {
      assert units[1..] == ScanQuote(s[1..], '\'').value;
      NoBackslash(s[1..]);
    }
  }

  lemma UsualIsSafe(ts: seq<Token>, before: Context, joined: bool)
    requires ts != [] && Fits(ts[0], Print(ts[1..])) && Usual(ts, joined) && (InWord(before) ==> joined)
    ensures Print(ts) != "" && First(Print(ts)) == Some(ts[0]) && Safe(Print(ts), before)
  {
    hide Escapes, UnitsText, CommentText, FirstAtEnd, NoEscapedQuote, ScanDollar, ScanBlock, LineBody,
      StartsWithNameTag;
    var s, t := Print(ts), ts[0];
    FirstComplete(t, Print(ts[1..]));
    ScanTagSound(s);
    if s[0] == '\'' { NoBackslash(s[1..]); }
  }

  /** A source that the splitter reads as such tokens is clear. */
  lemma {:induction false} UsualIsClear(ts: seq<Token>, before: Context, joined: bool)
    requires Reading(ts) && Usual(ts, joined) && (InWord(before) ==> joined)
    ensures Clear(Print(ts), before)
  {
    hide Fits, Safe, Text, First, StartsWithNameTag, StartsWithTag;
    if ts != [] {
      var s, t := Print(ts), ts[0];
      UsualIsSafe(ts, before, joined);
      assert s[|Text(t)|..] == FirstRest(s) && s[|Text(t)|..] == Print(ts[1..]);
      UsualIsClear(ts[1..], Next(before, t), Joins(t));
    }
  }

  // ---- escape strings ----

  lemma ClearToken(t: Token, rest: string, before: Context)
    requires Fits(t, rest)
    ensures Clear(Text(t) + rest, before) <==> Safe(Text(t) + rest, before) && Clear(rest, Next(before, t))
  {
    hide Fits, First, Safe, Next, Text;
    FirstComplete(t, rest);
    var s := Text(t) + rest;
    assert s[|Text(t)|..] == rest && s[|Text(t)|..] == FirstRest(s);
  }

  lemma ClearChar(c: char, rest: string, before: Context)
    requires Common(c)
    ensures Clear([c] + rest, before) <==> Clear(rest, Next(before, Plain(c)))
  {
    hide Next, Clear;
    FirstIsPlain([c] + rest);
    var rest' := FirstSound([c] + rest);
    assert Text(Plain(c)) == [c] && ([c] + rest)[1..] == rest && ([c] + rest')[1..] == rest';
    ClearToken(Plain(c), rest, before);
  }

  /** A text in single quotes that holds one quote, escaped. */
  lemma EscapedAlone(before: Context)
    ensures Clear("'\\''", before) <==> Escapes(before)
  {
    var t := Quoted('\'', [Escaped('\'')]);
    assert t.units[1..] == [] && Text(t) == "'\\''" && forall u :: u in t.units ==> u == Escaped('\'');
    var s := Text(t);
    assert s + "" == s && s[1..][0] == '\\' && s[1..][1] == '\'';
    assert !NoEscapedQuote(s[1..]);
    ClearToken(t, "", before);
    assert Clear("", Next(before, t));
    assert Safe(s, before) <==> Escapes(before);
    assert Clear(s, before) <==> Escapes(before);
  }

  lemma PlainAlone(rest: string, before: Context)
    requires rest != "" && rest[0] != '\''
    ensures Clear("'a'" + rest, before) <==> Clear(rest, if Escapes(before) then Continued(false) else Apart)
  {
    hide Clear;
    var t := Quoted('\'', [Ordinary('a')]);
    assert t.units[1..] == [] && Text(t) == "'a'" && forall u :: u in t.units ==> u == Ordinary('a');
    var s := "'a'" + rest;
    assert s[1] == 'a' && s[2] == '\'' && s[3] == rest[0];
    assert s[1..][1..] == "'" + rest && !("''" <= s[1..][1..]);
    assert NoEscapedQuote(s[1..][1..]) && NoEscapedQuote(s[1..]);
    assert Text(t) + rest == s && Safe(s, before);
    ClearToken(t, rest, before);
  }

  /** A quote may be escaped after an `E` by itself, and in a text on a later line that continues such a
      text, with white space or comments between them; not on the same line, and not after a word. */
  lemma EscapeStrings()
    ensures Clear("E'\\''", Apart) && !Clear("aE'\\''", Apart)
    ensures Clear("E'a'" + "\n'\\''", Apart) && !Clear("E'a'" + " '\\''", Apart) && !Clear("'a'" + "\n'\\''", Apart)
  {
    hide Clear;
    var q := "'\\''";
    ClearChar('E', q, Apart);
    ClearChar('E', q, Word);
    ClearChar('a', "E" + q, Apart);
    EscapedAlone(Escaping);
    EscapedAlone(Word);
    EscapedAlone(Apart);
    EscapedAlone(Continued(true));
    EscapedAlone(Continued(false));
    ClearChar('\n', q, Continued(false));
    ClearChar('\n', q, Apart);
    ClearChar(' ', q, Continued(false));
    PlainAlone("\n" + q, Escaping);
    PlainAlone(" " + q, Escaping);
    PlainAlone("\n" + q, Apart);
    ClearChar('E', "'a'" + ("\n" + q), Apart);
    ClearChar('E', "'a'" + (" " + q), Apart);
    assert "E'\\''" == "E" + q && "aE'\\''" == "a" + ("E" + q);
    assert "E'a'" + "\n'\\''" == "E" + ("'a'" + ("\n" + q)) && "E'a'" + " '\\''" == "E" + ("'a'" + (" " + q));
    assert "'a'" + "\n'\\''" == "'a'" + ("\n" + q);
  }

  // ---- sources that are not clear ----

  lemma WholeToken(t: Token)
    requires Fits(t, "") && !t.Semicolon?
    ensures Meaning(Text(t)) == Parsed(Emit(Kept(t)))
  {
    hide Fits, First, Text, Emit, Kept;
    ResumeOutside([], "", Text(t));
    LastToken("", t);
    assert "" + Kept(t) == Kept(t);
  }

  lemma LastToken(part: string, t: Token)
    requires Fits(t, "") && !t.Semicolon?
    ensures Finish([], part, Text(t)) == Parsed(Emit(part + Kept(t)))
  {
    hide Fits, First, Text, Emit, Kept;
    FirstComplete(t, "");
    assert Text(t) + "" == Text(t);
    FinishToken([], part, Text(t), t, "");
    EndRead([], part + Kept(t));
    assert [] + Emit(part + Kept(t)) == Emit(part + Kept(t));
  }

  lemma WholeTokenAfter(t: Token)
    requires Allowed(t, Apart, "") && !t.Semicolon?
    ensures ManualMeaning(Text(t)) == Parsed(Emit(Kept(t)))
  {
    hide Allowed, FirstAfter, Text, Emit, Kept, Next;
    FirstAfterComplete(t, Apart, "");
    assert Text(t) + "" == Text(t) && "" + Kept(t) == Kept(t);
    assert RestAfter(Text(t), Apart) == "";
    MeaningToken([], "", Text(t), Apart);
    EndAfter([], Kept(t), Next(Apart, t));
    assert [] + Emit(Kept(t)) == Emit(Kept(t));
  }

  lemma EndRead(result: seq<string>, part: string)
    ensures Finish(result, part, "") == Parsed(result + Emit(part))
  {}

  lemma EndAfter(result: seq<string>, part: string, before: Context)
    ensures MeaningAfter(result, part, "", before) == Parsed(result + Emit(part))
  {}

  lemma Solid(x: string)
    requires x != "" && !IsSpace(x[0]) && !IsSpace(x[|x| - 1])
    ensures Emit(x) == [x]
  {}

  /** Neither starts anything but an identifier, a number or an operator. */
  predicate Common(c: char) { c != '\'' && c != '"' && c != ';' && c != '-' && c != '/' && c != '$' }

  /** A dollar sign that starts no tag. */
  predicate Lone(s: string) {
    s != "" && s[0] == '$' && (|s| >= 2 ==> s[1] != '$' && !IsTagChar(s[1]))
  }

  lemma FirstIsPlain(s: string)
    requires s != "" && (Common(s[0]) || Lone(s))
    ensures First(s) == Some(Plain(s[0]))
  {
    if Common(s[0]) {
      NoDollarNoTag(s);
    } else {
      assert |s| >= 2 ==> s[1] == s[1..][0];
      assert TagRun(s[1..]) == 0;
    }
  }

  lemma CharRead(result: seq<string>, part: string, c: char, rest: string)
    requires Common(c) || Lone([c] + rest)
    ensures Finish(result, part, [c] + rest) == Finish(result, part + [c], rest)
  {
    hide Finish, First;
    FirstIsPlain([c] + rest);
    FinishToken(result, part, [c] + rest, Plain(c), rest);
  }

  /** The same by the manual, for which a dollar sign in a word and one before a digit start no tag. */
  lemma CharAfter(result: seq<string>, part: string, c: char, rest: string, before: Context)
    requires Common(c) || (c == '$' && (InWord(before) || rest == "" || IsDigit(rest[0]) || rest[0] == ';'))
    ensures MeaningAfter(result, part, [c] + rest, before) ==
      MeaningAfter(result, part + [c], rest, Next(before, Plain(c)))
  {
    hide Next;
    var s := [c] + rest;
    if |s| >= 2 { assert s[1] == s[1..][0]; }
    if Common(c) { NoDollarNoTag(s); }
    assert s[1..] == rest && RestAfter(s, before) == rest;
    MeaningToken(result, part, s, before);
  }

  lemma SemicolonRead(result: seq<string>, part: string, rest: string)
    ensures Finish(result, part, ";" + rest) == Finish(result + Emit(part), "", rest)
  {
    assert (";" + rest)[0] == ';';
    FinishToken(result, part, ";" + rest, Semicolon, rest);
  }

  lemma SemicolonAfter(result: seq<string>, part: string, rest: string, before: Context)
    ensures MeaningAfter(result, part, ";" + rest, before) == MeaningAfter(result + Emit(part), "", rest, Apart)
  {
    var s := ";" + rest;
    NoDollarNoTag(s);
    assert s[1..] == rest && RestAfter(s, before) == rest;
    MeaningToken(result, part, s, before);
  }

  /** `$1$` by the manual: a dollar sign, a number, a dollar sign. */
  lemma NumberAfter(result: seq<string>, rest: string)
    requires rest == "" || rest[0] == ';'
    ensures MeaningAfter(result, "", "$1$" + rest, Apart) == MeaningAfter(result, "$1$", rest, Apart)
  {
    hide MeaningAfter;
    CharAfter(result, "", '$', "1$" + rest, Apart);
    CharAfter(result, "$", '1', "$" + rest, Apart);
    CharAfter(result, "$1", '$', rest, Number);
    assert "$1$" + rest == ['$'] + ("1$" + rest) && "1$" + rest == ['1'] + ("$" + rest) && "$" + rest == ['$'] + rest;
    assert "" + ['$'] == "$" && "$" + ['1'] == "$1" && "$1" + ['$'] == "$1$";
  }

  /** `x$b$` by the manual: one identifier. */
  lemma WordAfter(result: seq<string>, c: char, rest: string)
    requires 'a' <= c <= 'd' && (rest == "" || rest[0] == ';')
    ensures MeaningAfter(result, "", [c] + "$b$" + rest, Apart) == MeaningAfter(result, [c] + "$b$", rest, Word)
  {
    hide MeaningAfter;
    CharAfter(result, "", c, "$b$" + rest, Apart);
    CharAfter(result, [c], '$', "b$" + rest, Word);
    CharAfter(result, [c, '$'], 'b', "$" + rest, Word);
    CharAfter(result, [c, '$', 'b'], '$', rest, Word);
    assert [c] + "$b$" + rest == [c] + ("$b$" + rest) && "$b$" + rest == ['$'] + ("b$" + rest);
    assert "b$" + rest == ['b'] + ("$" + rest) && "$" + rest == ['$'] + rest;
    assert "" + [c] == [c] && [c] + ['$'] == [c, '$'] && [c, '$'] + ['b'] == [c, '$', 'b'];
    assert [c, '$', 'b'] + ['$'] == [c] + "$b$";
  }

  /** A letter between two dollar signs by the splitter, if it is beyond ASCII. */
  lemma ForeignRead(result: seq<string>, c: char, rest: string)
    requires c >= '\U{80}' && (rest == "" || rest[0] == ';')
    ensures Finish(result, "", ['$', c, '$'] + rest) == Finish(result, ['$', c, '$'], rest)
  {
    hide Finish;
    CharRead(result, "", '$', [c, '$'] + rest);
    CharRead(result, "$", c, "$" + rest);
    CharRead(result, ['$', c], '$', rest);
    assert ['$', c, '$'] + rest == ['$'] + ([c, '$'] + rest) && [c, '$'] + rest == [c] + ("$" + rest) &&
      "$" + rest == ['$'] + rest;
    assert "" + ['$'] == "$" && "$" + [c] == ['$', c] && ['$', c] + ['$'] == ['$', c, '$'];
  }

  /** Two texts that are read whole are two statements. */
  lemma HalvesAfter(x: string, y: string, before: Context)
    requires MeaningAfter([], "", x + (";" + y), Apart) == MeaningAfter([], x, ";" + y, before)
    requires MeaningAfter([x], "", y, Apart) == MeaningAfter([x], y, "", before)
    requires Emit(x) == [x] && Emit(y) == [y]
    ensures ManualMeaning(x + ";" + y) == Parsed([x, y])
  {
    hide MeaningAfter, Emit;
    SemicolonAfter([], x, y, before);
    EndAfter([x], y, before);
    assert x + (";" + y) == x + ";" + y && [] + [x] == [x] && [x] + [y] == [x, y];
  }

  lemma HalvesRead(x: string, y: string)
    requires Finish([], "", x + (";" + y)) == Finish([], x, ";" + y) && Finish([x], "", y) == Finish([x], y, "")
    requires Emit(x) == [x] && Emit(y) == [y]
    ensures Meaning(x + ";" + y) == Parsed([x, y])
  {
    hide Finish, Emit;
    ResumeOutside([], "", x + ";" + y);
    SemicolonRead([], x, y);
    EndRead([x], y);
    assert x + (";" + y) == x + ";" + y && [] + [x] == [x] && [x] + [y] == [x, y];
  }

  /** All between two equal tags is a body. */
  lemma Body(tag: string)
    requires |tag| >= 2 && tag[0] == '$' && tag[|tag| - 1] == '$'
    ensures FirstAtEnd(tag, ";") && Emit(tag + ";" + tag) == [tag + ";" + tag] && Emit(tag) == [tag]
  {
    Solid(tag + ";" + tag);
    Solid(tag);
  }

  /** A tag that starts with a digit. */
  lemma DigitTag()
    ensures var tag := "$1$";
      Meaning(tag + ";" + tag) == Parsed([tag + ";" + tag]) && ManualMeaning(tag + ";" + tag) == Parsed([tag, tag])
  {
    hide MeaningAfter, Meaning, ManualMeaning, Emit, FirstAtEnd;
    var tag := "$1$";
    Body(tag);
    WholeToken(Dollar(tag, ";"));
    NumberAfter([], ";" + tag);
    NumberAfter([tag], "");
    assert tag + "" == tag;
    HalvesAfter(tag, tag, Apart);
  }

  /** A tag with a letter beyond ASCII. */
  lemma ForeignTag(c: char)
    requires c >= '\U{80}'
    ensures var tag := ['$', c, '$'];
      Meaning(tag + ";" + tag) == Parsed([tag, tag]) && ManualMeaning(tag + ";" + tag) == Parsed([tag + ";" + tag])
  {
    hide Finish, Meaning, ManualMeaning, Emit, FirstAtEnd;
    var tag := ['$', c, '$'];
    Body(tag);
    WholeTokenAfter(Dollar(tag, ";"));
    ForeignRead([], c, ";" + tag);
    ForeignRead([tag], c, "");
    assert tag + "" == tag;
    HalvesRead(tag, tag);
  }

  lemma NoEarlierTag()
    ensures FirstAtEnd("$b$", ";c")
  {
    assert (";c" + "$b$")[1..][0] == 'c';
  }

  /** A tag directly after an identifier. */
  lemma TagAfterWord()
    ensures var x, y := "a$b$", "c$b$";
      Meaning(x + ";" + y) == Parsed([x + ";" + y]) && ManualMeaning(x + ";" + y) == Parsed([x, y])
  {
    hide Finish, MeaningAfter, ManualMeaning, Emit, FirstAtEnd;
    var x, y, t := "a$b$", "c$b$", Dollar("$b$", ";c");
    Solid(x);
    Solid(y);
    Solid(x + ";" + y);
    WordAfter([], 'a', ";" + y);
    WordAfter([x], 'c', "");
    assert ['a'] + "$b$" == x && ['c'] + "$b$" == y && y + "" == y;
    HalvesAfter(x, y, Word);
    ResumeOutside([], "", x + ";" + y);
    CharRead([], "", 'a', Text(t));
    NoEarlierTag();
    LastToken("a", t);
    assert x + ";" + y == ['a'] + Text(t) && "" + ['a'] == "a" && "a" + Kept(t) == x + ";" + y;
  }

  /** A backslash before a quote. */
  lemma BackslashQuote()
    ensures Meaning("'\\';'") == Parsed(["'\\';'"]) && ManualMeaning("'\\';'") == Unterminated
  {
    hide MeaningAfter, Meaning, Emit;
    var t := Quoted('\'', [Escaped('\''), Ordinary(';')]);
    EscapedText(t);
    WholeToken(t);
    Solid(Text(t));
    LeftOpen();
  }

  lemma EscapedText(t: Token)
    requires t == Quoted('\'', [Escaped('\''), Ordinary(';')])
    ensures Fits(t, "") && Text(t) == "'\\';'"
  {
    assert t.units[1..] == [Ordinary(';')] && t.units[1..][1..] == [];
    assert forall u :: u in t.units ==> u == Escaped('\'') || u == Ordinary(';');
  }

  lemma TokenAfter(result: seq<string>, part: string, s: string, before: Context, t: Token, rest: string)
    requires s != "" && FirstAfter(s, before) == Some(t) && s == Text(t) + rest && !t.Semicolon?
    ensures MeaningAfter(result, part, s, before) == MeaningAfter(result, part + Kept(t), rest, Next(before, t))
  {
    hide FirstAfter, Text, Kept, Next, MeaningAfter;
    assert s[|Text(t)|..] == rest && s[|Text(t)|..] == RestAfter(s, before);
    MeaningToken(result, part, s, before);
  }

  lemma LeftOpen()
    ensures ManualMeaning("'\\';'") == Unterminated
  {
    hide MeaningAfter;
    var s, t := "'\\';'", Quoted('\'', [Ordinary('\\')]);
    assert ";'"[0] == ';' && forall u :: u in t.units ==> u == Ordinary('\\');
    FirstAfterComplete(t, Apart, ";'");
    assert s == Text(t) + ";'" && ";'" == ";" + "'";
    TokenAfter([], "", s, Apart, t, ";'");
    SemicolonAfter([], "" + Kept(t), "'", Apart);
    OpenAfter([] + Emit("" + Kept(t)));
  }

  lemma OpenAfter(result: seq<string>)
    ensures MeaningAfter(result, "", "'", Apart) == Unterminated
  {
    assert ScanPlain("'"[1..]) == None;
  }
}
