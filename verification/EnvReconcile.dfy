/** `reconcile` of tools/reconcile_local_env.py: template settings that are missing from a local
    environment file are appended to it. */
module EnvReconcile {
  import opened EnvFile
  import opened Texts
  import opened Wrappers

  const SECRET: string := "WEBUI_STORAGE_SECRET"
  const HEADER: string := "# Missing settings" + (" added from " + ".env.example.")

  /** What `secrets.token_urlsafe` may return. */
  predicate UrlSafe(token: string) { forall k :: 0 <= k < |token| ==> WordChar(token[k]) || token[k] == '-' }

  // ---- what a template offers ----

  /** The setting that a template line contributes: a fresh secret, a literal, or nothing. */
  function Offer(line: string, token: string): Option<Setting> {
    match Assignment(line)
    case None => None
    case Some(s) =>
      if s.key == SECRET then Some(Setting(SECRET, token)) else if Placeholder(s.value) then None else Some(s)
  }

  /** The value of the first line that offers one for the key. */
  function FirstOffer(lines: seq<string>, key: string, token: string): Option<string> {
    if lines == [] then None
    else
      var n := |lines| - 1;
      var before := FirstOffer(lines[..n], key, token);
      if before.Some? then before
      else match Offer(lines[n], token) case Some(s) => if s.key == key then Some(s.value) else None case None => None
  }

  /** The value of the first line that assigns the key at all. */
  function FirstAssigned(lines: seq<string>, key: string): Option<string> {
    if lines == [] then None
    else
      var n := |lines| - 1;
      var before := FirstAssigned(lines[..n], key);
      if before.Some? then before
      else match Assignment(lines[n]) case Some(s) => if s.key == key then Some(s.value) else None case None => None
  }

  /** The line gives this value to the key: a literal that is no placeholder, or for the secret a fresh one. */
  ghost predicate Gives(line: string, key: string, token: string, v: string) {
    if key == SECRET then v == token && exists w :: Assignment(line) == Some(Setting(key, w))
    else Assignment(line) == Some(Setting(key, v)) && !Placeholder(v)
  }

  lemma OfferGives(line: string, key: string, token: string, v: string)
    ensures Gives(line, key, token, v) <==> Offer(line, token) == Some(Setting(key, v))
  {
    hide Assignment, Placeholder;
    if Assignment(line).Some? {
      var s := Assignment(line).value;
      assert s == Setting(s.key, s.value);
    }
  }

  /** The value offered is the one of line `i`, the first one that gives any. */
  lemma {:induction false} FirstOfferIs(lines: seq<string>, key: string, token: string) returns (i: nat)
    ensures i <= |lines| && forall j, w :: 0 <= j < i ==> !Gives(lines[j], key, token, w)
    ensures var v := FirstOffer(lines, key, token);
      if i == |lines| then v == None else v.Some? && Gives(lines[i], key, token, v.value)
  {
    hide Gives, Offer;
    if lines == [] {
      i := 0;
    } else {
      var n := |lines| - 1;
      i := FirstOfferIs(lines[..n], key, token);
      forall w ensures Gives(lines[n], key, token, w) <==> Offer(lines[n], token) == Some(Setting(key, w)) {
        OfferGives(lines[n], key, token, w);
      }
      forall j, w | 0 <= j < i ensures !Gives(lines[j], key, token, w) { assert lines[j] == lines[..n][j]; }
      var v := FirstOffer(lines, key, token);
      if i == n && v == None { i := n + 1; }
    }
  }

  /** Of all lines that assign the key, the first one. */
  lemma {:induction false} FirstAssignedIs(lines: seq<string>, key: string) returns (i: nat)
    ensures i <= |lines| && forall j, w :: 0 <= j < i ==> Assignment(lines[j]) != Some(Setting(key, w))
    ensures var v := FirstAssigned(lines, key);
      if i == |lines| then v == None else v.Some? && Assignment(lines[i]) == Some(Setting(key, v.value))
  {
    hide Assignment;
    if lines == [] {
      i := 0;
    } else {
      var n := |lines| - 1;
      i := FirstAssignedIs(lines[..n], key);
      forall j, w | 0 <= j < i
        ensures Assignment(lines[j]) != Some(Setting(key, w))
      {
        assert lines[j] == lines[..n][j];
      }
      if i == n && FirstAssigned(lines, key) == None { i := n + 1; }
    }
  }

  /** The value that counts in a file is the one of line `i`, the last one that assigns the key. */
  lemma {:induction false} EffectiveIs(lines: seq<string>, key: string) returns (i: int)
    ensures -1 <= i < |lines| && forall j, w :: i < j < |lines| ==> Assignment(lines[j]) != Some(Setting(key, w))
    ensures var v := Effective(Settings(lines), key);
      if i == -1 then v == None else v.Some? && Assignment(lines[i]) == Some(Setting(key, v.value))
  {
    hide Assignment, Settings, Effective;
    if lines == [] {
      i := -1;
      NoneEffective(key);
    } else {
      var n := |lines| - 1;
      assert lines == lines[..n] + [lines[n]];
      SettingsAppend(lines[..n], [lines[n]]);
      SettingsOfOne(lines[n]);
      i := EffectiveIs(lines[..n], key);
      if Assignment(lines[n]).Some? {
        EffectiveAppend(Settings(lines[..n]), [Assignment(lines[n]).value], key);
        EffectiveOfOne(Assignment(lines[n]).value, key);
        if Assignment(lines[n]).value.key == key { i := n; }
      } else {
        assert Settings(lines[..n]) + [] == Settings(lines[..n]);
      }
    }
  }

  // ---- one pass over the template ----

  datatype State = State(present: set<string>, additions: seq<string>, added: seq<string>, skipped: seq<string>,
      comments: seq<string>)

  function Blank(line: string): bool { Spaces(line, 0) == |line| }

  function Commented(line: string): bool { var i := Spaces(line, 0); i < |line| && line[i] == '#' }

  function Step(st: State, line: string, token: string): State {
    match Assignment(line)
    case None =>
      if Commented(line) then st.(comments := st.comments + [line]) else if Blank(line) then st.(comments := []) else st
    case Some(s) =>
      if s.key in st.present then st.(comments := [])
      else if s.key != SECRET && Placeholder(s.value) then st.(skipped := st.skipped + [s.key], comments := [])
      else
        var text := if s.key == SECRET then s.key + "=" + token else line;
        State(st.present + {s.key}, st.additions + st.comments + [text], st.added + [s.key], st.skipped, [])
  }

  function Walk(lines: seq<string>, present: set<string>, token: string): State {
    if lines == [] then State(present, [], [], [], [])
    else Step(Walk(lines[..|lines| - 1], present, token), lines[|lines| - 1], token)
  }

  lemma WalkNext(lines: seq<string>, line: string, present: set<string>, token: string)
    ensures Walk(lines + [line], present, token) == Step(Walk(lines, present, token), line, token)
  {
    assert (lines + [line])[..|lines|] == lines;
  }

  ghost predicate Remark(line: string) { exists a, r :: Blanks(a) && line == a + "#" + r }

  lemma RemarkIsNothing(line: string)
    requires Remark(line)
    ensures Assignment(line) == None && Commented(line)
  {
    var a, r :| Blanks(a) && line == a + "#" + r;
    assert line[|a|] == '#' && forall k :: 0 <= k < |a| ==> line[k] == a[k];
    SpacesAre(line, 0, |a|);
    assert |line| >= |a| + 6 ==> line[|a|..|a| + 6][0] == '#';
  }

  /** Comment lines, with blanks before the mark or not, are collected one after the other. */
  lemma {:induction false} CommentsCollect(before: seq<string>, comments: seq<string>, present: set<string>,
      token: string)
    requires forall c :: c in comments ==> Remark(c)
    ensures var st := Walk(before, present, token);
      Walk(before + comments, present, token) == st.(comments := st.comments + comments)
  {
    hide Assignment, Commented, Remark, Walk;
    if comments == [] {
      var st := Walk(before, present, token);
      assert before + comments == before && st.comments + [] == st.comments;
    } else {
      var n := |comments| - 1;
      CommentsCollect(before, comments[..n], present, token);
      assert comments[n] in comments;
      RemarkIsNothing(comments[n]);
      assert before + comments == (before + comments[..n]) + [comments[n]];
      WalkNext(before + comments[..n], comments[n], present, token);
    }
  }

  /** They go along with the next assignment, if that is added. */
  lemma CommentsGoAlong(before: seq<string>, comments: seq<string>, line: string, present: set<string>, token: string)
    requires forall c :: c in comments ==> Remark(c)
    requires Walk(before, present, token).comments == [] && Assignment(line).Some?
    requires var s := Assignment(line).value;
      s.key !in Walk(before, present, token).present && (s.key == SECRET || !Placeholder(s.value))
    ensures Walk(before + comments + [line], present, token).additions ==
      Walk(before, present, token).additions + comments +
      [if Assignment(line).value.key == SECRET then SECRET + "=" + token else line]
  {
    hide Assignment, Placeholder, Walk;
    CommentsCollect(before, comments, present, token);
    WalkNext(before + comments, line, present, token);
    assert [] + comments == comments;
  }

  /** Any other line that assigns nothing is passed over. */
  lemma OtherLine(before: seq<string>, line: string, present: set<string>, token: string)
    requires Assignment(line) == None && !Blanks(line) && !Remark(line)
    ensures Walk(before + [line], present, token) == Walk(before, present, token)
  {
    hide Walk, Assignment;
    WalkNext(before, line, present, token);
    CommentedIsRemark(line);
  }

  lemma CommentedIsRemark(line: string)
    ensures Commented(line) ==> Remark(line)
  {
    var i := Spaces(line, 0);
    if i < |line| && line[i] == '#' {
      assert Blanks(line[..i]) && line == line[..i] + "#" + line[i + 1..];
    }
  }

  /** An assignment and an empty line end a run of comments. */
  lemma CommentsEnd(before: seq<string>, line: string, present: set<string>, token: string)
    requires Assignment(line).Some? || Blanks(line)
    ensures Walk(before + [line], present, token).comments == []
  {
    hide Walk, Placeholder;
    WalkNext(before, line, present, token);
    if Blanks(line) { SpacesAre(line, 0, |line|); }
  }

  /** What holds of a pass over `lines` that started with `present`. */
  ghost predicate Meant(lines: seq<string>, present: set<string>, token: string, st: State) {
    (forall k :: k in st.present <==> k in present || FirstOffer(lines, k, token).Some?) &&
    (forall k :: k in st.added <==> k !in present && FirstOffer(lines, k, token).Some?) &&
    (forall k :: Effective(Settings(st.additions), k) == if k in present then None else FirstOffer(lines, k, token)) &&
    (forall k :: k in st.skipped <==> Unusable(lines, present, k)) &&
    Settings(st.comments) == [] && (st.added == [] ==> st.additions == [])
  }

  /** The key is missing, and the first line for it holds a placeholder. */
  ghost predicate Unusable(lines: seq<string>, present: set<string>, k: string) {
    k !in present && k != SECRET && FirstAssigned(lines, k).Some? && Placeholder(FirstAssigned(lines, k).value)
  }

  lemma NoneEffective(k: string)
    ensures Effective([], k) == None && Settings([]) == []
  {}

  lemma SettingsOfOne(line: string)
    ensures Settings([line]) == if Assignment(line).Some? then [Assignment(line).value] else []
  {
    assert [line][..0] == [];
  }

  lemma EffectiveOfOne(s: Setting, k: string)
    ensures Effective([s], k) == (if s.key == k then Some(s.value) else None) && Keys([s]) == {s.key}
  {
    assert [s][..0] == [] && [s][0] == s;
  }

  /** An offer is made for every key that is assigned, but for those with placeholders only. */
  lemma {:induction false} OfferedIsAssigned(lines: seq<string>, k: string, token: string)
    ensures FirstOffer(lines, k, token).Some? ==> FirstAssigned(lines, k).Some?
    ensures FirstAssigned(lines, k).Some? && !FirstOffer(lines, k, token).Some? ==>
      k != SECRET && Placeholder(FirstAssigned(lines, k).value)
  {
    if lines != [] { OfferedIsAssigned(lines[..|lines| - 1], k, token); }
  }

  lemma StepSkips(lines: seq<string>, line: string, present: set<string>, token: string, st: State, k: string)
    requires Meant(lines, present, token, st)
    ensures k in Step(st, line, token).skipped <==> Unusable(lines + [line], present, k)
  {
    hide Placeholder, Assignment, Settings, Effective;
    assert (lines + [line])[..|lines|] == lines;
    OfferedIsAssigned(lines, k, token);
    assert k in st.present <==> k in present || FirstOffer(lines, k, token).Some?;
  }

  /** The new line with the comments before it. */
  lemma NewSettings(additions: seq<string>, comments: seq<string>, text: string, s: Setting, k: string)
    requires Settings(comments) == [] && Assignment(text) == Some(s)
    ensures Effective(Settings(additions + comments + [text]), k) ==
      if s.key == k then Some(s.value) else Effective(Settings(additions), k)
  {
    hide Assignment, Effective, Settings;
    SettingsAppend(additions + comments, [text]);
    SettingsAppend(additions, comments);
    SettingsOfOne(text);
    EffectiveAppend(Settings(additions), [s], k);
    EffectiveOfOne(s, k);
    assert Settings(additions) + [] == Settings(additions);
  }

  /** What a line adds is what it offers. */
  lemma StepText(line: string, token: string)
    ensures Offer(line, token).Some? ==>
      var key := Assignment(line).value.key;
      Assignment(if key == SECRET then key + "=" + token else line) == Offer(line, token) &&
        Offer(line, token).value.key == key
  {
    hide Assignment, Placeholder;
    SecretIsKey();
    AssignmentOf(SECRET, token);
  }

  lemma SecretIsKey()
    ensures IsKey(SECRET) && SECRET[0] != 'e'
  {}

  lemma StepMeant(lines: seq<string>, line: string, present: set<string>, token: string, st: State)
    requires Meant(lines, present, token, st)
    ensures Meant(lines + [line], present, token, Step(st, line, token))
  {
    hide Assignment, Placeholder, Settings, Effective, Unusable;
    var st', all := Step(st, line, token), lines + [line];
    assert all[..|lines|] == lines;
    forall k ensures k in st'.skipped <==> Unusable(all, present, k) { StepSkips(lines, line, present, token, st, k); }
    StepText(line, token);
    StepSettings(lines, line, present, token, st);
    StepComments(st, line, token);
    forall k ensures (k in st'.present <==> k in present || FirstOffer(all, k, token).Some?) &&
                     (k in st'.added <==> k !in present && FirstOffer(all, k, token).Some?) {
      assert k in st.present <==> k in present || FirstOffer(lines, k, token).Some?;
    }
  }

  lemma StepSettings(lines: seq<string>, line: string, present: set<string>, token: string, st: State)
    requires Meant(lines, present, token, st)
    ensures var st' := Step(st, line, token);
      forall k :: Effective(Settings(st'.additions), k) ==
        if k in present then None else FirstOffer(lines + [line], k, token)
  {
    hide Assignment, Placeholder, Settings, Effective, Unusable;
    var st', all := Step(st, line, token), lines + [line];
    assert all[..|lines|] == lines;
    StepText(line, token);
    forall k ensures Effective(Settings(st'.additions), k) == if k in present then None else FirstOffer(all, k, token) {
      assert k in st.present <==> k in present || FirstOffer(lines, k, token).Some?;
      if st'.added != st.added {
        var s := Offer(line, token).value;
        NewSettings(st.additions, st.comments, st'.additions[|st'.additions| - 1], s, k);
        assert st'.additions == st.additions + st.comments + [st'.additions[|st'.additions| - 1]];
      }
    }
  }

  lemma StepComments(st: State, line: string, token: string)
    requires Settings(st.comments) == [] && (st.added == [] ==> st.additions == [])
    ensures var st' := Step(st, line, token);
      Settings(st'.comments) == [] && (st'.added == [] ==> st'.additions == [])
  {
    hide Assignment, Placeholder, Effective, Settings, Commented, Blank;
    SettingsAppend(st.comments, [line]);
    SettingsOfOne(line);
    NoneEffective("");
  }

  lemma {:induction false} WalkMeant(lines: seq<string>, present: set<string>, token: string)
    ensures Meant(lines, present, token, Walk(lines, present, token))
  {
    hide Meant, Step;
    if lines == [] {
      NothingMeant(present, token);
    } else {
      var n := |lines| - 1;
      WalkMeant(lines[..n], present, token);
      StepMeant(lines[..n], lines[n], present, token, Walk(lines[..n], present, token));
      assert lines[..n] + [lines[n]] == lines;
    }
  }

  lemma NothingMeant(present: set<string>, token: string)
    ensures Meant([], present, token, State(present, [], [], [], []))
  {}

  /** Nothing is appended that would break into more lines. */
  lemma {:induction false} WalkOneLine(lines: seq<string>, present: set<string>, token: string)
    requires UrlSafe(token) && forall l :: l in lines ==> OneLine(l)
    ensures var st := Walk(lines, present, token);
      (forall l :: l in st.additions ==> OneLine(l)) && forall l :: l in st.comments ==> OneLine(l)
  {
    if lines != [] {
      hide Assignment, Placeholder, Commented, Blank, OneLine;
      WalkOneLine(lines[..|lines| - 1], present, token);
      SecretIsOneLine(token);
    }
  }

  lemma SecretIsOneLine(token: string)
    requires UrlSafe(token)
    ensures OneLine(SECRET + "=" + token)
  {
    var s := SECRET + "=" + token;
    forall k | 0 <= k < |s| ensures !Break(s[k]) {
      if k < |SECRET| {
        assert s[k] == SECRET[k] && SECRET[k] in SECRET;
      } else if k > |SECRET| {
        assert s[k] == token[k - |SECRET| - 1];
      }
    }
  }

  // ---- a second pass ----

  /** A key for which the template first has a placeholder and later a usable value. */
  ghost predicate Conflicted(lines: seq<string>, present: set<string>, k: string) {
    Unusable(lines, present, k) && FirstOffer(lines, k, "").Some?
  }

  lemma {:induction false} OffersAgree(lines: seq<string>, k: string, token: string, token': string)
    ensures FirstOffer(lines, k, token).Some? <==> FirstOffer(lines, k, token').Some?
  {
    if lines != [] { OffersAgree(lines[..|lines| - 1], k, token, token'); }
  }

  function Without(keys: seq<string>, out: set<string>): seq<string> {
    if keys == [] then []
    else
      var n := |keys| - 1;
      Without(keys[..n], out) + if keys[n] in out then [] else [keys[n]]
  }

  lemma {:induction false} WithoutIsShorter(keys: seq<string>, out: set<string>)
    ensures |Without(keys, out)| <= |keys|
    ensures Without(keys, out) == keys <==> forall k :: k in keys ==> k !in out
  {
    if keys != [] {
      var n := |keys| - 1;
      WithoutIsShorter(keys[..n], out);
      assert keys == keys[..n] + [keys[n]];
    }
  }

  /** A pass that starts with everything that can be offered adds nothing, and skips what the first
      pass skipped and did not add after all. */
  lemma {:induction false} SecondWalk(lines: seq<string>, present: set<string>, token: string, all: set<string>,
      token': string)
    requires present <= all
    requires forall k :: FirstOffer(lines, k, token).Some? ==> k in all
    ensures var first, second := Walk(lines, present, token), Walk(lines, all, token');
      second.added == [] && second.additions == [] && second.present == all &&
        second.skipped == Without(first.skipped, all)
  {
    if lines != [] {
      hide Assignment, Placeholder, Commented, Blank;
      var n := |lines| - 1;
      SecondWalk(lines[..n], present, token, all, token');
      WalkMeant(lines[..n], present, token);
      forall k | FirstOffer(lines[..n], k, token).Some? ensures k in all { assert FirstOffer(lines, k, token).Some?; }
      assert Offer(lines[n], token).Some? ==> FirstOffer(lines, Offer(lines[n], token).value.key, token).Some?;
      SecondStep(Walk(lines[..n], present, token), Walk(lines[..n], all, token'), lines[n], token, token', all);
    }
  }

  lemma SecondStep(first: State, second: State, line: string, token: string, token': string, all: set<string>)
    requires first.present <= all && second.present == all
    requires Offer(line, token).Some? ==> Offer(line, token).value.key in all
    requires second.added == [] && second.additions == [] && second.skipped == Without(first.skipped, all)
    ensures var first', second' := Step(first, line, token), Step(second, line, token');
      second'.added == [] && second'.additions == [] && second'.present == all &&
        second'.skipped == Without(first'.skipped, all)
  {
    hide Assignment, Placeholder, Commented, Blank, Without;
    if Assignment(line).Some? { WithoutNext(first.skipped, Assignment(line).value.key, all); }
  }

  lemma WithoutNext(keys: seq<string>, key: string, out: set<string>)
    ensures Without(keys + [key], out) == Without(keys, out) + if key in out then [] else [key]
  {
    assert (keys + [key])[..|keys|] == keys;
  }

  /** Reconciling again adds nothing, whatever secret is drawn, and skips the same keys exactly if no
      missing key has a placeholder first and a usable value later in the template. */
  lemma SecondRun(lines: seq<string>, present: set<string>, token: string, all: set<string>, token': string)
    requires forall k :: k in all <==> k in present || FirstOffer(lines, k, token).Some?
    ensures var first, second := Walk(lines, present, token), Walk(lines, all, token');
      second.added == [] && second.additions == [] && second.skipped == Without(first.skipped, all) &&
      (second.skipped == first.skipped <==> forall k :: !Conflicted(lines, present, k))
  {
    hide Unusable, Walk, Meant, FirstOffer;
    SecondWalk(lines, present, token, all, token');
    SkippedConflicts(lines, present, token, all);
    WithoutIsShorter(Walk(lines, present, token).skipped, all);
  }

  lemma SkippedConflicts(lines: seq<string>, present: set<string>, token: string, all: set<string>)
    requires forall k :: k in all <==> k in present || FirstOffer(lines, k, token).Some?
    ensures forall k :: Conflicted(lines, present, k) <==> k in Walk(lines, present, token).skipped && k in all
  {
    hide Walk, FirstOffer, FirstAssigned, Placeholder, Settings, Effective;
    WalkMeant(lines, present, token);
    forall k ensures Conflicted(lines, present, k) <==> k in Walk(lines, present, token).skipped && k in all {
      OffersAgree(lines, k, token, "");
    }
  }

  lemma ExampleLines()
    ensures Assignment("A=<a>") == Some(Setting("A", "<a>")) && Assignment("A=1") == Some(Setting("A", "1"))
  {
    hide Assignment;
    AssignmentOf("A", "<a>");
    AssignmentOf("A", "1");
    assert "A" + "=" + "<a>" == "A=<a>" && "A" + "=" + "1" == "A=1";
  }

  lemma ExampleValues()
    ensures Placeholder("<a>") && !Placeholder("1")
  {
    assert Closing("<a>", 1) == 2;
    assert !PlaceholderAt("1") && "1"[1..] == "";
  }

  /** Such a template: a placeholder for a key, and below it a value. The key is added and skipped at
      once, and the second run no longer skips it. */
  lemma PlaceholderThenValue()
    ensures var lines := ["A=<a>", "A=1"];
      Walk(lines, {}, "").added == ["A"] && Walk(lines, {}, "").skipped == ["A"] && Walk(lines, {"A"}, "").skipped == []
  {
    hide Assignment, Placeholder;
    ExampleLines();
    ExampleValues();
    var lines := ["A=<a>", "A=1"];
    assert lines[..1] == ["A=<a>"] && ["A=<a>"][..0] == [];
    assert Walk(["A=<a>"], {}, "") == State({}, [], [], ["A"], []);
    assert Walk(["A=<a>"], {"A"}, "") == State({"A"}, [], [], [], []);
  }

  // ---- the file ----

  /** The loop over the template. */
  method Pass(lines: seq<string>, keys: set<string>, token: string)
    returns (additions: seq<string>, added: seq<string>, skipped: seq<string>)
    ensures var st := Walk(lines, keys, token);
      additions == st.additions && added == st.added && skipped == st.skipped
  {
    hide Assignment, Placeholder, Commented, Blank;
    var present, comments := keys, [];
    additions, added, skipped := [], [], [];
    var i := 0;
    while i < |lines|
      invariant i <= |lines| && Walk(lines[..i], keys, token) == State(present, additions, added, skipped, comments)
    {
      var line := lines[i];
      assert lines[..i + 1][..i] == lines[..i] && lines[..i + 1][i] == line;
      match Assignment(line) {
        case None =>
          if Commented(line) { comments := comments + [line]; } else if Blank(line) { comments := []; }
        case Some(s) =>
          if s.key !in present {
            if s.key != SECRET && Placeholder(s.value) {
              skipped := skipped + [s.key];
            } else {
              if s.key == SECRET { line := s.key + "=" + token; }
              additions := additions + comments + [line];
              added := added + [s.key];
              present := present + {s.key};
            }
          }
          comments := [];
      }
      i := i + 1;
    }
    assert lines[..i] == lines;
  }

  function Appended(original: string, additions: seq<string>): string {
    if additions == [] then original
    else original + (if Ended(original) then "" else "\n") + "\n" + HEADER + "\n" + Joined(additions)
  }

  function SettingsIn(text: string): seq<Setting> { Settings(Lines(text)) }

  lemma NoSettingOf(s: string)
    requires s == "" || s[0] == '#'
    ensures Assignment(s) == None
  {
    if s != "" {
      assert Spaces(s, 0) == 0;
      assert |s| > 6 ==> s[0..6][0] == '#';
    }
  }

  lemma NoSettings()
    ensures Assignment("") == None && Assignment(HEADER) == None && OneLine(HEADER)
  {
    hide Assignment, OneLine;
    NoSettingOf("");
    assert HEADER[0] == '#';
    NoSettingOf(HEADER);
    HeaderIsOneLine();
  }

  lemma HeaderIsOneLine()
    ensures OneLine(HEADER)
  {
    assert OneLine("# Missing settings");
    assert OneLine(" added from ");
    assert OneLine(".env.example.");
    OneLineJoined(" added from ", ".env.example.");
    OneLineJoined("# Missing settings", " added from " + ".env.example.");
  }

  lemma OneLineJoined(a: string, b: string)
    requires OneLine(a) && OneLine(b)
    ensures OneLine(a + b)
  {}

  lemma EndedSettings(original: string)
    ensures var ended := original + if Ended(original) then "" else "\n";
      Ended(ended) && SettingsIn(ended) == SettingsIn(original)
  {
    if Ended(original) {
      assert original + "" == original;
    } else {
      LinesEnded(original);
      NoSettings();
      SettingsAppend(Lines(original), [""]);
      SettingsOfOne("");
    }
  }

  lemma TailSettings(additions: seq<string>)
    requires forall l :: l in additions ==> OneLine(l)
    ensures SettingsIn("\n" + HEADER + "\n" + Joined(additions)) == Settings(additions)
  {
    hide Joined, Lines, Settings, Assignment, OneLine;
    NoSettings();
    LinesOfJoined(additions);
    LinesOfLine(HEADER, Joined(additions));
    NothingIsOneLine();
    LinesOfLine("", HEADER + "\n" + Joined(additions));
    assert "" + "\n" + (HEADER + "\n" + Joined(additions)) == "\n" + HEADER + "\n" + Joined(additions);
    SettingsAppend([""], [HEADER] + additions);
    SettingsAppend([HEADER], additions);
    SettingsOfOne("");
    SettingsOfOne(HEADER);
  }

  lemma NothingIsOneLine()
    ensures OneLine("")
  {}

  /** What is appended adds its settings to those of the file. */
  lemma AppendedSettings(original: string, additions: seq<string>)
    requires forall l :: l in additions ==> OneLine(l)
    ensures SettingsIn(Appended(original, additions)) == SettingsIn(original) + Settings(additions)
  {
    hide Joined, Lines, Settings, Ended, OneLine;
    if additions == [] {
      NoneEffective("");
      assert SettingsIn(original) + [] == SettingsIn(original);
    } else {
      var ended := original + if Ended(original) then "" else "\n";
      var tail := "\n" + HEADER + "\n" + Joined(additions);
      assert Appended(original, additions) == ended + tail;
      EndedSettings(original);
      LinesAppend(ended, tail);
      TailSettings(additions);
      SettingsAppend(Lines(ended), Lines(tail));
    }
  }

  lemma {:induction false} EffectiveIffKey(settings: seq<Setting>, k: string)
    ensures Effective(settings, k).Some? <==> k in Keys(settings)
  {
    if settings == [] {
      NoneEffective(k);
    } else {
      var n := |settings| - 1;
      EffectiveIffKey(settings[..n], k);
      EffectiveAppend(settings[..n], [settings[n]], k);
      EffectiveOfOne(settings[n], k);
      assert settings == settings[..n] + [settings[n]];
    }
  }

  /** What each key is set to after the file was reconciled with the template. */
  ghost predicate Reconciled(template: string, original: string, token: string, result: string) {
    forall k :: Effective(SettingsIn(result), k) ==
      if k in Keys(SettingsIn(original)) then Effective(SettingsIn(original), k)
      else FirstOffer(Lines(template), k, token)
  }

  /** `reconcile`. The file keeps its text, every key it has keeps its value, and every other key gets
      the first usable value of the template. */
  method Reconcile(template: string, original: string, token: string)
    returns (result: string, added: seq<string>, skipped: seq<string>)
    requires UrlSafe(token)
    ensures original <= result && Reconciled(template, original, token, result)
    ensures forall k :: k in added <==> k !in Keys(SettingsIn(original)) && FirstOffer(Lines(template), k, token).Some?
    ensures forall k :: k in skipped <==> Unusable(Lines(template), Keys(SettingsIn(original)), k)
    ensures added == Walk(Lines(template), Keys(SettingsIn(original)), token).added
    ensures skipped == Walk(Lines(template), Keys(SettingsIn(original)), token).skipped
    ensures added == [] ==> result == original
    ensures var more := Walk(Lines(template), Keys(SettingsIn(original)), token).additions;
      result == if more == [] then original
                else original + (if original == "" || original[|original| - 1] == '\n' then "" else "\n") +
                     "\n" + HEADER + "\n" + Joined(more)
  {
    hide Lines, Walk, Settings, SettingsIn, OneLine, Unusable, Joined;
    var lines, keys := Lines(template), Keys(SettingsIn(original));
    var additions;
    additions, added, skipped := Pass(lines, keys, token);
    WalkMeant(lines, keys, token);
    LinesAreLines(template);
    WalkOneLine(lines, keys, token);
    AppendedSettings(original, additions);
    result := Appended(original, additions);
    forall k
      ensures Effective(SettingsIn(result), k) ==
        if k in keys then Effective(SettingsIn(original), k) else FirstOffer(lines, k, token)
    {
      EffectiveAppend(SettingsIn(original), Settings(additions), k);
      EffectiveIffKey(Settings(additions), k);
      EffectiveIffKey(SettingsIn(original), k);
    }
  }

  /** After a run the file has the keys it had and those the template offers, and a second run on it
      appends nothing, whatever secret it would draw. It skips the same keys exactly if no missing key
      has a placeholder first and a usable value later in the template. */
  lemma RunTwice(template: string, original: string, token: string, result: string, token': string)
    requires Reconciled(template, original, token, result)
    ensures var lines := Lines(template);
      var before, after := Keys(SettingsIn(original)), Keys(SettingsIn(result));
      var first, second := Walk(lines, before, token), Walk(lines, after, token');
      (forall k :: k in after <==> k in before || FirstOffer(lines, k, token).Some?) &&
      second.added == [] && second.additions == [] &&
      (second.skipped == first.skipped <==> forall k :: !Conflicted(lines, before, k))
  {
    hide Lines, Walk, SettingsIn, Keys, Conflicted, FirstOffer, Effective;
    var before, after := Keys(SettingsIn(original)), Keys(SettingsIn(result));
    forall k ensures k in after <==> k in before || FirstOffer(Lines(template), k, token).Some? {
      EffectiveIffKey(SettingsIn(original), k);
      EffectiveIffKey(SettingsIn(result), k);
    }
    SecondRun(Lines(template), before, token, after, token');
  }
}
