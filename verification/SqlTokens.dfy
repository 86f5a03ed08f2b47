/** The token-level meaning of a PostgreSQL source: what its quoted texts, dollar-quoted
    bodies, comments and statement separators are, and which statements it contains.
    Nothing here scans characters; a source is described by the tokens that print to it. */
module SqlTokens {
  import opened Texts

  /** One unit of the inside of a quoted text. */
  datatype QuoteUnit = Ordinary(c: char) | Doubled | Escaped(c: char)

  /** One unit of the inside of a block comment. */
  datatype CommentUnit = Opener | Closer | Other(c: char)

  datatype Token =
    | Quoted(mark: char, units: seq<QuoteUnit>)
    | Dollar(tag: string, body: string)
    | Line(comment: string)
    | Block(inside: seq<CommentUnit>)
    | Semicolon
    | Plain(c: char)

  // ---- printing ----

  function UnitText(u: QuoteUnit, mark: char): string {
    match u
    case Ordinary(c) => [c]
    case Doubled => [mark, mark]
    case Escaped(c) => ['\\', c]
  }

  function UnitsText(units: seq<QuoteUnit>, mark: char): string {
    if units == [] then "" else UnitText(units[0], mark) + UnitsText(units[1..], mark)
  }

  function MarkerText(u: CommentUnit): string {
    match u
    case Opener => "/*"
    case Closer => "*/"
    case Other(c) => [c]
  }

  function CommentText(units: seq<CommentUnit>): string {
    if units == [] then "" else MarkerText(units[0]) + CommentText(units[1..])
  }

  function Text(t: Token): string {
    match t
    case Quoted(q, units) => [q] + UnitsText(units, q) + [q]
    case Dollar(tag, body) => tag + body + tag
    case Line(comment) => "--" + comment
    case Block(inside) => "/*" + CommentText(inside)
    case Semicolon => ";"
    case Plain(c) => [c]
  }

  function Print(ts: seq<Token>): string {
    if ts == [] then "" else Text(ts[0]) + Print(ts[1..])
  }

  // ---- lexical rules ----

  predicate IsTagChar(c: char) {
    'a' <= c <= 'z' || 'A' <= c <= 'Z' || '0' <= c <= '9' || c == '_'
  }

  /** `$name$`, with a possibly empty name. */
  predicate IsTag(t: string) {
    |t| >= 2 && t[0] == '$' && t[|t| - 1] == '$' && forall k :: 1 <= k < |t| - 1 ==> IsTagChar(t[k])
  }

  ghost predicate StartsWithTag(s: string) {
    exists n :: 2 <= n <= |s| && IsTag(s[..n])
  }

  predicate GoodUnit(u: QuoteUnit, mark: char) {
    match u
    case Ordinary(c) => c != mark && !(mark == '\'' && c == '\\')
    case Doubled => true
    case Escaped(_) => mark == '\''
  }

  /** The text `inside` closes a comment of the given depth exactly at its end, and no unit
      that stands for one character hides a comment marker. */
  predicate Closes(inside: seq<CommentUnit>, depth: nat)
    decreases |inside|
  {
    inside != [] &&
    match inside[0]
    case Opener => Closes(inside[1..], depth + 1)
    case Closer => if depth <= 1 then inside[1..] == [] else Closes(inside[1..], depth - 1)
    case Other(_) =>
      !("/*" <= CommentText(inside)) && !("*/" <= CommentText(inside)) && Closes(inside[1..], depth)
  }

  /** `tag` occurs in `body + tag` only at the very end. */
  ghost predicate FirstAtEnd(tag: string, body: string) {
    forall k :: 0 <= k < |body| ==> !(tag <= (body + tag)[k..])
  }

  /** Token `t` may stand where the text `rest` follows it. */
  ghost predicate Fits(t: Token, rest: string) {
    match t
    case Quoted(q, units) =>
      (q == '"' || q == '\'') && (forall u :: u in units ==> GoodUnit(u, q)) && !([q] <= rest)
    case Dollar(tag, body) => IsTag(tag) && FirstAtEnd(tag, body)
    case Line(comment) => '\n' !in comment && (rest == "" || rest[0] == '\n')
    case Block(inside) => Closes(inside, 1)
    case Semicolon => true
    case Plain(c) =>
      c != '"' && c != '\'' && c != ';' &&
      !("--" <= [c] + rest) && !("/*" <= [c] + rest) && !StartsWithTag([c] + rest)
  }

  /** `ts` is a reading of the source text `Print(ts)`. */
  ghost predicate Reading(ts: seq<Token>) {
    ts != [] ==> Fits(ts[0], Print(ts[1..])) && Reading(ts[1..])
  }

  // ---- statements ----

  function StripLeft(s: string): string {
    if s != "" && IsSpace(s[0]) then StripLeft(s[1..]) else s
  }

  function StripRight(s: string): string {
    if s != "" && IsSpace(s[|s| - 1]) then StripRight(s[..|s| - 1]) else s
  }

  function Strip(s: string): string { StripRight(StripLeft(s)) }

  /** What a token leaves in the statement: comments become one blank, the rest is verbatim. */
  function Kept(t: Token): string {
    match t
    case Line(_) => "\n"
    case Block(_) => " "
    case _ => Text(t)
  }

  function Emit(part: string): seq<string> {
    if Strip(part) == "" then [] else [Strip(part)]
  }

  /** The non-blank statements of `ts`, when `part` was already read of the first one. */
  function Split(ts: seq<Token>, part: string): seq<string> {
    if ts == [] then Emit(part)
    else if ts[0].Semicolon? then Emit(part) + Split(ts[1..], "")
    else Split(ts[1..], part + Kept(ts[0]))
  }
}
