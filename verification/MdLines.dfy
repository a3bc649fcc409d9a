/** The line patterns of the markdown converter, as predicates on one line.
    Lines contain no line feed. */
module MdLines {
  import opened Decimal

  predicate IsSpace(c: char) {
    || c == ' ' || '\t' <= c <= '\r' || '\U{1c}' <= c <= '\U{1f}' || c == '\U{85}' || c == '\U{a0}'
    || c == '\U{1680}' || '\U{2000}' <= c <= '\U{200a}' || c == '\U{2028}' || c == '\U{2029}'
    || c == '\U{202f}' || c == '\U{205f}' || c == '\U{3000}'
  }

  predicate IsWord(c: char) {
    IsDigit(c) || 'a' <= c <= 'z' || 'A' <= c <= 'Z' || c == '_'
  }

  predicate IsHash(c: char) {
    c == '#'
  }

  predicate IsPipe(c: char) {
    c == '|'
  }

  predicate All(s: string, c: char) {
    forall i :: 0 <= i < |s| ==> s[i] == c
  }

  predicate Blank(s: string) {
    forall i :: 0 <= i < |s| ==> IsSpace(s[i])
  }

  /** Length of the longest prefix of characters satisfying the test. */
  function Prefix(s: string, test: char -> bool): (n: nat)
    ensures n <= |s|
    ensures forall i :: 0 <= i < n ==> test(s[i])
    ensures n < |s| ==> !test(s[n])
  {
    if s != [] && test(s[0]) then 1 + Prefix(s[1..], test) else 0
  }

  function TrimLeft(s: string): string {
    s[Prefix(s, IsSpace)..]
  }

  function TrimRight(s: string, test: char -> bool): (t: string)
    ensures t <= s
  {
    if s != [] && test(s[|s| - 1]) then TrimRight(s[..|s| - 1], test) else s
  }

  function Trim(s: string): string {
    TrimRight(TrimLeft(s), IsSpace)
  }

  /** `^\s*(---+|\*\*\*+|___+)\s*$` */
  predicate IsRule(line: string) {
    var t := Trim(line);
    |t| >= 3 && (All(t, '-') || All(t, '*') || All(t, '_'))
  }

  /** Number of leading hashes. */
  function Hashes(line: string): nat {
    Prefix(line, IsHash)
  }

  /** `^(#{1,6})\s+(.*)$` */
  predicate IsHeading(line: string) {
    var n := Hashes(line);
    1 <= n <= 6 && n < |line| && IsSpace(line[n])
  }

  function HeadingText(line: string): string {
    Trim(line[Hashes(line)..])
  }

  /** A line of three backticks and an optional language word. */
  predicate IsFence(line: string) {
    && |line| >= 3 && line[..3] == "```"
    && var rest := line[3..];
       Blank(rest[Prefix(rest, IsWord)..])
  }

  function Indent(line: string): nat {
    Prefix(line, IsSpace)
  }

  /** `^(\s*)([-*])\s+(.*)$` */
  predicate IsBullet(line: string) {
    var n := Indent(line);
    n + 1 < |line| && (line[n] == '-' || line[n] == '*') && IsSpace(line[n + 1])
  }

  function BulletContent(line: string): string {
    if Indent(line) < |line| then TrimLeft(line[Indent(line) + 1..]) else ""
  }

  function Digits(line: string): nat {
    Prefix(TrimLeft(line), IsDigit)
  }

  /** `^(\s*)(\d+)\.\s+(.*)$` */
  predicate IsNumbered(line: string) {
    var t, d := TrimLeft(line), Digits(line);
    d > 0 && d + 1 < |t| && t[d] == '.' && IsSpace(t[d + 1])
  }

  function NumberedContent(line: string): string {
    if Digits(line) < |TrimLeft(line)| then TrimLeft(TrimLeft(line)[Digits(line) + 1..]) else ""
  }

  /** `^>\s?(.*)$` */
  predicate IsQuote(line: string) {
    line != [] && line[0] == '>'
  }

  function QuoteContent(line: string): string {
    if |line| > 1 && IsSpace(line[1]) then line[2..] else if line != [] then line[1..] else ""
  }

  function SplitPipes(s: string): (pieces: seq<string>)
    ensures pieces != []
  {
    if s == [] then [[]]
    else
      var rest := SplitPipes(s[1..]);
      if s[0] == '|' then [[]] + rest else [[s[0]] + rest[0]] + rest[1..]
  }

  /** `:?-+:?` */
  predicate IsSepText(t: string) {
    var front := if t != [] && t[0] == ':' then t[1..] else t;
    var dashes := if front != [] && front[|front| - 1] == ':' then front[..|front| - 1] else front;
    dashes != [] && All(dashes, '-')
  }

  /** The same between optional spaces. */
  predicate IsSepCell(piece: string) {
    IsSepText(Trim(piece))
  }

  /** The pieces of a line without the blank one before a leading pipe. */
  function WithoutLeft(pieces: seq<string>): seq<string> {
    if pieces != [] && Blank(pieces[0]) then pieces[1..] else pieces
  }

  function WithoutRight(pieces: seq<string>): seq<string> {
    if pieces != [] && Blank(pieces[|pieces| - 1]) then pieces[..|pieces| - 1] else pieces
  }

  /** At least two separator cells between pipes, an outer pipe allowed on either side. */
  predicate IsTableSep(line: string) {
    var cells := WithoutRight(WithoutLeft(SplitPipes(line)));
    |cells| >= 2 && forall i :: 0 <= i < |cells| ==> IsSepCell(cells[i])
  }

  predicate HasPipe(line: string) {
    '|' in line
  }

  function TrimAll(pieces: seq<string>): (cells: seq<string>)
    ensures |cells| == |pieces|
  {
    seq(|pieces|, i requires 0 <= i < |pieces| => Trim(pieces[i]))
  }

  function StripPipes(t: string): string {
    TrimRight(t[Prefix(t, IsPipe)..], IsPipe)
  }

  /** The cells of a table line: outer pipes stripped, the rest split and trimmed. */
  function Cells(line: string): (cells: seq<string>)
    ensures cells != []
  {
    TrimAll(SplitPipes(StripPipes(Trim(line))))
  }

  /** The patterns and capture groups as the block parser uses them. */
  datatype Rules = Rules(
    isFence: string -> bool,
    isRule: string -> bool,
    isHeading: string -> bool,
    hasPipe: string -> bool,
    isTableSep: string -> bool,
    isQuote: string -> bool,
    isBullet: string -> bool,
    isNumbered: string -> bool,
    isBlank: string -> bool,
    level: string -> nat,
    headingText: string -> string,
    cells: string -> seq<string>,
    quoteContent: string -> string,
    indent: string -> nat,
    bulletContent: string -> string,
    numberedContent: string -> string)

  const MARKDOWN: Rules := Rules(
    IsFence, IsRule, IsHeading, HasPipe, IsTableSep, IsQuote, IsBullet, IsNumbered, Blank,
    Hashes, HeadingText, Cells, QuoteContent, Indent, BulletContent, NumberedContent)
}
