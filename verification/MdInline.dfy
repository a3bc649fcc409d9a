/** Inline markdown: code, bold, italic and links, cut out of a line by
    repeatedly taking the leftmost match of four patterns. */
module MdInline {
  import opened Prelude

  datatype Kind = Code | Bold | Italic | Link

  datatype Run =
    | Plain(text: string)
    | Mono(text: string)
    | Strong(text: string)
    | Emphasis(text: string)
    | Hyperlink(text: string, url: string)

  /** A match: the pattern and the positions where it starts and ends. */
  datatype Match = Match(kind: Kind, start: nat, end: nat)

  const PATTERNS: seq<Kind> := [Code, Bold, Italic, Link]

  function Place(kind: Kind): (n: nat)
    ensures n < |PATTERNS| && PATTERNS[n] == kind
  {
    match kind case Code => 0 case Bold => 1 case Italic => 2 case Link => 3
  }

  // ---- What the patterns say ----

  /** `n` marks on either side of a nonempty stretch without marks. */
  ghost predicate Delimited(s: string, i: nat, e: nat, n: nat, mark: char) {
    && i + n < e - n && e <= |s|
    && (forall k :: i <= k < i + n ==> s[k] == mark)
    && (forall k :: e - n <= k < e ==> s[k] == mark)
    && (forall k :: i + n <= k < e - n ==> s[k] != mark)
  }

  /** A link has its text up to the first `]`, then `(` and its target up to the first `)`. */
  ghost predicate LinkShape(s: string, i: nat, mid: nat, e: nat) {
    && i + 1 < mid && mid + 3 < e <= |s|
    && s[i] == '[' && s[mid] == ']' && s[mid + 1] == '(' && s[e - 1] == ')'
    && (forall k :: i + 1 <= k < mid ==> s[k] != ']')
    && (forall k :: mid + 2 <= k < e - 1 ==> s[k] != ')')
  }

  /** The pattern matches `s` between `start` and `end`; italic may not touch another star. */
  ghost predicate Occurs(s: string, m: Match) {
    match m.kind
    case Code => Delimited(s, m.start, m.end, 1, '`')
    case Bold => Delimited(s, m.start, m.end, 2, '*')
    case Italic =>
      && Delimited(s, m.start, m.end, 1, '*')
      && (m.start == 0 || s[m.start - 1] != '*')
      && (m.end == |s| || s[m.end] != '*')
    case Link => exists mid: nat :: LinkShape(s, m.start, mid, m.end)
  }

  // ---- Finding matches ----

  function Find(s: string, from: nat, c: char): (j: nat)
    requires from <= |s|
    ensures from <= j <= |s|
    ensures j < |s| ==> s[j] == c
    ensures forall i :: from <= i < j ==> s[i] != c
    decreases |s| - from
  {
    if from == |s| || s[from] == c then from else Find(s, from + 1, c)
  }

  /** There is room for the delimiters and something between them. */
  predicate Fits(s: string, m: Match) {
    && m.start < m.end <= |s|
    && match m.kind
       case Code => m.start + 2 < m.end
       case Bold => m.start + 4 < m.end
       case Italic => m.start + 2 < m.end
       case Link => m.start < Find(s, m.start + 1, ']') < m.end - 3
  }

  /** Where the pattern's match that starts at `i` ends, if it matches there. */
  function MatchEnd(kind: Kind, s: string, i: nat): (end: Option<nat>)
    requires i < |s|
    ensures end.Some? ==> Fits(s, Match(kind, i, end.value))
  {
    match kind
    case Code =>
      if s[i] != '`' then None
      else
        var j := Find(s, i + 1, '`');
        if j > i + 1 && j < |s| then Some(j + 1) else None
    case Bold =>
      if i + 1 >= |s| || s[i] != '*' || s[i + 1] != '*' then None
      else
        var j := Find(s, i + 2, '*');
        if j > i + 2 && j + 1 < |s| && s[j + 1] == '*' then Some(j + 2) else None
    case Italic =>
      if s[i] != '*' || (i > 0 && s[i - 1] == '*') then None
      else
        var j := Find(s, i + 1, '*');
        if j > i + 1 && j < |s| && (j + 1 == |s| || s[j + 1] != '*') then Some(j + 1) else None
    case Link =>
      if s[i] != '[' then None
      else
        var j := Find(s, i + 1, ']');
        if j == i + 1 || j + 1 >= |s| || s[j + 1] != '(' then None
        else
          var k := Find(s, j + 2, ')');
          if k > j + 2 && k < |s| then Some(k + 1) else None
  }

  predicate IsMatch(s: string, m: Match) {
    m.start < m.end <= |s| && MatchEnd(m.kind, s, m.start) == Some(m.end)
  }

  /** `pat.search(text)`: the leftmost match from `i` on. */
  function Search(kind: Kind, s: string, i: nat): (found: Option<Match>)
    requires i <= |s|
    ensures found.Some? ==> IsMatch(s, found.value)
    decreases |s| - i
  {
    if i == |s| then None
    else match MatchEnd(kind, s, i)
      case Some(end) => Some(Match(kind, i, end))
      case None => Search(kind, s, i + 1)
  }

  /** The winner among the first `n` patterns: a later one must start strictly earlier. */
  function BestOf(s: string, n: nat): (best: Option<Match>)
    requires n <= |PATTERNS|
    ensures best.Some? ==> IsMatch(s, best.value)
  {
    if n == 0 then None
    else
      var best, m := BestOf(s, n - 1), Search(PATTERNS[n - 1], s, 0);
      if m.Some? && (best.None? || m.value.start < best.value.start) then m else best
  }

  function Best(s: string): (best: Option<Match>)
    ensures best.Some? ==> IsMatch(s, best.value)
  {
    BestOf(s, |PATTERNS|)
  }

  // ---- The matcher finds exactly what the patterns say ----

  lemma MatchEndSound(kind: Kind, s: string, i: nat)
    requires i < |s| && MatchEnd(kind, s, i).Some?
    ensures Occurs(s, Match(kind, i, MatchEnd(kind, s, i).value))
  {
    if kind.Link? {
      assert LinkShape(s, i, Find(s, i + 1, ']'), MatchEnd(kind, s, i).value);
    }
  }

  lemma FindIs(s: string, from: nat, c: char, j: nat)
    requires from <= j < |s| && s[j] == c && forall i :: from <= i < j ==> s[i] != c
    ensures Find(s, from, c) == j
  {
  }

  lemma CodeComplete(s: string, i: nat, e: nat)
    requires Occurs(s, Match(Code, i, e))
    ensures MatchEnd(Code, s, i) == Some(e)
  {
    FindIs(s, i + 1, '`', e - 1);
  }

  lemma BoldComplete(s: string, i: nat, e: nat)
    requires Occurs(s, Match(Bold, i, e))
    ensures MatchEnd(Bold, s, i) == Some(e)
  {
    FindIs(s, i + 2, '*', e - 2);
  }

  lemma ItalicComplete(s: string, i: nat, e: nat)
    requires Occurs(s, Match(Italic, i, e))
    ensures MatchEnd(Italic, s, i) == Some(e)
  {
    FindIs(s, i + 1, '*', e - 1);
  }

  lemma LinkComplete(s: string, i: nat, mid: nat, e: nat)
    requires LinkShape(s, i, mid, e)
    ensures MatchEnd(Link, s, i) == Some(e) && Find(s, i + 1, ']') == mid
  {
    FindIs(s, i + 1, ']', mid);
    FindIs(s, mid + 2, ')', e - 1);
  }

  lemma MatchEndComplete(s: string, m: Match)
    requires Occurs(s, m)
    ensures IsMatch(s, m)
  {
    match m.kind
    case Code => CodeComplete(s, m.start, m.end);
    case Bold => BoldComplete(s, m.start, m.end);
    case Italic => ItalicComplete(s, m.start, m.end);
    case Link =>
      var mid: nat :| LinkShape(s, m.start, mid, m.end);
      LinkComplete(s, m.start, mid, m.end);
  }

  lemma {:induction false} SearchLeftmost(kind: Kind, s: string, i: nat)
    requires i <= |s|
    ensures match Search(kind, s, i)
            case None => forall m: Match :: m.kind == kind && m.start >= i ==> !Occurs(s, m)
            case Some(found) =>
              && found.kind == kind && found.start >= i && Occurs(s, found)
              && forall m: Match :: m.kind == kind && m.start >= i && Occurs(s, m) ==>
                   m == found || m.start > found.start
    decreases |s| - i
  {
    if i < |s| {
      forall m: Match | m.kind == kind && m.start == i && Occurs(s, m)
        ensures MatchEnd(kind, s, i) == Some(m.end)
      {
        MatchEndComplete(s, m);
      }
      if MatchEnd(kind, s, i).Some? {
        MatchEndSound(kind, s, i);
      } else {
        SearchLeftmost(kind, s, i + 1);
      }
    }
  }

  /** A match is recognised by its first two characters, so no two patterns match at the same place. */
  lemma NoTies(s: string, m: Match, m': Match)
    requires Occurs(s, m) && Occurs(s, m') && m.start == m'.start
    ensures m == m'
  {
    MatchEndComplete(s, m);
    MatchEndComplete(s, m');
  }

  ghost function OccursIn(s: string): Match -> bool {
    m => Occurs(s, m)
  }

  /** `best` is the leftmost occurrence of the first `n` patterns. */
  ghost predicate LeftmostBelow(occurs: Match -> bool, n: nat, best: Option<Match>) {
    match best
    case None => forall m :: occurs(m) ==> Place(m.kind) >= n
    case Some(b) => occurs(b) && forall m :: occurs(m) && Place(m.kind) < n ==> m == b || m.start > b.start
  }

  ghost predicate LeftmostOfKind(occurs: Match -> bool, kind: Kind, found: Option<Match>) {
    match found
    case None => forall m :: occurs(m) ==> m.kind != kind
    case Some(f) =>
      && occurs(f) && f.kind == kind
      && forall m :: occurs(m) && m.kind == kind ==> m == f || m.start > f.start
  }

  lemma OneMorePattern(occurs: Match -> bool, n: nat, best: Option<Match>, found: Option<Match>)
    requires n < |PATTERNS| && LeftmostBelow(occurs, n, best) && LeftmostOfKind(occurs, PATTERNS[n], found)
    requires best.Some? && found.Some? && best.value.start == found.value.start ==> best == found
    ensures LeftmostBelow(occurs, n + 1,
              if found.Some? && (best.None? || found.value.start < best.value.start) then found else best)
  {
    assert forall kind :: Place(kind) < n + 1 <==> Place(kind) < n || kind == PATTERNS[n];
  }

  lemma {:induction false} BestOfIsLeftmost(s: string, n: nat)
    requires n <= |PATTERNS|
    ensures LeftmostBelow(OccursIn(s), n, BestOf(s, n))
  {
    if n > 0 {
      var best, found := BestOf(s, n - 1), Search(PATTERNS[n - 1], s, 0);
      BestOfIsLeftmost(s, n - 1);
      SearchLeftmost(PATTERNS[n - 1], s, 0);
      if best.Some? && found.Some? && best.value.start == found.value.start {
        NoTies(s, best.value, found.value);
      }
      OneMorePattern(OccursIn(s), n - 1, best, found);
    }
  }

  /** The chosen match is an occurrence of its pattern, and every other occurrence
      of any pattern starts further right; none is chosen only if none occurs. */
  lemma BestIsLeftmost(s: string)
    ensures match Best(s)
            case None => forall m :: !Occurs(s, m)
            case Some(best) => Occurs(s, best) && forall m :: Occurs(s, m) ==> m == best || m.start > best.start
  {
    BestOfIsLeftmost(s, 4);
    assert forall m :: Occurs(s, m) ==> OccursIn(s)(m);
  }

  // ---- Rendering ----

  /** The run emitted for a match: the capture groups without their delimiters. */
  function RunOf(s: string, m: Match): Run
    requires Fits(s, m)
  {
    match m.kind
    case Code => Mono(s[m.start + 1..m.end - 1])
    case Bold => Strong(s[m.start + 2..m.end - 2])
    case Italic => Emphasis(s[m.start + 1..m.end - 1])
    case Link =>
      var j := Find(s, m.start + 1, ']');
      Hyperlink(s[m.start + 1..j], s[j + 2..m.end - 1])
  }

  /** The text before a match, if any, and the match. */
  function Emitted(s: string, m: Match): seq<Run>
    requires IsMatch(s, m)
  {
    (if m.start > 0 then [Plain(s[..m.start])] else []) + [RunOf(s, m)]
  }

  function Inline(text: string): seq<Run>
    decreases |text|
  {
    if text == "" then []
    else match Best(text)
      case None => [Plain(text)]
      case Some(m) => Emitted(text, m) + Inline(text[m.end..])
  }

  lemma InlineStep(text: string)
    requires text != ""
    ensures Best(text) == None ==> Inline(text) == [Plain(text)]
    ensures Best(text).Some? ==> Inline(text) == Emitted(text, Best(text).value) + Inline(text[Best(text).value.end..])
  {
  }

  /** The inner loop of `render_inline`: try the patterns in table order. */
  method EarliestMatch(text: string) returns (best: Option<Match>)
    ensures best == Best(text)
  {
    best := None;
    for n := 0 to |PATTERNS|
      invariant best == BestOf(text, n)
    {
      var m := Search(PATTERNS[n], text, 0);
      if m.Some? && (best.None? || m.value.start < best.value.start) {
        best := m;
      }
    }
  }

  method Emit(before: seq<Run>, text: string, m: Match) returns (runs: seq<Run>)
    requires IsMatch(text, m)
    ensures runs == before + Emitted(text, m)
  {
    runs := before;
    if m.start > 0 {
      runs := runs + [Plain(text[..m.start])];
    }
    runs := runs + [RunOf(text, m)];
  }

  /** The outer loop of `render_inline`, eating the text from the left. */
  method RenderInline(text: string) returns (runs: seq<Run>)
    ensures runs == Inline(text)
  {
    runs := [];
    var rest := text;
    while rest != ""
      invariant Inline(text) == runs + Inline(rest)
      decreases |rest|
    {
      var best := EarliestMatch(rest);
      InlineStep(rest);
      match best
      case None =>
        return runs + [Plain(rest)];
      case Some(m) =>
        ghost var before, tail := runs, Inline(rest[m.end..]);
        runs := Emit(runs, rest, m);
        Associate(before, Emitted(rest, m), tail);
        rest := rest[m.end..];
    }
  }

  lemma Associate(a: seq<Run>, b: seq<Run>, c: seq<Run>)
    ensures a + (b + c) == (a + b) + c
  {
  }

  // ---- Nothing is lost ----

  function Wrap(run: Run): string {
    match run
    case Plain(text) => text
    case Mono(text) => "`" + text + "`"
    case Strong(text) => "**" + text + "**"
    case Emphasis(text) => "*" + text + "*"
    case Hyperlink(text, url) => "[" + text + "](" + url + ")"
  }

  function Source(runs: seq<Run>): string {
    if runs == [] then "" else Wrap(runs[0]) + Source(runs[1..])
  }

  lemma Cut(s: string, i: nat, j: nat, k: nat)
    requires i <= j <= k <= |s|
    ensures s[i..k] == s[i..j] + s[j..k]
  {
  }

  lemma WrapDelimited(s: string, i: nat, e: nat, n: nat, mark: char)
    requires Delimited(s, i, e, n, mark)
    ensures seq(n, k => mark) + s[i + n..e - n] + seq(n, k => mark) == s[i..e]
  {
    Cut(s, i, i + n, e - n);
    Cut(s, i, e - n, e);
    assert s[i..i + n] == seq(n, k => mark) && s[e - n..e] == seq(n, k => mark);
  }

  lemma WrapCode(s: string, m: Match)
    requires m.kind.Code? && Fits(s, m) && Delimited(s, m.start, m.end, 1, '`')
    ensures Wrap(RunOf(s, m)) == s[m.start..m.end]
  {
    WrapDelimited(s, m.start, m.end, 1, '`');
    assert seq(1, k => '`') == "`";
  }

  lemma WrapItalic(s: string, m: Match)
    requires m.kind.Italic? && Fits(s, m) && Delimited(s, m.start, m.end, 1, '*')
    ensures Wrap(RunOf(s, m)) == s[m.start..m.end]
  {
    WrapDelimited(s, m.start, m.end, 1, '*');
    assert seq(1, k => '*') == "*";
  }

  lemma WrapBold(s: string, m: Match)
    requires m.kind.Bold? && Fits(s, m) && Delimited(s, m.start, m.end, 2, '*')
    ensures Wrap(RunOf(s, m)) == s[m.start..m.end]
  {
    WrapDelimited(s, m.start, m.end, 2, '*');
    assert seq(2, k => '*') == "**";
  }

  lemma WrapLinkFront(s: string, i: nat, mid: nat)
    requires i < mid && mid + 2 <= |s| && s[i] == '[' && s[mid] == ']' && s[mid + 1] == '('
    ensures "[" + s[i + 1..mid] + "](" == s[i..mid + 2]
  {
    Cut(s, i, i + 1, mid);
    Cut(s, i, mid, mid + 2);
    assert s[i..i + 1] == "[";
    assert s[mid..mid + 2] == "](";
  }

  lemma WrapLinkText(s: string, i: nat, mid: nat, e: nat)
    requires i < mid && mid + 2 < e <= |s|
    requires s[i] == '[' && s[mid] == ']' && s[mid + 1] == '(' && s[e - 1] == ')'
    ensures Wrap(Hyperlink(s[i + 1..mid], s[mid + 2..e - 1])) == s[i..e]
  {
    WrapLinkFront(s, i, mid);
    Cut(s, i, mid + 2, e - 1);
    Cut(s, i, e - 1, e);
    assert s[e - 1..e] == ")";
  }

  lemma LinkRun(s: string, m: Match, mid: nat)
    requires m.kind.Link? && Fits(s, m) && LinkShape(s, m.start, mid, m.end)
    ensures RunOf(s, m) == Hyperlink(s[m.start + 1..mid], s[mid + 2..m.end - 1])
  {
    FindIs(s, m.start + 1, ']', mid);
  }

  lemma WrapLink(s: string, m: Match, mid: nat)
    requires m.kind.Link? && Fits(s, m) && LinkShape(s, m.start, mid, m.end)
    ensures Wrap(RunOf(s, m)) == s[m.start..m.end]
  {
    LinkRun(s, m, mid);
    WrapLinkText(s, m.start, mid, m.end);
  }

  lemma WrapRunOf(s: string, m: Match)
    requires Occurs(s, m) && Fits(s, m)
    ensures Wrap(RunOf(s, m)) == s[m.start..m.end]
  {
    match m.kind
    case Code => WrapCode(s, m);
    case Bold => WrapBold(s, m);
    case Italic => WrapItalic(s, m);
    case Link =>
      var mid: nat :| LinkShape(s, m.start, mid, m.end);
      WrapLink(s, m, mid);
  }

  lemma {:induction false} SourceAppend(a: seq<Run>, b: seq<Run>)
    ensures Source(a + b) == Source(a) + Source(b)
  {
    if a == [] {
      assert a + b == b;
    } else {
      assert (a + b)[1..] == a[1..] + b;
      SourceAppend(a[1..], b);
    }
  }

  lemma EmittedSource(s: string, m: Match)
    requires Occurs(s, m)
    ensures IsMatch(s, m)
    ensures Source(Emitted(s, m)) == s[..m.end]
  {
    MatchEndComplete(s, m);
    WrapRunOf(s, m);
    var run := RunOf(s, m);
    assert Source([run]) == Wrap(run);
    if m.start > 0 {
      SourceAppend([Plain(s[..m.start])], [run]);
      assert Source([Plain(s[..m.start])]) == s[..m.start];
      Cut(s, 0, m.start, m.end);
    } else {
      assert Emitted(s, m) == [run];
    }
  }

  /** Re-wrapping every run in its delimiters gives back the text, character for character. */
  lemma {:induction false} InlineIsLossless(text: string)
    ensures Source(Inline(text)) == text
    decreases |text|
  {
    if text != "" {
      InlineStep(text);
      match Best(text)
      case None =>
        assert Source([Plain(text)]) == text + Source([]);
      case Some(m) =>
        BestIsLeftmost(text);
        EmittedSource(text, m);
        InlineIsLossless(text[m.end..]);
        SourceAppend(Emitted(text, m), Inline(text[m.end..]));
        Cut(text, 0, m.end, |text|);
        assert text[0..m.end] == text[..m.end] && text[0..|text|] == text;
    }
  }

  /** Every styled step eats at least three characters of the text. */
  lemma StepConsumes(s: string, m: Match)
    requires Occurs(s, m)
    ensures m.end - m.start >= match m.kind case Code => 3 case Italic => 3 case Bold => 5 case Link => 6
  {
    if m.kind.Link? {
      var mid: nat :| LinkShape(s, m.start, mid, m.end);
    }
  }

  // ---- The result is determined by the patterns alone ----

  function KindOf(run: Run): Kind {
    match run
    case Mono(_) => Code
    case Strong(_) => Bold
    case Emphasis(_) => Italic
    case _ => Link
  }

  /** No occurrence of any pattern starts before `m`. */
  ghost predicate Leftmost(text: string, m: Match) {
    Occurs(text, m) && forall other :: Occurs(text, other) ==> other.start >= m.start
  }

  /** `run` is the styled form of what stands between the ends of `m`. */
  ghost predicate Styles(text: string, m: Match, run: Run) {
    && m.start < m.end <= |text|
    && !run.Plain? && KindOf(run) == m.kind && Wrap(run) == text[m.start..m.end]
    && (run.Hyperlink? ==> ']' !in run.text)
  }

  /** `runs` reads `text` from the left, always taking an occurrence that no other precedes. */
  ghost predicate Reading(text: string, runs: seq<Run>)
    decreases |runs|
  {
    if text == "" then runs == []
    else if forall m :: !Occurs(text, m) then runs == [Plain(text)]
    else exists m :: Leftmost(text, m) && ReadsOn(text, runs, m)
  }

  ghost predicate ReadsOn(text: string, runs: seq<Run>, m: Match)
    decreases |runs|, 0
  {
    var k := if m.start > 0 then 1 else 0;
    && |runs| > k && Styles(text, m, runs[k])
    && (k == 1 ==> runs[0] == Plain(text[..m.start]))
    && Reading(text[m.end..], runs[k + 1..])
  }

  lemma LongerTextHasBracket(a: Run, b: Run)
    requires a.Hyperlink? && b.Hyperlink? && Wrap(a) == Wrap(b) && |a.text| < |b.text|
    ensures ']' in b.text
  {
    assert Wrap(a)[|a.text| + 1] == ']' && Wrap(b)[|a.text| + 1] == b.text[|a.text|];
  }

  lemma WrapInjective(a: Run, b: Run)
    requires !a.Plain? && !b.Plain? && KindOf(a) == KindOf(b) && Wrap(a) == Wrap(b)
    requires a.Hyperlink? ==> ']' !in a.text && ']' !in b.text
    ensures a == b
  {
    var s, n := Wrap(a), |a.text|;
    if a.Hyperlink? {
      if n < |b.text| {
        LongerTextHasBracket(a, b);
      }
      if |b.text| < n {
        LongerTextHasBracket(b, a);
      }
      assert a.text == s[1..n + 1] && b.text == Wrap(b)[1..n + 1];
      assert a.url == s[n + 3..|s| - 1] && b.url == Wrap(b)[n + 3..|s| - 1];
    } else {
      var k := if a.Strong? then 2 else 1;
      assert a.text == s[k..|s| - k] && b.text == Wrap(b)[k..|s| - k];
    }
  }

  lemma RunOfStyles(s: string, m: Match)
    requires Occurs(s, m) && Fits(s, m)
    ensures Styles(s, m, RunOf(s, m))
  {
    WrapRunOf(s, m);
  }

  lemma LeftmostIsBest(text: string, m: Match)
    requires Leftmost(text, m)
    ensures Best(text) == Some(m)
  {
    BestIsLeftmost(text);
  }

  /** What precedes the rest in a reading is what is emitted for the match. */
  lemma FrontIsEmitted(text: string, front: seq<Run>, m: Match)
    requires Occurs(text, m) && IsMatch(text, m)
    requires |front| == if m.start > 0 then 2 else 1
    ensures (front[0] == Plain(text[..m.start]) || m.start == 0) && Styles(text, m, front[|front| - 1])
       <==> front == Emitted(text, m)
  {
    RunOfStyles(text, m);
    var last := front[|front| - 1];
    if Styles(text, m, last) {
      WrapInjective(last, RunOf(text, m));
    }
  }

  lemma JoinIsEqual(front: seq<Run>, rest: seq<Run>, a: seq<Run>, b: seq<Run>)
    requires |front| == |a|
    ensures front + rest == a + b <==> front == a && rest == b
  {
    assert (front + rest)[..|a|] == front && (a + b)[..|a|] == a;
    assert (front + rest)[|a|..] == rest && (a + b)[|a|..] == b;
  }

  /** The runs produced are a reading of the text from the left, and the only one:
      nothing but the patterns and "leftmost first" decides the result. */
  lemma {:induction false} InlineIsTheReading(text: string, runs: seq<Run>)
    ensures Reading(text, runs) <==> runs == Inline(text)
    decreases |text|
  {
    if text != "" {
      BestIsLeftmost(text);
      InlineStep(text);
      match Best(text)
      case None =>
      case Some(m) =>
        ReadingTakesBest(text, runs, m);
        var k := if m.start > 0 then 1 else 0;
        if |runs| > k {
          var front, rest := runs[..k + 1], runs[k + 1..];
          InlineIsTheReading(text[m.end..], rest);
          FrontIsEmitted(text, front, m);
          JoinIsEqual(front, rest, Emitted(text, m), Inline(text[m.end..]));
          assert runs == front + rest;
        }
    }
  }

  lemma ReadingTakesBest(text: string, runs: seq<Run>, best: Match)
    requires text != "" && Leftmost(text, best)
    ensures Reading(text, runs) <==> ReadsOn(text, runs, best)
  {
    if Reading(text, runs) {
      var m :| Leftmost(text, m) && ReadsOn(text, runs, m);
      LeftmostIsBest(text, m);
      LeftmostIsBest(text, best);
    }
  }
}
