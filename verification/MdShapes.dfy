/** What the line patterns of the markdown converter say, written out as the parts a
    line is made of, and the text each block takes from its lines.  For every pattern
    one lemma takes a matching line apart and another shows that every line made of
    such parts matches, with those parts captured. */
module MdShapes {
  import opened Prelude
  import opened Decimal
  import opened MdLines
  import opened MdBlocks

  // ---- Cutting off a prefix, trimming ----

  lemma {:induction false} PrefixIs(a: string, b: string, test: char -> bool)
    requires forall i :: 0 <= i < |a| ==> test(a[i])
    requires b == "" || !test(b[0])
    ensures Prefix(a + b, test) == |a|
  {
    if a == "" {
      assert a + b == b;
    } else {
      assert (a + b)[1..] == a[1..] + b;
      PrefixIs(a[1..], b, test);
    }
  }

  predicate NoSpaceFirst(s: string) {
    s == "" || !IsSpace(s[0])
  }

  predicate NoSpaceLast(s: string) {
    s == "" || !IsSpace(s[|s| - 1])
  }

  lemma TrimLeftIs(a: string, b: string)
    requires Blank(a) && NoSpaceFirst(b)
    ensures TrimLeft(a + b) == b
  {
    PrefixIs(a, b, IsSpace);
  }

  lemma {:induction false} TrimRightIs(a: string, b: string)
    requires NoSpaceLast(a) && Blank(b)
    ensures TrimRight(a + b, IsSpace) == a
  {
    if b == "" {
      assert a + b == a;
    } else {
      assert (a + b)[..|a + b| - 1] == a + b[..|b| - 1];
      TrimRightIs(a, b[..|b| - 1]);
    }
  }

  /** Trimming gives what stands between the spaces. */
  lemma TrimIs(a: string, m: string, b: string)
    requires Blank(a) && Blank(b) && NoSpaceFirst(m) && NoSpaceLast(m)
    ensures Trim(a + (m + b)) == m
  {
    if m == "" {
      assert a + ("" + b) == (a + b) + "";
      TrimLeftIs(a + b, "");
    } else {
      assert (m + b)[0] == m[0];
      TrimLeftIs(a, m + b);
      TrimRightIs(m, b);
    }
  }

  lemma {:induction false} TrimRightParts(s: string) returns (b: string)
    ensures Blank(b) && s == TrimRight(s, IsSpace) + b && NoSpaceLast(TrimRight(s, IsSpace))
  {
    if s != "" && IsSpace(s[|s| - 1]) {
      b := TrimRightParts(s[..|s| - 1]);
      b := b + [s[|s| - 1]];
      assert s == s[..|s| - 1] + [s[|s| - 1]];
    } else {
      b := "";
    }
  }

  lemma TrimParts(s: string) returns (a: string, b: string)
    ensures Blank(a) && Blank(b) && s == a + (Trim(s) + b) && NoSpaceFirst(Trim(s)) && NoSpaceLast(Trim(s))
  {
    var n := Prefix(s, IsSpace);
    var rest := s[n..];
    a := s[..n];
    b := TrimRightParts(rest);
    assert s == a + rest;
    if Trim(s) != "" {
      assert rest[0] == s[n] && Trim(s)[0] == rest[0];
    }
  }

  // ---- Headings ----

  /** Up to six hashes, spaces, and the text trimmed. */
  lemma HeadingParts(line: string) returns (hashes: string, gap: string, tail: string)
    requires IsHeading(line)
    ensures line == hashes + (gap + (HeadingText(line) + tail))
    ensures 1 <= |hashes| <= 6 && All(hashes, '#') && gap != "" && Blank(gap) && Blank(tail)
    ensures Hashes(line) == |hashes| && NoSpaceFirst(HeadingText(line)) && NoSpaceLast(HeadingText(line))
  {
    var n := Hashes(line);
    hashes := line[..n];
    gap, tail := TrimParts(line[n..]);
    assert line == hashes + line[n..] && line[n..][0] == line[n];
    if gap == "" {
      gap, tail := tail, "";
    }
  }

  lemma HeadingWhole(hashes: string, gap: string, text: string, tail: string)
    requires 1 <= |hashes| <= 6 && All(hashes, '#') && gap != "" && Blank(gap) && Blank(tail)
    requires NoSpaceFirst(text) && NoSpaceLast(text)
    ensures var line := hashes + (gap + (text + tail));
            IsHeading(line) && Hashes(line) == |hashes| && HeadingText(line) == text
  {
    var rest := gap + (text + tail);
    var line := hashes + rest;
    assert rest[0] == gap[0];
    PrefixIs(hashes, rest, IsHash);
    assert line[|hashes|..] == rest;
    TrimIs(gap, text, tail);
  }

  // ---- List items ----

  /** A gap of spaces and the content after it. */
  lemma GapParts(rest: string) returns (gap: string)
    requires rest != "" && IsSpace(rest[0])
    ensures rest == gap + TrimLeft(rest) && gap != "" && Blank(gap) && NoSpaceFirst(TrimLeft(rest))
  {
    gap := rest[..Prefix(rest, IsSpace)];
  }

  lemma IndentParts(line: string) returns (pre: string)
    ensures line == pre + TrimLeft(line) && |pre| == Indent(line) && Blank(pre)
  {
    pre := line[..Indent(line)];
  }

  /** The part of a bullet item after its indentation. */
  lemma MarkParts(t: string) returns (gap: string)
    requires |t| > 1 && IsSpace(t[1])
    ensures t == [t[0]] + (gap + TrimLeft(t[1..]))
    ensures gap != "" && Blank(gap) && NoSpaceFirst(TrimLeft(t[1..]))
  {
    gap := GapParts(t[1..]);
    assert t == [t[0]] + t[1..];
  }

  lemma BulletParts(line: string) returns (pre: string, mark: char, gap: string)
    requires IsBullet(line)
    ensures line == pre + ([mark] + (gap + BulletContent(line)))
    ensures Blank(pre) && |pre| == Indent(line) && (mark == '-' || mark == '*') && gap != "" && Blank(gap)
    ensures NoSpaceFirst(BulletContent(line))
  {
    pre := IndentParts(line);
    var t := TrimLeft(line);
    mark := t[0];
    gap := MarkParts(t);
    assert t[1..] == line[Indent(line) + 1..];
  }

  lemma BulletWhole(pre: string, mark: char, gap: string, content: string)
    requires Blank(pre) && (mark == '-' || mark == '*') && gap != "" && Blank(gap) && NoSpaceFirst(content)
    ensures var line := pre + ([mark] + (gap + content));
            IsBullet(line) && Indent(line) == |pre| && BulletContent(line) == content
  {
    var rest := [mark] + (gap + content);
    var line := pre + rest;
    PrefixIs(pre, rest, IsSpace);
    assert rest[1] == gap[0];
    assert line[|pre|] == mark && line[|pre| + 1] == rest[1];
    assert line[|pre| + 1..] == gap + content;
    TrimLeftIs(gap, content);
  }

  /** The part of a numbered item after its indentation. */
  lemma DigitsParts(t: string, d: nat) returns (digits: string, gap: string)
    requires d == Prefix(t, IsDigit) && d > 0 && d + 1 < |t| && t[d] == '.' && IsSpace(t[d + 1])
    ensures t == digits + ("." + (gap + TrimLeft(t[d + 1..])))
    ensures AllDigits(digits) && gap != "" && Blank(gap) && NoSpaceFirst(TrimLeft(t[d + 1..]))
  {
    digits := t[..d];
    var rest := t[d + 1..];
    assert rest[0] == t[d + 1];
    gap := GapParts(rest);
    assert t[d..] == "." + rest && t == digits + t[d..];
  }

  lemma NumberedParts(line: string) returns (pre: string, digits: string, gap: string)
    requires IsNumbered(line)
    ensures line == pre + (digits + ("." + (gap + NumberedContent(line))))
    ensures Blank(pre) && |pre| == Indent(line) && AllDigits(digits) && gap != "" && Blank(gap)
    ensures NoSpaceFirst(NumberedContent(line))
  {
    pre := IndentParts(line);
    digits, gap := DigitsParts(TrimLeft(line), Digits(line));
  }

  lemma DigitsWhole(digits: string, gap: string, content: string)
    requires AllDigits(digits) && gap != "" && Blank(gap) && NoSpaceFirst(content)
    ensures var t := digits + ("." + (gap + content));
            && Prefix(t, IsDigit) == |digits| && |digits| + 1 < |t|
            && t[|digits|] == '.' && IsSpace(t[|digits| + 1]) && TrimLeft(t[|digits| + 1..]) == content
  {
    var rest := "." + (gap + content);
    var t := digits + rest;
    PrefixIs(digits, rest, IsDigit);
    assert rest[1] == gap[0] && t[|digits| + 1] == rest[1];
    assert t[|digits| + 1..] == gap + content;
    TrimLeftIs(gap, content);
  }

  lemma NumberedWhole(pre: string, digits: string, gap: string, content: string)
    requires Blank(pre) && AllDigits(digits) && gap != "" && Blank(gap) && NoSpaceFirst(content)
    ensures var line := pre + (digits + ("." + (gap + content)));
            IsNumbered(line) && Indent(line) == |pre| && NumberedContent(line) == content
  {
    var t := digits + ("." + (gap + content));
    assert t[0] == digits[0];
    PrefixIs(pre, t, IsSpace);
    TrimLeftIs(pre, t);
    DigitsWhole(digits, gap, content);
  }

  // ---- Quotes, fences, rules ----

  /** After the mark one space may be left out. */
  lemma QuoteText(rest: string)
    ensures IsQuote(">" + rest)
    ensures QuoteContent(">" + rest) == if rest != "" && IsSpace(rest[0]) then rest[1..] else rest
  {
    var line := ">" + rest;
    assert line[1..] == rest;
    if rest != "" {
      assert line[1] == rest[0] && line[2..] == rest[1..];
    }
  }

  lemma FenceParts(line: string) returns (word: string, tail: string)
    requires IsFence(line)
    ensures line == "```" + (word + tail) && Blank(tail) && forall i :: 0 <= i < |word| ==> IsWord(word[i])
  {
    var rest := line[3..];
    word, tail := rest[..Prefix(rest, IsWord)], rest[Prefix(rest, IsWord)..];
    assert line == line[..3] + rest;
  }

  lemma FenceWhole(word: string, tail: string)
    requires Blank(tail) && forall i :: 0 <= i < |word| ==> IsWord(word[i])
    ensures IsFence("```" + (word + tail))
  {
    var line := "```" + (word + tail);
    assert line[..3] == "```" && line[3..] == word + tail;
    assert tail != "" ==> IsSpace(tail[0]);
    PrefixIs(word, tail, IsWord);
    assert (word + tail)[|word|..] == tail;
  }

  lemma RuleParts(line: string) returns (a: string, marks: string, b: string)
    requires IsRule(line)
    ensures line == a + (marks + b) && Blank(a) && Blank(b) && |marks| >= 3
    ensures All(marks, '-') || All(marks, '*') || All(marks, '_')
  {
    a, b := TrimParts(line);
    marks := Trim(line);
  }

  lemma RuleWhole(a: string, marks: string, b: string)
    requires Blank(a) && Blank(b) && |marks| >= 3 && (All(marks, '-') || All(marks, '*') || All(marks, '_'))
    ensures IsRule(a + (marks + b))
  {
    assert !IsSpace(marks[0]) && !IsSpace(marks[|marks| - 1]);
    TrimIs(a, marks, b);
  }

  // ---- Tables ----

  function JoinPipes(pieces: seq<string>): string
    requires pieces != []
  {
    if |pieces| == 1 then pieces[0] else pieces[0] + ("|" + JoinPipes(pieces[1..]))
  }

  ghost predicate PipeFree(pieces: seq<string>) {
    forall i :: 0 <= i < |pieces| ==> '|' !in pieces[i]
  }

  lemma JoinPush(c: char, rest: seq<string>)
    requires rest != []
    ensures JoinPipes([[c] + rest[0]] + rest[1..]) == [c] + JoinPipes(rest)
  {
    var pushed := [[c] + rest[0]] + rest[1..];
    if |rest| > 1 {
      assert pushed[1..] == rest[1..];
      assert [c] + (rest[0] + ("|" + JoinPipes(rest[1..]))) == ([c] + rest[0]) + ("|" + JoinPipes(rest[1..]));
    }
  }

  lemma JoinOpen(rest: seq<string>)
    requires rest != []
    ensures JoinPipes([""] + rest) == "|" + JoinPipes(rest)
  {
    assert ([""] + rest)[1..] == rest;
  }

  /** A line is its pieces with pipes between them. */
  lemma {:induction false} PiecesRejoin(s: string)
    ensures JoinPipes(SplitPipes(s)) == s
  {
    if s != "" {
      PiecesRejoin(s[1..]);
      assert s == [s[0]] + s[1..];
      if s[0] == '|' {
        JoinOpen(SplitPipes(s[1..]));
      } else {
        JoinPush(s[0], SplitPipes(s[1..]));
      }
    }
  }

  /** None of them contains one. */
  lemma {:induction false} PiecesPipeFree(s: string)
    ensures PipeFree(SplitPipes(s))
  {
    if s != "" {
      PiecesPipeFree(s[1..]);
    }
  }

  lemma {:induction false} FirstPieceIs(a: string, b: string)
    requires '|' !in a
    ensures SplitPipes(a + ("|" + b)) == [a] + SplitPipes(b)
    ensures SplitPipes(a) == [a]
  {
    if a == "" {
      assert ("" + ("|" + b))[1..] == b;
    } else {
      assert (a + ("|" + b))[1..] == a[1..] + ("|" + b);
      FirstPieceIs(a[1..], b);
      assert [a[0]] + a[1..] == a;
    }
  }

  /** And any pieces without pipes are those of the line they make up. */
  lemma {:induction false} PiecesAre(pieces: seq<string>)
    requires pieces != [] && PipeFree(pieces)
    ensures SplitPipes(JoinPipes(pieces)) == pieces
  {
    if |pieces| == 1 {
      FirstPieceIs(pieces[0], "");
    } else {
      PiecesAre(pieces[1..]);
      FirstPieceIs(pieces[0], JoinPipes(pieces[1..]));
    }
  }

  function Colon(there: bool): string {
    if there then ":" else ""
  }

  /** A separator cell: at least one dash, a colon allowed on either side, between spaces. */
  ghost predicate SepShape(piece: string, a: string, left: bool, dashes: string, right: bool, b: string) {
    && Blank(a) && Blank(b) && dashes != "" && All(dashes, '-')
    && piece == a + ((Colon(left) + (dashes + Colon(right))) + b)
  }

  lemma SepTextParts(t: string) returns (left: bool, dashes: string, right: bool)
    requires IsSepText(t)
    ensures dashes != "" && All(dashes, '-') && t == Colon(left) + (dashes + Colon(right))
  {
    left := t != [] && t[0] == ':';
    var front := if left then t[1..] else t;
    right := front != [] && front[|front| - 1] == ':';
    dashes := if right then front[..|front| - 1] else front;
    assert front == dashes + Colon(right);
    assert t == Colon(left) + front;
  }

  lemma SepCellParts(piece: string) returns (a: string, left: bool, dashes: string, right: bool, b: string)
    requires IsSepCell(piece)
    ensures SepShape(piece, a, left, dashes, right, b)
  {
    a, b := TrimParts(piece);
    left, dashes, right := SepTextParts(Trim(piece));
  }

  lemma SepCoreText(left: bool, dashes: string, right: bool)
    requires dashes != "" && All(dashes, '-')
    ensures IsSepText(Colon(left) + (dashes + Colon(right)))
  {
    var t, front := Colon(left) + (dashes + Colon(right)), dashes + Colon(right);
    assert front[0] == dashes[0];
    assert (if left then t[1..] else t) == front;
    assert right ==> front[|front| - 1] == ':' && front[..|front| - 1] == dashes;
    assert !right ==> front == dashes;
  }

  predicate SepChar(c: char) {
    c == ':' || c == '-'
  }

  lemma SepCore(left: bool, dashes: string, right: bool)
    requires dashes != "" && All(dashes, '-')
    ensures var t := Colon(left) + (dashes + Colon(right));
            t != "" && NoSpaceFirst(t) && NoSpaceLast(t) && '|' !in t
  {
    var t := Colon(left) + (dashes + Colon(right));
    forall i | 0 <= i < |t|
      ensures SepChar(t[i])
    {
      assert t[i] in Colon(left) || t[i] in dashes || t[i] in Colon(right);
    }
    assert SepChar(t[0]) && SepChar(t[|t| - 1]);
  }

  lemma SepCellWhole(piece: string, a: string, left: bool, dashes: string, right: bool, b: string)
    requires SepShape(piece, a, left, dashes, right, b)
    ensures IsSepCell(piece)
  {
    SepCoreText(left, dashes, right);
    SepCore(left, dashes, right);
    TrimIs(a, Colon(left) + (dashes + Colon(right)), b);
  }

  lemma Between(a: string, t: string, b: string)
    requires t != "" && !IsSpace(t[0]) && Blank(a) && Blank(b) && '|' !in t
    ensures !Blank(a + (t + b)) && '|' !in a + (t + b)
  {
    var s := a + (t + b);
    assert s[|a|] == (t + b)[0] == t[0];
    forall i | 0 <= i < |s|
      ensures s[i] != '|'
    {
      assert s[i] in a || s[i] in t || s[i] in b;
    }
  }

  lemma SepCellIsInk(piece: string)
    requires IsSepCell(piece)
    ensures !Blank(piece) && '|' !in piece
  {
    var a, left, dashes, right, b := SepCellParts(piece);
    SepCore(left, dashes, right);
    Between(a, Colon(left) + (dashes + Colon(right)), b);
  }

  ghost predicate SepCells(cells: seq<string>) {
    |cells| >= 2 && forall i :: 0 <= i < |cells| ==> IsSepCell(cells[i])
  }

  ghost predicate BlankPieces(pieces: seq<string>) {
    forall p :: p in pieces ==> Blank(p)
  }

  lemma StripLeft(outer: seq<string>, rest: seq<string>)
    requires |outer| <= 1 && BlankPieces(outer) && rest != [] && !Blank(rest[0])
    ensures WithoutLeft(outer + rest) == rest
  {
    if outer == [] {
      assert outer + rest == rest;
    } else {
      assert outer[0] in outer && (outer + rest)[0] == outer[0];
    }
  }

  lemma StripRight(rest: seq<string>, outer: seq<string>)
    requires |outer| <= 1 && BlankPieces(outer) && rest != [] && !Blank(rest[|rest| - 1])
    ensures WithoutRight(rest + outer) == rest
  {
    if outer == [] {
      assert rest + outer == rest;
    } else {
      assert outer[0] in outer && (rest + outer)[|rest|] == outer[0];
    }
  }

  lemma UnstripLeft(pieces: seq<string>) returns (outer: seq<string>)
    ensures |outer| <= 1 && BlankPieces(outer) && pieces == outer + WithoutLeft(pieces)
  {
    outer := if pieces != [] && Blank(pieces[0]) then [pieces[0]] else [];
  }

  lemma UnstripRight(pieces: seq<string>) returns (outer: seq<string>)
    ensures |outer| <= 1 && BlankPieces(outer) && pieces == WithoutRight(pieces) + outer
  {
    outer := if pieces != [] && Blank(pieces[|pieces| - 1]) then [pieces[|pieces| - 1]] else [];
  }

  lemma PipeFreeAppend(p: seq<string>, q: seq<string>)
    requires PipeFree(p) && PipeFree(q)
    ensures PipeFree(p + q)
  {
    forall i | 0 <= i < |p + q|
      ensures '|' !in (p + q)[i]
    {
      assert (p + q)[i] == if i < |p| then p[i] else q[i - |p|];
    }
  }

  lemma BlankPipeFree(pieces: seq<string>)
    requires BlankPieces(pieces)
    ensures PipeFree(pieces)
  {
    forall i | 0 <= i < |pieces|
      ensures '|' !in pieces[i]
    {
      assert pieces[i] in pieces;
    }
  }

  lemma SepPiecesPipeFree(outerLeft: seq<string>, cells: seq<string>, outerRight: seq<string>)
    requires SepCells(cells) && BlankPieces(outerLeft) && BlankPieces(outerRight)
    ensures PipeFree(outerLeft + (cells + outerRight))
  {
    forall i | 0 <= i < |cells|
      ensures '|' !in cells[i]
    {
      SepCellIsInk(cells[i]);
    }
    BlankPipeFree(outerLeft);
    BlankPipeFree(outerRight);
    PipeFreeAppend(cells, outerRight);
    PipeFreeAppend(outerLeft, cells + outerRight);
  }

  /** A separator line is two or more such cells between pipes, with an outer pipe
      allowed on either side. */
  lemma TableSepWhole(outerLeft: seq<string>, cells: seq<string>, outerRight: seq<string>)
    requires SepCells(cells) && |outerLeft| <= 1 && |outerRight| <= 1
    requires BlankPieces(outerLeft) && BlankPieces(outerRight)
    ensures IsTableSep(JoinPipes(outerLeft + (cells + outerRight)))
  {
    SepPiecesPipeFree(outerLeft, cells, outerRight);
    PiecesAre(outerLeft + (cells + outerRight));
    SepCellIsInk(cells[0]);
    SepCellIsInk(cells[|cells| - 1]);
    assert (cells + outerRight)[0] == cells[0];
    StripLeft(outerLeft, cells + outerRight);
    StripRight(cells, outerRight);
  }

  lemma TableSepParts(line: string) returns (outerLeft: seq<string>, cells: seq<string>, outerRight: seq<string>)
    requires IsTableSep(line)
    ensures SepCells(cells) && |outerLeft| <= 1 && |outerRight| <= 1
    ensures BlankPieces(outerLeft) && BlankPieces(outerRight)
    ensures line == JoinPipes(outerLeft + (cells + outerRight))
  {
    PiecesRejoin(line);
    outerLeft := UnstripLeft(SplitPipes(line));
    var left := WithoutLeft(SplitPipes(line));
    outerRight := UnstripRight(left);
    cells := WithoutRight(left);
  }

  function Pipes(n: nat): string {
    seq(n, i => '|')
  }

  lemma {:induction false} StripPipesRight(m: string, n: nat)
    requires m == "" || m[|m| - 1] != '|'
    ensures TrimRight(m + Pipes(n), IsPipe) == m
  {
    var s := m + Pipes(n);
    if n > 0 {
      assert s[..|s| - 1] == m + Pipes(n - 1);
      StripPipesRight(m, n - 1);
    } else {
      assert s == m;
    }
  }

  lemma PipesStripped(m: nat, middle: string, n: nat)
    requires middle != "" && middle[0] != '|' && middle[|middle| - 1] != '|'
    ensures StripPipes(Pipes(m) + (middle + Pipes(n))) == middle
  {
    var rest := middle + Pipes(n);
    assert rest[0] == middle[0];
    PrefixIs(Pipes(m), rest, IsPipe);
    assert (Pipes(m) + rest)[m..] == rest;
    StripPipesRight(middle, n);
  }

  lemma {:induction false} LastOfJoined(pieces: seq<string>)
    requires pieces != [] && pieces[|pieces| - 1] != ""
    ensures var s, last := JoinPipes(pieces), pieces[|pieces| - 1];
            s != "" && s[|s| - 1] == last[|last| - 1]
  {
    if |pieces| > 1 {
      LastOfJoined(pieces[1..]);
    }
  }

  lemma {:induction false} JoinedEnds(pieces: seq<string>)
    requires pieces != [] && pieces[0] != "" && pieces[|pieces| - 1] != ""
    ensures var s, last := JoinPipes(pieces), pieces[|pieces| - 1];
            s != "" && s[0] == pieces[0][0] && s[|s| - 1] == last[|last| - 1]
  {
    if |pieces| > 1 {
      LastOfJoined(pieces[1..]);
    }
  }

  lemma PipesEnds(m: nat, middle: string, n: nat)
    requires middle != "" && (m == 0 ==> NoSpaceFirst(middle)) && (n == 0 ==> NoSpaceLast(middle))
    ensures var t := Pipes(m) + (middle + Pipes(n)); NoSpaceFirst(t) && NoSpaceLast(t)
  {
    var rest := middle + Pipes(n);
    var t := Pipes(m) + rest;
    assert t[0] == if m == 0 then rest[0] else '|';
    assert rest[0] == middle[0];
    assert t[|t| - 1] == rest[|rest| - 1];
    assert rest[|rest| - 1] == if n == 0 then middle[|middle| - 1] else '|';
  }

  lemma CellsOf(a: string, m: nat, middle: string, n: nat, b: string)
    requires Blank(a) && Blank(b) && middle != "" && middle[0] != '|' && middle[|middle| - 1] != '|'
    requires (m == 0 ==> NoSpaceFirst(middle)) && (n == 0 ==> NoSpaceLast(middle))
    ensures StripPipes(Trim(a + ((Pipes(m) + (middle + Pipes(n))) + b))) == middle
  {
    PipesEnds(m, middle, n);
    TrimIs(a, Pipes(m) + (middle + Pipes(n)), b);
    PipesStripped(m, middle, n);
  }

  /** The cells of a table line are the pieces between its pipes, trimmed; spaces around
      the line and any number of outer pipes do not count. */
  lemma CellsAre(a: string, m: nat, pieces: seq<string>, n: nat, b: string)
    requires Blank(a) && Blank(b) && pieces != [] && PipeFree(pieces)
    requires pieces[0] != "" && pieces[|pieces| - 1] != ""
    requires m == 0 ==> NoSpaceFirst(pieces[0])
    requires n == 0 ==> NoSpaceLast(pieces[|pieces| - 1])
    ensures Cells(a + ((Pipes(m) + (JoinPipes(pieces) + Pipes(n))) + b)) == TrimAll(pieces)
  {
    var first, last := pieces[0], pieces[|pieces| - 1];
    JoinedEnds(pieces);
    assert first[0] in first && last[|last| - 1] in last;
    CellsOf(a, m, JoinPipes(pieces), n, b);
    PiecesAre(pieces);
  }

  // ---- Which pattern claims a line ----

  /** The first character that is not a space. */
  ghost predicate Inked(line: string, c: char) {
    Indent(line) < |line| && line[Indent(line)] == c
  }

  lemma InkAtStart(line: string)
    requires line != "" && !IsSpace(line[0])
    ensures Indent(line) == 0 && Inked(line, line[0])
  {
  }

  lemma FenceInk(line: string)
    requires IsFence(line)
    ensures Inked(line, '`') && !HasPipe(line)
  {
    var word, tail := FenceParts(line);
    assert line[0] == '`';
    InkAtStart(line);
    forall i | 0 <= i < |line|
      ensures line[i] != '|'
    {
      assert line[i] in "```" || line[i] in word || line[i] in tail;
    }
  }

  lemma RuleInk(line: string)
    requires IsRule(line)
    ensures Inked(line, '-') || Inked(line, '*') || Inked(line, '_')
    ensures !HasPipe(line) && !IsBullet(line)
  {
    var a, marks, b := RuleParts(line);
    var rest := marks + b;
    assert rest[0] == marks[0] && rest[1] == marks[1] == marks[0] && !IsSpace(marks[0]);
    PrefixIs(a, rest, IsSpace);
    assert Indent(line) == |a| && line[|a|] == rest[0] && line[|a| + 1] == rest[1];
    forall i | 0 <= i < |line|
      ensures line[i] != '|'
    {
      assert line[i] in a || line[i] in marks || line[i] in b;
    }
  }

  lemma OtherInk(line: string)
    ensures IsHeading(line) ==> Inked(line, '#')
    ensures IsQuote(line) ==> Inked(line, '>')
    ensures IsBullet(line) ==> Inked(line, '-') || Inked(line, '*')
    ensures IsNumbered(line) ==> Indent(line) < |line| && IsDigit(line[Indent(line)])
    ensures Blank(line) ==> Indent(line) == |line|
  {
    if IsHeading(line) {
      assert line[0] == '#';
      InkAtStart(line);
    }
    if IsQuote(line) {
      InkAtStart(line);
    }
  }

  /** No line matches two of the patterns for fences, rules, headings, quotes, bullets and
      numbered items, so only the start of a table can compete with one of them: it comes
      after headings, and before quotes and list items. */
  lemma OnlyTablesCompete(lines: seq<string>, i: nat)
    requires i < |lines|
    ensures var line, kind, table := lines[i], KindAt(MARKDOWN, lines, i), TableStart(MARKDOWN, lines, i);
            && (kind.Fenced? <==> IsFence(line))
            && (kind == Ruled <==> IsRule(line))
            && (kind == Headed <==> IsHeading(line))
            && (kind == Tabled <==> table && !IsHeading(line))
            && (kind == Quoted <==> IsQuote(line) && !table)
            && (kind == Bulleted <==> IsBullet(line) && !table)
            && (kind == Counted <==> IsNumbered(line) && !table)
  {
    var line := lines[i];
    OtherInk(line);
    if IsFence(line) {
      FenceInk(line);
    }
    if IsRule(line) {
      RuleInk(line);
    }
  }

  // ---- The text of the blocks ----

  /** Lines are joined with one space between neighbours. */
  lemma {:induction false} JoinAppend(a: seq<string>, b: seq<string>)
    requires a != [] && b != []
    ensures Join(a + b) == Join(a) + " " + Join(b)
    ensures |b| == 1 ==> Join(b) == b[0]
  {
    assert (a + b)[..|a + b| - 1] == a + b[..|b| - 1];
    if |b| > 1 {
      JoinAppend(a, b[..|b| - 1]);
    } else {
      assert a + b[..0] == a;
    }
  }

  /** A paragraph's text starts with its first line, and goes on with the others. */
  lemma ParagraphText(r: Rules, lines: seq<string>, item: Item)
    requires Justified(r, lines, item) && item.kind == Prose
    ensures var i, e := item.start, item.end;
            && (e == i + 1 ==> Emit(r, lines, item) == [Paragraph(lines[i])])
            && (e > i + 1 ==> Emit(r, lines, item) == [Paragraph(lines[i] + " " + Join(lines[i + 1..e]))])
  {
    var i, e := item.start, item.end;
    if e > i + 1 {
      assert lines[i..e] == [lines[i]] + lines[i + 1..e];
      JoinAppend([lines[i]], lines[i + 1..e]);
    }
  }

  lemma {:induction false} ContentsAt(r: Rules, lines: seq<string>, k: nat)
    requires (forall i :: 0 <= i < |lines| ==> r.isQuote(lines[i])) && k < |lines|
    ensures Contents(r, lines)[k] == r.quoteContent(lines[k])
  {
    if k < |lines| - 1 {
      ContentsAt(r, lines[..|lines| - 1], k);
    }
  }

  /** A quote's lines lose their marks and are joined likewise. */
  lemma QuotedText(r: Rules, lines: seq<string>, item: Item, k: nat)
    requires Justified(r, lines, item) && item.kind == Quoted && k < item.end - item.start
    ensures Quotes(r, lines, item.start, item.end)
    ensures var texts := Contents(r, lines[item.start..item.end]);
            && |texts| == item.end - item.start && texts[k] == r.quoteContent(lines[item.start + k])
            && Emit(r, lines, item) == [Quote(Join(texts))]
  {
    ContentsAt(r, lines[item.start..item.end], k);
    assert lines[item.start..item.end][k] == lines[item.start + k];
  }

  lemma HeadingEmitted(lines: seq<string>, i: nat, hashes: string, gap: string, text: string, tail: string)
    requires i < |lines| && KindAt(MARKDOWN, lines, i) == Headed && lines[i] == hashes + (gap + (text + tail))
    requires 1 <= |hashes| <= 6 && All(hashes, '#') && gap != "" && Blank(gap) && Blank(tail)
    requires NoSpaceFirst(text) && NoSpaceLast(text)
    ensures Emit(MARKDOWN, lines, Item(Headed, i, i + 1)) == [Heading(|hashes|, text)]
  {
    HeadingWhole(hashes, gap, text, tail);
  }

  /** A list item is nested from two spaces of indentation on. */
  lemma BulletEmitted(lines: seq<string>, i: nat, pre: string, mark: char, gap: string, content: string)
    requires i < |lines| && KindAt(MARKDOWN, lines, i) == Bulleted && lines[i] == pre + ([mark] + (gap + content))
    requires Blank(pre) && (mark == '-' || mark == '*') && gap != "" && Blank(gap) && NoSpaceFirst(content)
    ensures Emit(MARKDOWN, lines, Item(Bulleted, i, i + 1)) == [Bullet(|pre| >= 2, content)]
  {
    BulletWhole(pre, mark, gap, content);
  }

  lemma NumberedEmitted(lines: seq<string>, i: nat, pre: string, digits: string, gap: string, content: string)
    requires i < |lines| && KindAt(MARKDOWN, lines, i) == Counted
    requires lines[i] == pre + (digits + ("." + (gap + content)))
    requires Blank(pre) && AllDigits(digits) && gap != "" && Blank(gap) && NoSpaceFirst(content)
    ensures Emit(MARKDOWN, lines, Item(Counted, i, i + 1)) == [Numbered(|pre| >= 2, content)]
  {
    NumberedWhole(pre, digits, gap, content);
  }
}
