/** Paths as text: parsing `options[0].text` into property names, expanding the
    `[*]` wildcard over a source document, and the edits of the verification
    screen that go through such paths. */
module PathText {
  import opened Prelude
  import opened Decimal
  import opened JsonLens

  // ---- Parsing ----

  /** `s` starts with a bracketed index such as `[12]`. */
  predicate StartsWithIndex(s: string) {
    && s != [] && s[0] == '['
    && var n := DigitRun(s[1..]);
       n > 0 && 1 + n < |s| && s[1 + n] == ']'
  }

  /** Every `[digits]` rewritten to `.digits`, scanning from the left. */
  function DotIndexes(s: string): string {
    if s == [] then []
    else if StartsWithIndex(s) then
      var n := DigitRun(s[1..]);
      "." + s[1..1 + n] + DotIndexes(s[n + 2..])
    else [s[0]] + DotIndexes(s[1..])
  }

  function SplitDots(s: string): (pieces: seq<string>)
    ensures pieces != []
  {
    if s == [] then [[]]
    else
      var rest := SplitDots(s[1..]);
      if s[0] == '.' then [[]] + rest else [[s[0]] + rest[0]] + rest[1..]
  }

  function NonEmpty(pieces: seq<string>): Path {
    if pieces == [] then []
    else (if pieces[0] == [] then [] else [pieces[0]]) + NonEmpty(pieces[1..])
  }

  function Parse(text: string): Path {
    NonEmpty(SplitDots(DotIndexes(text)))
  }

  // ---- How parsing splits ----

  lemma StartsAppend(a: string, b: string)
    requires a != [] && (b == [] || (!IsDigit(b[0]) && b[0] != ']'))
    ensures StartsWithIndex(a + b) <==> StartsWithIndex(a)
    ensures DigitRun((a + b)[1..]) == DigitRun(a[1..])
  {
    assert (a + b)[1..] == a[1..] + b;
    DigitRunAppend(a[1..], b);
  }

  lemma Reassociate<T>(a: seq<T>, b: seq<T>, c: seq<T>)
    ensures a + (b + c) == (a + b) + c
  {
  }

  lemma DotIndexesIndex(d: string, tail: string)
    requires AllDigits(d)
    ensures DotIndexes("[" + d + "]" + tail) == "." + d + DotIndexes(tail)
  {
    var s := "[" + d + "]" + tail;
    var rest := "]" + tail;
    assert s[1..] == d + rest;
    DigitsOnly(d);
    DigitRunAppend(d, rest);
    assert s[1 + |d|] == ']';
    assert s[1..1 + |d|] == d;
    assert s[|d| + 2..] == tail;
  }

  lemma DotIndexesAfterIndex(d: string, rest: string, b: string)
    requires AllDigits(d) && DotIndexes(rest + b) == DotIndexes(rest) + DotIndexes(b)
    ensures DotIndexes("[" + d + "]" + (rest + b)) == DotIndexes("[" + d + "]" + rest) + DotIndexes(b)
  {
    DotIndexesIndex(d, rest);
    DotIndexesIndex(d, rest + b);
    Reassociate("." + d, DotIndexes(rest), DotIndexes(b));
  }

  /** A text that starts with an index, taken apart. */
  lemma SplitIndex(a: string) returns (d: string, rest: string)
    requires StartsWithIndex(a)
    ensures AllDigits(d) && a == "[" + d + "]" + rest && |rest| < |a|
  {
    var n := DigitRun(a[1..]);
    d, rest := a[1..1 + n], a[n + 2..];
    assert a == [a[0]] + d + [a[1 + n]] + rest;
  }

  lemma DotIndexesChar(c: char, rest: string)
    requires !StartsWithIndex([c] + rest)
    ensures DotIndexes([c] + rest) == [c] + DotIndexes(rest)
  {
    assert ([c] + rest)[1..] == rest;
  }

  lemma DotIndexesAfterChar(c: char, rest: string, b: string)
    requires !StartsWithIndex([c] + rest) && !StartsWithIndex([c] + (rest + b))
    requires DotIndexes(rest + b) == DotIndexes(rest) + DotIndexes(b)
    ensures DotIndexes([c] + (rest + b)) == DotIndexes([c] + rest) + DotIndexes(b)
  {
    DotIndexesChar(c, rest);
    DotIndexesChar(c, rest + b);
    Reassociate([c], DotIndexes(rest), DotIndexes(b));
  }

  /** Text that cannot complete a bracketed index begun before it is parsed on its own. */
  lemma {:induction false} DotIndexesAppend(a: string, b: string)
    requires b == [] || (!IsDigit(b[0]) && b[0] != ']')
    ensures DotIndexes(a + b) == DotIndexes(a) + DotIndexes(b)
    decreases |a|
  {
    if a == [] {
      assert a + b == b;
    } else if StartsWithIndex(a) {
      var d, rest := SplitIndex(a);
      DotIndexesAppend(rest, b);
      DotIndexesAfterIndex(d, rest, b);
      Reassociate("[" + d + "]", rest, b);
    } else {
      DotIndexesAppend(a[1..], b);
      StartsAppend(a, b);
      assert a == [a[0]] + a[1..] && a + b == [a[0]] + (a[1..] + b);
      DotIndexesAfterChar(a[0], a[1..], b);
    }
  }

  lemma {:induction false} SplitAtDot(a: string, b: string)
    ensures SplitDots(a + "." + b) == SplitDots(a) + SplitDots(b)
  {
    if a == [] {
      assert (a + "." + b)[1..] == b;
    } else {
      assert (a + "." + b)[1..] == a[1..] + "." + b;
      SplitAtDot(a[1..], b);
    }
  }

  lemma {:induction false} SplitDotless(a: string, b: string)
    requires forall i :: 0 <= i < |a| ==> a[i] != '.'
    ensures SplitDots(a + b) == [a + SplitDots(b)[0]] + SplitDots(b)[1..]
  {
    var pieces := SplitDots(b);
    if a == [] {
      assert a + b == b && a + pieces[0] == pieces[0];
      assert pieces == [pieces[0]] + pieces[1..];
    } else {
      assert (a + b)[1..] == a[1..] + b;
      SplitDotless(a[1..], b);
      assert a + SplitDots(b)[0] == [a[0]] + (a[1..] + SplitDots(b)[0]);
    }
  }

  lemma {:induction false} NonEmptyAppend(a: seq<string>, b: seq<string>)
    ensures NonEmpty(a + b) == NonEmpty(a) + NonEmpty(b)
  {
    if a == [] {
      assert a + b == b;
    } else {
      assert (a + b)[1..] == a[1..] + b;
      NonEmptyAppend(a[1..], b);
    }
  }

  /** What may follow an index for it to stand as a segment of its own. */
  predicate TailOk(tail: string) {
    tail == [] || tail[0] == '.' || StartsWithIndex(tail)
  }

  lemma FirstPiece(r: string)
    ensures r != [] && r[0] != '.' ==> SplitDots(r)[0] != []
  {
  }

  lemma DotMiddle(h: string, d: string, r: string)
    ensures h + ("." + d + r) == h + "." + (d + r)
  {
  }

  lemma ParseUpToIndex(head: string, d: string, tail: string)
    requires AllDigits(d)
    ensures Parse(head + "[" + d + "]" + tail) == Parse(head) + NonEmpty(SplitDots(d + DotIndexes(tail)))
  {
    var indexed := "[" + d + "]" + tail;
    assert head + "[" + d + "]" + tail == head + indexed;
    DotIndexesAppend(head, indexed);
    DotIndexesIndex(d, tail);
    var h, r := DotIndexes(head), DotIndexes(tail);
    DotMiddle(h, d, r);
    SplitAtDot(h, d + r);
    NonEmptyAppend(SplitDots(h), SplitDots(d + r));
  }

  lemma Cancel(a: Path, d: string, x: Path, t: Path)
    ensures a + x == a + [d] + t <==> x == [d] + t
  {
    Reassociate(a, [d], t);
    assert (a + x)[|a|..] == x && (a + ([d] + t))[|a|..] == [d] + t;
  }

  /** An index written between any head and a tail parses to head, index, tail:
      exactly when the tail is empty or begins a new segment. */
  lemma ParseIndexed(head: string, d: string, tail: string)
    requires AllDigits(d)
    ensures Parse(head + "[" + d + "]" + tail) == Parse(head) + [d] + Parse(tail) <==> TailOk(tail)
  {
    ParseUpToIndex(head, d, tail);
    SplitDotless(d, DotIndexes(tail));
    ParseAfterIndex(d, tail);
    Cancel(Parse(head), d, NonEmpty(SplitDots(d + DotIndexes(tail))), Parse(tail));
  }

  lemma ParseAfterIndex(d: string, tail: string)
    requires AllDigits(d)
    requires SplitDots(d + DotIndexes(tail)) == [d + SplitDots(DotIndexes(tail))[0]] + SplitDots(DotIndexes(tail))[1..]
    ensures NonEmpty(SplitDots(d + DotIndexes(tail))) == [d] + Parse(tail) <==> TailOk(tail)
  {
    var r := DotIndexes(tail);
    var pieces := SplitDots(r);
    assert pieces == [pieces[0]] + pieces[1..];
    if TailOk(tail) {
      assert r == [] || r[0] == '.';
      assert pieces[0] == [];
      assert d + pieces[0] == d;
    } else {
      assert r[0] == tail[0];
      FirstPiece(r);
      assert |NonEmpty(SplitDots(d + r))| == 1 + |NonEmpty(pieces[1..])|;
      assert |Parse(tail)| == 1 + |NonEmpty(pieces[1..])|;
    }
  }

  /** A property name after a dot parses to one more segment. */
  lemma ParseNamed(head: string, name: string)
    requires name != [] && forall i :: 0 <= i < |name| ==> name[i] != '.' && name[i] != '['
    ensures Parse(head + "." + name) == Parse(head) + [name]
    ensures Parse(name) == [name]
  {
    DotIndexesPlain(name);
    DotIndexesPlain("." + name);
    assert head + "." + name == head + ("." + name);
    DotIndexesAppend(head, "." + name);
    assert DotIndexes(head) + ("." + name) == DotIndexes(head) + "." + name;
    SplitAtDot(DotIndexes(head), name);
    NonEmptyAppend(SplitDots(DotIndexes(head)), SplitDots(name));
    SplitDotless(name, []);
    assert name + [] == name;
    assert SplitDots([]) == [[]];
    assert SplitDots(name) == [name];
    assert NonEmpty([name]) == [name];
  }

  lemma {:induction false} DotIndexesPlain(s: string)
    requires forall i :: 0 <= i < |s| ==> s[i] != '['
    ensures DotIndexes(s) == s
  {
    if s != [] {
      DotIndexesPlain(s[1..]);
    }
  }

  // ---- Printing canonical paths ----

  datatype Segment = Name(name: string) | Index(index: nat)

  function Key(seg: Segment): string {
    match seg
    case Name(name) => name
    case Index(index) => Dec(index)
  }

  predicate Plain(seg: Segment) {
    seg.Name? ==> seg.name != [] && forall i :: 0 <= i < |seg.name| ==> seg.name[i] != '.' && seg.name[i] != '['
  }

  function Keys(segs: seq<Segment>): (path: Path)
    ensures |path| == |segs| && forall i :: 0 <= i < |segs| ==> path[i] == Key(segs[i])
  {
    seq(|segs|, i requires 0 <= i < |segs| => Key(segs[i]))
  }

  function Print(segs: seq<Segment>): string {
    if segs == [] then ""
    else
      var front, last := segs[..|segs| - 1], segs[|segs| - 1];
      match last
      case Index(index) => Print(front) + "[" + Dec(index) + "]" + ""
      case Name(name) => if front == [] then name else Print(front) + "." + name
  }

  /** Every path in the customary notation parses back to its segments. */
  lemma {:induction false} ParsePrint(segs: seq<Segment>)
    requires forall seg :: seg in segs ==> Plain(seg)
    ensures Parse(Print(segs)) == Keys(segs)
  {
    if segs != [] {
      var front, last := segs[..|segs| - 1], segs[|segs| - 1];
      assert segs == front + [last] && last in segs;
      assert forall seg :: seg in front ==> seg in segs;
      ParsePrint(front);
      assert Keys(segs) == Keys(front) + [Key(last)];
      match last
      case Index(index) =>
        DecCanonical(index);
        ParseIndexed(Print(front), Dec(index), "");
        assert Parse("") == [];
      case Name(name) => ParseNamed(Print(front), name);
    }
  }

  // ---- Walking ----

  /** The loop of `getAtPath`. */
  method GetAtPath(obj: Json, path: string) returns (r: Json)
    ensures r == Get(obj, Parse(path))
  {
    var parts := Parse(path);
    var cur := obj;
    for i := 0 to |parts|
      invariant Get(obj, parts) == Get(cur, parts[i..])
    {
      if !cur.Arr? && !cur.Obj? {
        GetMissing(cur, parts[i..]);
        return Undefined;
      }
      cur := Prop(cur, parts[i]);
      assert parts[i..][1..] == parts[i + 1..];
    }
    r := cur;
  }

  // ---- Wildcards ----

  const STAR: string := "[*]"

  predicate StarAt(path: string, k: nat) {
    k + 3 <= |path| && path[k..k + 3] == STAR
  }

  predicate HasLineBreak(path: string) {
    exists i :: 0 <= i < |path| &&
      (path[i] == '\n' || path[i] == '\r' || path[i] == '\U{2028}' || path[i] == '\U{2029}')
  }

  function LastStarBelow(path: string, n: nat): (star: Option<nat>)
    requires n <= |path|
    ensures star.Some? ==> star.value < n && StarAt(path, star.value)
  {
    if n == 0 then None else if StarAt(path, n - 1) then Some(n - 1) else LastStarBelow(path, n - 1)
  }

  /** Where the wildcard pattern matches: greedily, so at the last `[*]`; a dot does not match a line break. */
  function Wildcard(path: string): (star: Option<nat>)
    ensures star.Some? ==> StarAt(path, star.value)
  {
    if HasLineBreak(path) then None else LastStarBelow(path, |path|)
  }

  lemma {:induction false} LastStarIsLast(path: string, n: nat)
    requires n <= |path|
    ensures match LastStarBelow(path, n)
            case None => forall k: nat :: k < n ==> !StarAt(path, k)
            case Some(k) => forall m: nat :: k < m < n ==> !StarAt(path, m)
  {
    if n > 0 && !StarAt(path, n - 1) {
      LastStarIsLast(path, n - 1);
    }
  }

  function Indexed(head: string, i: nat, tail: string): string {
    head + "[" + Dec(i) + "]" + tail
  }

  function IndexedUpTo(head: string, tail: string, n: nat): (paths: seq<string>)
    ensures |paths| == n && forall i :: 0 <= i < n ==> paths[i] == Indexed(head, i, tail)
  {
    seq(n, i requires 0 <= i < n => Indexed(head, i, tail))
  }

  function Expand(path: string, source: Json): seq<string> {
    match Wildcard(path)
    case None => [path]
    case Some(k) =>
      var head, tail := path[..k], path[k + 3..];
      var arr := Get(source, Parse(head));
      IndexedUpTo(head, tail, if arr.Arr? then |arr.items| else 0)
  }

  function ExpandAll(paths: seq<string>, source: Json): seq<string> {
    if paths == [] then [] else ExpandAll(paths[..|paths| - 1], source) + Expand(paths[|paths| - 1], source)
  }

  /** One pass of `expandPaths`: push the path itself, or one concrete path per index. */
  method PushExpansion(before: seq<string>, path: string, source: Json) returns (out: seq<string>)
    ensures out == before + Expand(path, source)
    ensures Wildless(path) ==> out == before + [path]
  {
    WildcardFound(path);
    match Wildcard(path)
    case None =>
      return before + [path];
    case Some(k) =>
      var head, tail := path[..k], path[k + 3..];
      var arr := GetAtPath(source, head);
      var len := if arr.Arr? then |arr.items| else 0;
      out := before;
      for i := 0 to len
        invariant out == before + IndexedUpTo(head, tail, i)
      {
        assert IndexedUpTo(head, tail, i + 1) == IndexedUpTo(head, tail, i) + [Indexed(head, i, tail)];
        out := out + [Indexed(head, i, tail)];
      }
  }

  method ExpandPaths(paths: seq<string>, source: Json) returns (out: seq<string>)
    ensures out == ExpandAll(paths, source)
  {
    out := [];
    for p := 0 to |paths|
      invariant out == ExpandAll(paths[..p], source)
    {
      assert paths[..p + 1][..p] == paths[..p];
      out := PushExpansion(out, paths[p], source);
    }
    assert paths[..|paths|] == paths;
  }

  lemma {:induction false} LastStarFound(path: string, n: nat)
    requires n <= |path|
    ensures LastStarBelow(path, n).Some? <==> exists k: nat :: k < n && StarAt(path, k)
  {
    if n > 0 {
      LastStarFound(path, n - 1);
    }
  }

  /** The three characters of the wildcard stand at `k`. */
  predicate BracketedStar(path: string, k: nat) {
    k + 3 <= |path| && path[k] == '[' && path[k + 1] == '*' && path[k + 2] == ']'
  }

  lemma StarIsBracketed(path: string, k: nat)
    ensures StarAt(path, k) <==> BracketedStar(path, k)
  {
    if k + 3 <= |path| {
      assert path[k..k + 3] == [path[k], path[k + 1], path[k + 2]];
    }
  }

  /** A wildcard is found if and only if `[*]` occurs and the pattern is a single line. */
  lemma WildcardFound(path: string)
    ensures Wildcard(path).Some? <==>
              && (exists k: nat :: BracketedStar(path, k))
              && '\n' !in path && '\r' !in path && '\U{2028}' !in path && '\U{2029}' !in path
  {
    LastStarFound(path, |path|);
    forall k: nat
      ensures StarAt(path, k) <==> BracketedStar(path, k)
    {
      StarIsBracketed(path, k);
    }
  }

  /** No wildcard is found: none is there, or a line break keeps the pattern from matching. */
  ghost predicate Wildless(path: string) {
    || (forall k: nat :: !BracketedStar(path, k))
    || '\n' in path || '\r' in path || '\U{2028}' in path || '\U{2029}' in path
  }

  /** Such a pattern stands for itself. */
  lemma PlainPatternKept(path: string, source: Json)
    requires Wildless(path)
    ensures Expand(path, source) == [path]
  {
    WildcardFound(path);
  }

  lemma {:induction false} ExpandAllAppend(a: seq<string>, b: seq<string>, source: Json)
    ensures ExpandAll(a + b, source) == ExpandAll(a, source) + ExpandAll(b, source)
  {
    if b == [] {
      assert a + b == a;
    } else {
      var front := b[..|b| - 1];
      assert (a + b)[..|a + b| - 1] == a + front;
      ExpandAllAppend(a, front, source);
      Reassociate(ExpandAll(a, source), ExpandAll(front, source), Expand(b[|b| - 1], source));
    }
  }

  lemma ExpandOne(path: string, source: Json)
    ensures ExpandAll([path], source) == Expand(path, source)
  {
    assert [path][..0] == [] && ExpandAll([], source) == [];
  }

  /** The expansions come in the order of the patterns. */
  lemma PatternInPlace(paths: seq<string>, p: nat, source: Json)
    requires p < |paths|
    ensures ExpandAll(paths, source)
         == ExpandAll(paths[..p], source) + (Expand(paths[p], source) + ExpandAll(paths[p + 1..], source))
  {
    var front, path, rest := paths[..p], paths[p], paths[p + 1..];
    assert paths == front + ([path] + rest);
    ExpandAllAppend(front, [path] + rest, source);
    ExpandAllAppend([path], rest, source);
    ExpandOne(path, source);
  }

  /** So a plain pattern comes out at its place. */
  lemma PlainPatternInPlace(paths: seq<string>, p: nat, source: Json)
    requires p < |paths| && Wildless(paths[p])
    ensures ExpandAll(paths, source)
         == ExpandAll(paths[..p], source) + ([paths[p]] + ExpandAll(paths[p + 1..], source))
  {
    PatternInPlace(paths, p, source);
    PlainPatternKept(paths[p], source);
  }

  lemma ExpandedPathsParse(path: string, source: Json, i: nat)
    requires Wildcard(path).Some? && i < |Expand(path, source)| && TailOk(path[Wildcard(path).value + 3..])
    ensures var k := Wildcard(path).value;
            Parse(Expand(path, source)[i]) == Parse(path[..k]) + ([Dec(i)] + Parse(path[k + 3..]))
  {
    var k := Wildcard(path).value;
    var head, tail := path[..k], path[k + 3..];
    assert Expand(path, source)[i] == Indexed(head, i, tail);
    DecCanonical(i);
    ParseIndexed(head, Dec(i), tail);
    Reassociate(Parse(head), [Dec(i)], Parse(tail));
  }

  lemma ExpandedPathResolves(path: string, source: Json, i: nat)
    requires Wildcard(path).Some? && i < |Expand(path, source)| && TailOk(path[Wildcard(path).value + 3..])
    ensures var k := Wildcard(path).value;
            var arr := Get(source, Parse(path[..k]));
            && arr.Arr? && i < |arr.items|
            && Get(source, Parse(Expand(path, source)[i])) == Get(arr.items[i], Parse(path[k + 3..]))
  {
    var k := Wildcard(path).value;
    ExpandedPathsParse(path, source, i);
    ValDec(i);
    var below := [Dec(i)] + Parse(path[k + 3..]);
    GetConcat(source, Parse(path[..k]), below);
    assert below[0] == Dec(i) && below[1..] == Parse(path[k + 3..]);
  }

  /** A wildcard pattern expands, in order, to one concrete path per element of the
      source array; each resolves to that element and the rest of the pattern below it,
      provided that rest begins a new segment. */
  lemma ExpandedPathsResolve(path: string, source: Json)
    requires Wildcard(path).Some?
    ensures var k := Wildcard(path).value;
            var head, tail := path[..k], path[k + 3..];
            var arr := Get(source, Parse(head));
            && path == head + STAR + tail
            && |Expand(path, source)| == (if arr.Arr? then |arr.items| else 0)
            && forall i :: 0 <= i < |Expand(path, source)| ==>
                 && Expand(path, source)[i] == head + "[" + Dec(i) + "]" + tail
                 && (TailOk(tail) ==> Get(source, Parse(Expand(path, source)[i])) == Get(arr.items[i], Parse(tail)))
  {
    var k := Wildcard(path).value;
    forall i | 0 <= i < |Expand(path, source)| && TailOk(path[k + 3..])
      ensures Get(source, Parse(Expand(path, source)[i]))
           == Get(Get(source, Parse(path[..k])).items[i], Parse(path[k + 3..]))
    {
      ExpandedPathResolves(path, source, i);
    }
  }

  lemma {:induction false} GetConcat(j: Json, p: Path, q: Path)
    ensures Get(j, p + q) == Get(Get(j, p), q)
    decreases |p|
  {
    if p == [] {
      assert p + q == q;
    } else {
      assert (p + q)[1..] == p[1..] + q;
      GetConcat(Prop(j, p[0]), p[1..], q);
    }
  }

  /** Two elements of one expansion never disturb each other. */
  lemma ExpandedPathsApart(path: string, source: Json, i: nat, j: nat)
    requires Wildcard(path).Some? && i < |Expand(path, source)| && j < |Expand(path, source)| && i != j
    requires TailOk(path[Wildcard(path).value + 3..])
    ensures Apart(Parse(Expand(path, source)[i]), Parse(Expand(path, source)[j]))
  {
    ExpandedPathsParse(path, source, i);
    ExpandedPathsParse(path, source, j);
    ValDec(i);
    ValDec(j);
    var k := Wildcard(path).value;
    ApartBelow(Parse(path[..k]), [Dec(i)] + Parse(path[k + 3..]), [Dec(j)] + Parse(path[k + 3..]));
  }

  lemma {:induction false} ApartBelow(head: Path, p: Path, q: Path)
    requires Apart(p, q)
    ensures Apart(head + p, head + q)
    decreases |head|
  {
    if head == [] {
      assert head + p == p && head + q == q;
    } else {
      assert (head + p)[1..] == head[1..] + p && (head + q)[1..] == head[1..] + q;
      ApartBelow(head[1..], p, q);
    }
  }

  ghost function ExpandedPaths(path: string, source: Json): set<Path> {
    set i | 0 <= i < |Expand(path, source)| :: Parse(Expand(path, source)[i])
  }

  /** So all of them can be edited together in any payload in which each is addressable. */
  lemma ExpandedPathsEditable(path: string, source: Json, payload: Json)
    requires Wildcard(path).Some? && TailOk(path[Wildcard(path).value + 3..])
    requires forall p :: p in ExpandedPaths(path, source) ==> Addressable(payload, p)
    ensures Editable(payload, ExpandedPaths(path, source))
  {
    forall i | 0 <= i < |Expand(path, source)|
      ensures Parse(Expand(path, source)[i]) != []
    {
      ExpandedPathsParse(path, source, i);
    }
    forall p, q | p in ExpandedPaths(path, source) && q in ExpandedPaths(path, source)
      ensures SameOrAgree(payload, p, q)
    {
      var i :| 0 <= i < |Expand(path, source)| && p == Parse(Expand(path, source)[i]);
      var j :| 0 <= j < |Expand(path, source)| && q == Parse(Expand(path, source)[j]);
      if i != j {
        ExpandedPathsApart(path, source, i, j);
        ApartAgree(payload, p, q);
      }
    }
  }
}
