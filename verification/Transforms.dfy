/** The payload rewrites of the seed migration whose meaning is not obvious from
    the output: blanks numbered in a template, and pairs, orders and assignments
    re-expressed through generated ids. */
module Transforms {
  import opened Prelude
  import opened Decimal

  // ---- Blanks in a template ----

  const BLANK: string := "[BLANK]"

  predicate BlankAt(t: string, i: nat) {
    i + |BLANK| <= |t| && t[i..i + |BLANK|] == BLANK
  }

  function Marker(n: nat): string {
    "{{" + Dec(n) + "}}"
  }

  /** The template with its blanks replaced from the left by markers numbered from `n + 1`. */
  function Mark(t: string, n: nat): string
    decreases |t|
  {
    if t == "" then ""
    else if BlankAt(t, 0) then Marker(n + 1) + Mark(t[|BLANK|..], n + 1)
    else [t[0]] + Mark(t[1..], n)
  }

  function Blanks(t: string): nat
    decreases |t|
  {
    if t == "" then 0
    else if BlankAt(t, 0) then 1 + Blanks(t[|BLANK|..])
    else Blanks(t[1..])
  }

  /** One step of the marking, `i` characters into the template. */
  lemma MarkStep(t: string, i: nat, n: nat)
    requires i < |t|
    ensures BlankAt(t, i) ==> Mark(t[i..], n) == Marker(n + 1) + Mark(t[i + |BLANK|..], n + 1)
    ensures !BlankAt(t, i) ==> Mark(t[i..], n) == [t[i]] + Mark(t[i + 1..], n)
  {
    var rest := t[i..];
    assert rest[1..] == t[i + 1..];
    if i + |BLANK| <= |t| {
      assert rest[0..|BLANK|] == t[i..i + |BLANK|] && rest[|BLANK|..] == t[i + |BLANK|..];
    }
  }

  lemma Associate(a: string, b: string, c: string)
    ensures a + (b + c) == (a + b) + c
  {
  }

  /** `re.sub` with a replacement function that bumps a counter. */
  method BlanksToMarkers(template: string) returns (out: string)
    ensures out == Mark(template, 0)
  {
    out := "";
    var n, i := 0, 0;
    while i < |template|
      invariant i <= |template|
      invariant Mark(template, 0) == out + Mark(template[i..], n)
    {
      MarkStep(template, i, n);
      if i + |BLANK| <= |template| && template[i..i + |BLANK|] == BLANK {
        Associate(out, Marker(n + 1), Mark(template[i + |BLANK|..], n + 1));
        n := n + 1;
        out := out + Marker(n);
        i := i + |BLANK|;
      } else {
        Associate(out, [template[i]], Mark(template[i + 1..], n));
        out := out + [template[i]];
        i := i + 1;
      }
    }
  }

  lemma OpensOnce(s: string, k: nat, j: nat)
    requires k < j < k + |BLANK| && j < |s| && s[j] == '['
    ensures !BlankAt(s, k)
  {
    if k + |BLANK| <= |s| {
      assert s[k..k + |BLANK|][j - k] == s[j];
    }
  }

  ghost predicate BlankFree(a: string) {
    forall k: nat :: !BlankAt(a, k)
  }

  lemma BlankFreeTail(a: string)
    requires a != "" && BlankFree(a)
    ensures BlankFree(a[1..])
  {
    forall k: nat
      ensures !BlankAt(a[1..], k)
    {
      if k + |BLANK| <= |a| - 1 {
        assert a[1..][k..k + |BLANK|] == a[k + 1..k + 1 + |BLANK|];
        assert !BlankAt(a, k + 1);
      }
    }
  }

  /** What precedes a blank does not complete one with its first characters. */
  lemma NoBlankAcross(a: string, rest: string)
    requires a != "" && BlankFree(a)
    ensures !BlankAt(a + (BLANK + rest), 0)
  {
    var s := a + (BLANK + rest);
    if |a| >= |BLANK| {
      assert s[0..|BLANK|] == a[0..|BLANK|];
      assert !BlankAt(a, 0);
    } else {
      OpensOnce(s, 0, |a|);
    }
  }

  lemma BlankFirst(rest: string, n: nat)
    ensures var s := "" + (BLANK + rest);
            Mark(s, n) == "" + (Marker(n + 1) + Mark(rest, n + 1)) && Blanks(s) == 1 + Blanks(rest)
  {
    var s := "" + (BLANK + rest);
    assert s[0..|BLANK|] == BLANK && s[|BLANK|..] == rest;
  }

  lemma CharFirst(c: char, s: string, n: nat)
    requires !BlankAt([c] + s, 0)
    ensures Mark([c] + s, n) == [c] + Mark(s, n) && Blanks([c] + s) == Blanks(s)
  {
    assert ([c] + s)[1..] == s;
  }

  /** A template is copied up to its first blank, which becomes the next marker, and
      what follows is marked from the next number on. */
  lemma {:induction false} MarkAround(a: string, rest: string, n: nat)
    requires BlankFree(a)
    ensures Mark(a + (BLANK + rest), n) == a + (Marker(n + 1) + Mark(rest, n + 1))
    ensures Blanks(a + (BLANK + rest)) == 1 + Blanks(rest)
    decreases |a|
  {
    if a == "" {
      BlankFirst(rest, n);
    } else {
      BlankFreeTail(a);
      MarkAround(a[1..], rest, n);
      NoBlankAcross(a, rest);
      assert a == [a[0]] + a[1..];
      Associate([a[0]], a[1..], BLANK + rest);
      CharFirst(a[0], a[1..] + (BLANK + rest), n);
      Associate([a[0]], a[1..], Marker(n + 1) + Mark(rest, n + 1));
    }
  }

  /** A template without blanks is copied. */
  lemma {:induction false} MarkNothing(a: string, n: nat)
    requires BlankFree(a)
    ensures Mark(a, n) == a && Blanks(a) == 0
    decreases |a|
  {
    if a != "" {
      BlankFreeTail(a);
      MarkNothing(a[1..], n);
      assert a == [a[0]] + a[1..] && !BlankAt(a, 0);
      CharFirst(a[0], a[1..], n);
    }
  }

  lemma MarkHead(t: string, n: nat)
    requires t != ""
    ensures BlankAt(t, 0) ==> Mark(t, n) == Marker(n + 1) + Mark(t[|BLANK|..], n + 1) && Mark(t, n)[0] == '{'
    ensures !BlankAt(t, 0) ==> Mark(t, n) == [t[0]] + Mark(t[1..], n)
  {
    assert Marker(n + 1)[0] == '{';
  }

  /** Text without braces at the start of a marked template was there before. */
  lemma {:induction false} MarkPrefix(t: string, n: nat, w: string)
    requires '{' !in w && w <= Mark(t, n)
    ensures w <= t
    decreases |t|
  {
    if w != "" {
      assert w[0] in w && Mark(t, n)[0] == w[0];
      MarkHead(t, n);
      assert w[1..] <= Mark(t, n)[1..] == Mark(t[1..], n);
      MarkPrefix(t[1..], n, w[1..]);
      assert w == [w[0]] + w[1..] && t == [t[0]] + t[1..];
    }
  }

  lemma MarkerHasNoBracket(n: nat, k: nat)
    requires k < |Marker(n)|
    ensures Marker(n)[k] != '['
  {
    DecCanonical(n);
  }

  lemma BlankInJoin(a: string, b: string, k: nat)
    requires BlankAt(a + b, k)
    ensures (a + b)[k] == '['
    ensures k >= |a| ==> BlankAt(b, k - |a|)
    ensures k == 0 ==> BLANK <= a + b
  {
    var s := a + b;
    assert s[k] == s[k..k + |BLANK|][0];
    if k >= |a| {
      assert s[k..k + |BLANK|] == b[k - |a|..k - |a| + |BLANK|];
    }
  }

  /** No `[BLANK]` is left, in any template. */
  lemma {:induction false} NoBlankLeft(t: string, n: nat, k: nat)
    ensures !BlankAt(Mark(t, n), k)
    decreases |t|
  {
    if t != "" {
      MarkHead(t, n);
      if BlankAt(t, 0) {
        var m, rest := Marker(n + 1), Mark(t[|BLANK|..], n + 1);
        if k < |m| {
          MarkerHasNoBracket(n + 1, k);
        } else {
          NoBlankLeft(t[|BLANK|..], n + 1, k - |m|);
        }
        if BlankAt(m + rest, k) {
          BlankInJoin(m, rest, k);
        }
      } else {
        var rest := Mark(t[1..], n);
        if k > 0 {
          NoBlankLeft(t[1..], n, k - 1);
        }
        if BlankAt([t[0]] + rest, k) {
          BlankInJoin([t[0]], rest, k);
          if k == 0 {
            MarkPrefix(t, n, BLANK);
          }
        }
      }
    }
  }

  // ---- Reading a marked template ----

  predicate MarkerStart(s: string) {
    && |s| >= 2 && s[..2] == "{{"
    && var d := DigitRun(s[2..]);
       d > 0 && d + 4 <= |s| && s[d + 2..d + 4] == "}}"
  }

  /** The ids of the markers in a text, in order. */
  function MarkerIds(s: string): seq<string>
    decreases |s|
  {
    if s == "" then []
    else if MarkerStart(s) then [s[2..DigitRun(s[2..]) + 2]] + MarkerIds(s[DigitRun(s[2..]) + 4..])
    else MarkerIds(s[1..])
  }

  /** Every marker turned back into a blank. */
  function Unmark(s: string): string
    decreases |s|
  {
    if s == "" then ""
    else if MarkerStart(s) then BLANK + Unmark(s[DigitRun(s[2..]) + 4..])
    else [s[0]] + Unmark(s[1..])
  }

  lemma MarkerIsRead(n: nat, tail: string)
    ensures var s := Marker(n) + tail;
            && s != "" && MarkerStart(s)
            && s[2..DigitRun(s[2..]) + 2] == Dec(n)
            && s[DigitRun(s[2..]) + 4..] == tail
  {
    var s, d := Marker(n) + tail, Dec(n);
    DecCanonical(n);
    var rest := "}}" + tail;
    assert s[2..] == d + rest;
    DigitsOnly(d);
    DigitRunAppend(d, rest);
    assert DigitRun(s[2..]) == |d|;
    assert s[..2] == "{{" && s[|d| + 2..|d| + 4] == "}}";
    assert s[2..|d| + 2] == d && s[|d| + 4..] == tail;
  }

  predicate BraceFree(t: string) {
    '{' !in t
  }

  /** Mapping the markers back restores the template. */
  lemma {:induction false} UnmarkMark(t: string, n: nat)
    requires BraceFree(t)
    ensures Unmark(Mark(t, n)) == t
    decreases |t|
  {
    if t != "" {
      if BlankAt(t, 0) {
        var tail := t[|BLANK|..];
        UnmarkMark(tail, n + 1);
        MarkerIsRead(n + 1, Mark(tail, n + 1));
        assert t == BLANK + tail;
      } else {
        UnmarkMark(t[1..], n);
        assert Mark(t, n)[1..] == Mark(t[1..], n);
        assert t == [t[0]] + t[1..] && t[0] in t;
        NoMarkerStart(Mark(t, n));
      }
    }
  }

  lemma NoMarkerStart(s: string)
    requires s != "" && s[0] != '{'
    ensures !MarkerStart(s)
  {
    if |s| >= 2 {
      assert s[..2][0] == s[0];
    }
  }

  /** The ids `from + 1`, ..., `from + count`, as text. */
  function Ids(from: nat, count: nat): (ids: seq<string>)
    ensures |ids| == count && forall i :: 0 <= i < count ==> ids[i] == Dec(from + i + 1)
    decreases count
  {
    if count == 0 then [] else [Dec(from + 1)] + Ids(from + 1, count - 1)
  }

  /** The markers are numbered 1, 2, ... in reading order, one per blank. */
  lemma {:induction false} MarkersAreNumbered(t: string, n: nat)
    requires BraceFree(t)
    ensures MarkerIds(Mark(t, n)) == Ids(n, Blanks(t))
    decreases |t|
  {
    if t != "" {
      if BlankAt(t, 0) {
        var tail := t[|BLANK|..];
        MarkersAreNumbered(tail, n + 1);
        MarkerIsRead(n + 1, Mark(tail, n + 1));
      } else {
        MarkersAreNumbered(t[1..], n);
        assert Mark(t, n)[1..] == Mark(t[1..], n);
        assert t == [t[0]] + t[1..] && t[0] in t;
        NoMarkerStart(Mark(t, n));
      }
    }
  }

  // ---- Fill-in questions ----

  datatype BlankSpec = BlankSpec(id: string, accepted: seq<string>)
  datatype FillPayload = FillPayload(body: string, blanks: seq<BlankSpec>)

  /** FILL_BLANK_MULTI and CLOZE_PASSAGE alike: the body marked, one blank per list of answers. */
  function FillMulti(template: string, accepted: seq<seq<string>>): FillPayload {
    FillPayload(Mark(template, 0),
                seq(|accepted|, i requires 0 <= i < |accepted| => BlankSpec(Dec(i + 1), accepted[i])))
  }

  function BlankIds(p: FillPayload): (ids: seq<string>)
    ensures |ids| == |p.blanks| && forall i :: 0 <= i < |ids| ==> ids[i] == p.blanks[i].id
  {
    seq(|p.blanks|, i requires 0 <= i < |p.blanks| => p.blanks[i].id)
  }

  /** The blanks answer to the markers, in order, exactly when the template has
      one blank per list of accepted answers. */
  lemma BlanksMatchMarkers(template: string, accepted: seq<seq<string>>)
    requires BraceFree(template)
    ensures var p := FillMulti(template, accepted);
            MarkerIds(p.body) == BlankIds(p) <==> |accepted| == Blanks(template)
  {
    var ids := BlankIds(FillMulti(template, accepted));
    MarkersAreNumbered(template, 0);
    assert |ids| == |accepted| && |Ids(0, Blanks(template))| == Blanks(template);
    if |accepted| == Blanks(template) {
      assert forall i :: 0 <= i < |ids| ==> ids[i] == Ids(0, Blanks(template))[i];
    }
  }

  /** Each list of answers stays with its blank: the i-th marker of the body asks for
      exactly the i-th list of the seed. */
  lemma AnswersStayWithBlank(template: string, accepted: seq<seq<string>>, i: nat)
    requires BraceFree(template) && i < |accepted| && i < Blanks(template)
    ensures var p := FillMulti(template, accepted);
            && |p.blanks| == |accepted| && |MarkerIds(p.body)| == Blanks(template)
            && p.blanks[i].id == MarkerIds(p.body)[i] && p.blanks[i].accepted == accepted[i]
            && Unmark(p.body) == template
  {
    MarkersAreNumbered(template, 0);
    UnmarkMark(template, 0);
  }

  // ---- Lists with generated ids ----

  datatype Entry = Entry(id: string, text: string)

  /** `[{"id": f"{prefix}{i+1}", "text": t} for i, t in enumerate(texts)]` */
  function Labelled(prefix: string, texts: seq<string>): (entries: seq<Entry>)
    ensures |entries| == |texts|
    ensures forall i :: 0 <= i < |texts| ==> entries[i] == Entry(Label(prefix, i + 1), texts[i])
  {
    seq(|texts|, i requires 0 <= i < |texts| => Entry(Label(prefix, i + 1), texts[i]))
  }

  /** What a renderer shows for an id: the text of the first entry that carries it. */
  function TextOf(entries: seq<Entry>, id: string): Option<string> {
    if entries == [] then None
    else if entries[0].id == id then Some(entries[0].text)
    else TextOf(entries[1..], id)
  }

  lemma {:induction false} TextOfFirst(entries: seq<Entry>, i: nat)
    requires i < |entries| && forall k :: 0 <= k < i ==> entries[k].id != entries[i].id
    ensures TextOf(entries, entries[i].id) == Some(entries[i].text)
  {
    if i > 0 {
      assert entries[1..][i - 1] == entries[i];
      TextOfFirst(entries[1..], i - 1);
    }
  }

  lemma LabelledLookup(prefix: string, texts: seq<string>, i: nat)
    requires i < |texts|
    ensures TextOf(Labelled(prefix, texts), Label(prefix, i + 1)) == Some(texts[i])
  {
    var entries := Labelled(prefix, texts);
    forall k | 0 <= k < i
      ensures entries[k].id != entries[i].id
    {
      if entries[k].id == entries[i].id {
        LabelInjective(prefix, k + 1, i + 1);
      }
    }
    TextOfFirst(entries, i);
  }

  function Lefts(pairs: seq<(string, string)>): (texts: seq<string>)
    ensures |texts| == |pairs| && forall i :: 0 <= i < |pairs| ==> texts[i] == pairs[i].0
  {
    seq(|pairs|, i requires 0 <= i < |pairs| => pairs[i].0)
  }

  function Rights(pairs: seq<(string, string)>): (texts: seq<string>)
    ensures |texts| == |pairs| && forall i :: 0 <= i < |pairs| ==> texts[i] == pairs[i].1
  {
    seq(|pairs|, i requires 0 <= i < |pairs| => pairs[i].1)
  }

  // ---- MATCH_THE_FOLLOWING ----

  datatype MatchPayload = MatchPayload(listA: seq<Entry>, listB: seq<Entry>, correctPairs: seq<(string, string)>)

  function MatchFrom(pairs: seq<(string, string)>): MatchPayload {
    MatchPayload(Labelled("L", Lefts(pairs)), Labelled("R", Rights(pairs)),
                 seq(|pairs|, i requires 0 <= i < |pairs| => (Label("L", i + 1), Label("R", i + 1))))
  }

  /** Which texts belong together according to the canonical payload. */
  function DecodeMatch(p: MatchPayload): (pairs: seq<(Option<string>, Option<string>)>)
    ensures |pairs| == |p.correctPairs|
    ensures forall i :: 0 <= i < |pairs| ==>
              pairs[i] == (TextOf(p.listA, p.correctPairs[i].0), TextOf(p.listB, p.correctPairs[i].1))
  {
    seq(|p.correctPairs|, i requires 0 <= i < |p.correctPairs| =>
      (TextOf(p.listA, p.correctPairs[i].0), TextOf(p.listB, p.correctPairs[i].1)))
  }

  /** The canonical payload pairs up exactly the seed's texts, even when texts repeat. */
  lemma MatchKeepsPairs(pairs: seq<(string, string)>)
    ensures var decoded := DecodeMatch(MatchFrom(pairs));
            && |decoded| == |pairs|
            && forall i :: 0 <= i < |pairs| ==> decoded[i] == (Some(pairs[i].0), Some(pairs[i].1))
  {
    forall i | 0 <= i < |pairs|
      ensures DecodeMatch(MatchFrom(pairs))[i] == (Some(pairs[i].0), Some(pairs[i].1))
    {
      LabelledLookup("L", Lefts(pairs), i);
      LabelledLookup("R", Rights(pairs), i);
    }
  }

  /** The two columns are listed in seed order, and no id is used in both. */
  lemma MatchColumns(pairs: seq<(string, string)>)
    ensures var p := MatchFrom(pairs);
            && |p.listA| == |pairs| && |p.listB| == |pairs|
            && (forall i :: 0 <= i < |pairs| ==> p.listA[i].text == pairs[i].0 && p.listB[i].text == pairs[i].1)
            && (forall i, j :: 0 <= i < |pairs| && 0 <= j < |pairs| ==> p.listA[i].id != p.listB[j].id)
  {
    var p := MatchFrom(pairs);
    forall i, j | 0 <= i < |pairs| && 0 <= j < |pairs|
      ensures p.listA[i].id != p.listB[j].id
    {
      assert p.listA[i].id[0] == 'L' && p.listB[j].id[0] == 'R';
    }
  }

  // ---- SEQUENCING ----

  datatype SequencePayload = SequencePayload(items: seq<Entry>, correctOrder: seq<string>)

  function SequenceFrom(items: seq<string>): SequencePayload {
    SequencePayload(Labelled("S", items), seq(|items|, i requires 0 <= i < |items| => Label("S", i + 1)))
  }

  lemma SequenceKeepsOrder(items: seq<string>)
    ensures var p := SequenceFrom(items);
            && |p.correctOrder| == |items|
            && forall i :: 0 <= i < |items| ==> TextOf(p.items, p.correctOrder[i]) == Some(items[i])
  {
    forall i | 0 <= i < |items|
      ensures TextOf(SequenceFrom(items).items, SequenceFrom(items).correctOrder[i]) == Some(items[i])
    {
      LabelledLookup("S", items, i);
    }
  }

  // ---- CLASSIFICATION ----

  datatype ClassItem = ClassItem(text: string, category: string)
  datatype ClassPayload = ClassPayload(items: seq<Entry>, categories: seq<Entry>, assignments: seq<(string, string)>)

  /** The index the comprehension over `enumerate(cats)` leaves for a category: its last. */
  function LastIndex(cats: seq<string>, c: string): Option<nat> {
    if cats == [] then None
    else if cats[|cats| - 1] == c then Some(|cats| - 1)
    else LastIndex(cats[..|cats| - 1], c)
  }

  lemma {:induction false} LastIndexFound(cats: seq<string>, c: string)
    ensures LastIndex(cats, c).Some? <==> c in cats
    ensures LastIndex(cats, c).Some? ==> LastIndex(cats, c).value < |cats| && cats[LastIndex(cats, c).value] == c
  {
    if cats != [] {
      LastIndexFound(cats[..|cats| - 1], c);
      assert cats == cats[..|cats| - 1] + [cats[|cats| - 1]];
    }
  }

  lemma {:induction false} LastIndexIsLast(cats: seq<string>, i: nat)
    requires i < |cats| && forall j :: i < j < |cats| ==> cats[j] != cats[i]
    ensures LastIndex(cats, cats[i]) == Some(i)
  {
    if i < |cats| - 1 {
      LastIndexIsLast(cats[..|cats| - 1], i);
    }
  }

  function CategoryId(cats: seq<string>, c: string): string {
    match LastIndex(cats, c)
    case Some(i) => Label("C", i + 1)
    case None => ""
  }

  function Categories(cats: seq<string>): (entries: seq<Entry>)
    ensures |entries| == |cats|
    ensures forall i :: 0 <= i < |cats| ==> entries[i] == Entry(CategoryId(cats, cats[i]), cats[i])
  {
    seq(|cats|, i requires 0 <= i < |cats| => Entry(CategoryId(cats, cats[i]), cats[i]))
  }

  function ItemTexts(items: seq<ClassItem>): (texts: seq<string>)
    ensures |texts| == |items| && forall i :: 0 <= i < |items| ==> texts[i] == items[i].text
  {
    seq(|items|, i requires 0 <= i < |items| => items[i].text)
  }

  function Assignments(cats: seq<string>, items: seq<ClassItem>): (pairs: seq<(string, string)>)
    ensures |pairs| == |items|
    ensures forall i :: 0 <= i < |items| ==> pairs[i] == (Label("I", i + 1), CategoryId(cats, items[i].category))
  {
    seq(|items|, i requires 0 <= i < |items| => (Label("I", i + 1), CategoryId(cats, items[i].category)))
  }

  /** The item loop; an item of an undeclared category raises (`None`). */
  method ClassificationFrom(cats: seq<string>, items: seq<ClassItem>) returns (p: Option<ClassPayload>)
    ensures p.Some? <==> forall item :: item in items ==> item.category in cats
    ensures p.Some? ==>
              p.value == ClassPayload(Labelled("I", ItemTexts(items)), Categories(cats), Assignments(cats, items))
  {
    var out, assign := [], [];
    for i := 0 to |items|
      invariant forall k :: 0 <= k < i ==> items[k].category in cats
      invariant out == Labelled("I", ItemTexts(items))[..i] && assign == Assignments(cats, items)[..i]
    {
      LastIndexFound(cats, items[i].category);
      var id := LastIndex(cats, items[i].category);
      if id == None {
        assert items[i] in items;
        return None;
      }
      out := out + [Entry(Label("I", i + 1), items[i].text)];
      assign := assign + [(Label("I", i + 1), Label("C", id.value + 1))];
    }
    p := Some(ClassPayload(out, Categories(cats), assign));
  }

  lemma CategoryLookup(cats: seq<string>, c: string)
    requires c in cats
    ensures TextOf(Categories(cats), CategoryId(cats, c)) == Some(c)
  {
    LastIndexFound(cats, c);
    FirstIndexOfId(cats, c, 0);
  }

  lemma {:induction false} FirstIndexOfId(cats: seq<string>, c: string, from: nat)
    requires from < |cats| && c in cats[from..]
    ensures TextOf(Categories(cats)[from..], CategoryId(cats, c)) == Some(c)
    decreases |cats| - from
  {
    var entries := Categories(cats)[from..];
    assert entries[0] == Categories(cats)[from] && entries[1..] == Categories(cats)[from + 1..];
    LastIndexFound(cats, c);
    assert c in cats;
    if cats[from] != c {
      LastIndexFound(cats, cats[from]);
      if CategoryId(cats, cats[from]) == CategoryId(cats, c) {
        LabelInjective("C", LastIndex(cats, cats[from]).value + 1, LastIndex(cats, c).value + 1);
      }
      FirstIndexOfId(cats, c, from + 1);
    }
  }

  /** Every item ends up, by text, in its seed category, repeated texts and categories included. */
  lemma ClassificationKeepsAssignment(cats: seq<string>, items: seq<ClassItem>, i: nat)
    requires i < |items| && forall item :: item in items ==> item.category in cats
    ensures var p := ClassPayload(Labelled("I", ItemTexts(items)), Categories(cats), Assignments(cats, items));
            && |p.assignments| == |items|
            && TextOf(p.items, p.assignments[i].0) == Some(items[i].text)
            && TextOf(p.categories, p.assignments[i].1) == Some(items[i].category)
  {
    LabelledLookup("I", ItemTexts(items), i);
    assert items[i] in items;
    CategoryLookup(cats, items[i].category);
  }
}
