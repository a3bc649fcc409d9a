/** The block structure of a markdown document: the converter walks the lines
    once and turns each stretch of them into one block.  Everything here holds
    for any line patterns; `MARKDOWN` are the ones the converter uses. */
module MdBlocks {
  import opened Prelude
  import opened MdLines

  datatype Block =
    | CodeBlock(lines: seq<string>)
    | HorizontalRule
    | Heading(level: nat, text: string)
    | Table(header: seq<string>, rows: seq<seq<string>>)
    | Quote(text: string)
    | Bullet(nested: bool, content: string)
    | Numbered(nested: bool, content: string)
    | Paragraph(text: string)

  // ---- Stretches of lines and the rule that claims them ----

  datatype Kind = Fenced(closed: bool) | Ruled | Headed | Tabled | Quoted | Bulleted | Counted | Empty | Prose

  datatype Item = Item(kind: Kind, start: nat, end: nat)

  predicate TableStart(r: Rules, lines: seq<string>, i: nat) {
    i + 1 < |lines| && r.hasPipe(lines[i]) && r.isTableSep(lines[i + 1])
  }

  predicate InTable(r: Rules, line: string) {
    r.hasPipe(line) && !r.isBlank(line)
  }

  /** The rule that applies to line `i` outside a fence, in the order the converter tries them. */
  function KindAt(r: Rules, lines: seq<string>, i: nat): Kind
    requires i < |lines|
  {
    var line := lines[i];
    if r.isFence(line) then Fenced(true)
    else if r.isRule(line) then Ruled
    else if r.isHeading(line) then Headed
    else if TableStart(r, lines, i) then Tabled
    else if r.isQuote(line) then Quoted
    else if r.isBullet(line) then Bulleted
    else if r.isNumbered(line) then Counted
    else if r.isBlank(line) then Empty
    else Prose
  }

  /** What the paragraph loop tests before taking one more line. */
  predicate StopsParagraph(r: Rules, lines: seq<string>, j: nat)
    requires j < |lines|
  {
    var line := lines[j];
    || r.isBlank(line) || r.isHeading(line) || r.isRule(line) || r.isFence(line)
    || r.isBullet(line) || r.isNumbered(line) || r.isQuote(line) || TableStart(r, lines, j)
  }

  /** The item covers exactly the lines its rule takes. */
  predicate Justified(r: Rules, lines: seq<string>, item: Item) {
    var i, e := item.start, item.end;
    && i < e <= |lines|
    && match item.kind
       case Fenced(closed) =>
         && KindAt(r, lines, i).Fenced?
         && (forall k :: i < k < (if closed then e - 1 else e) ==> !r.isFence(lines[k]))
         && if closed then e >= i + 2 && r.isFence(lines[e - 1]) else e == |lines|
       case Tabled =>
         && KindAt(r, lines, i) == Tabled && e >= i + 2
         && (forall k :: i + 2 <= k < e ==> InTable(r, lines[k]))
         && (e < |lines| ==> !InTable(r, lines[e]))
       case Quoted =>
         && KindAt(r, lines, i) == Quoted
         && (forall k :: i < k < e ==> r.isQuote(lines[k]))
         && (e < |lines| ==> !r.isQuote(lines[e]))
       case Prose =>
         && KindAt(r, lines, i) == Prose
         && (forall k :: i < k < e ==> !StopsParagraph(r, lines, k))
         && (e < |lines| ==> StopsParagraph(r, lines, e))
       case _ => KindAt(r, lines, i) == item.kind && e == i + 1
  }

  /** The items cover the lines from `i` up to `to`, each once and in order. */
  ghost predicate Tiles(r: Rules, lines: seq<string>, i: nat, items: seq<Item>, to: nat)
    decreases |items|
  {
    if items == [] then i == to
    else items[0].start == i && Justified(r, lines, items[0]) && Tiles(r, lines, items[0].end, items[1..], to)
  }

  // ---- What is emitted ----

  function Join(lines: seq<string>): string
    requires lines != []
  {
    if |lines| == 1 then lines[0] else Join(lines[..|lines| - 1]) + " " + lines[|lines| - 1]
  }

  function Contents(r: Rules, lines: seq<string>): (texts: seq<string>)
    requires forall k :: 0 <= k < |lines| ==> r.isQuote(lines[k])
    ensures |texts| == |lines|
  {
    if lines == [] then [] else Contents(r, lines[..|lines| - 1]) + [r.quoteContent(lines[|lines| - 1])]
  }

  /** A row as it lands in the table: cells beyond the header's columns are not written. */
  function Row(r: Rules, line: string, columns: nat): seq<string> {
    var cells := r.cells(line);
    if |cells| <= columns then cells else cells[..columns]
  }

  function Rows(r: Rules, lines: seq<string>, columns: nat): seq<seq<string>> {
    if lines == [] then [] else Rows(r, lines[..|lines| - 1], columns) + [Row(r, lines[|lines| - 1], columns)]
  }

  function Emit(r: Rules, lines: seq<string>, item: Item): seq<Block>
    requires Justified(r, lines, item)
  {
    var i, e := item.start, item.end;
    var line := lines[i];
    match item.kind
    case Fenced(true) => [CodeBlock(lines[i + 1..e - 1])]
    case Fenced(false) => if e == i + 1 then [] else [CodeBlock(lines[i + 1..e])]
    case Ruled => [HorizontalRule]
    case Headed => [Heading(r.level(line), r.headingText(line))]
    case Tabled => [Table(r.cells(line), Rows(r, lines[i + 2..e], |r.cells(line)|))]
    case Quoted => [Quote(Join(Contents(r, lines[i..e])))]
    case Bulleted => [Bullet(r.indent(line) >= 2, r.bulletContent(line))]
    case Counted => [Numbered(r.indent(line) >= 2, r.numberedContent(line))]
    case Empty => []
    case Prose => [Paragraph(Join(lines[i..e]))]
  }

  function EmitAll(r: Rules, lines: seq<string>, items: seq<Item>): seq<Block>
    requires forall item :: item in items ==> Justified(r, lines, item)
  {
    if items == [] then [] else EmitAll(r, lines, items[..|items| - 1]) + Emit(r, lines, items[|items| - 1])
  }

  // ---- The converter ----

  method ParseTable(r: Rules, lines: seq<string>, start: nat)
      returns (found: Option<(nat, seq<string>, seq<seq<string>>)>)
    requires start < |lines|
    ensures found.Some? <==> TableStart(r, lines, start)
    ensures found.Some? ==>
              var (next, header, rows) := found.value;
              && start + 2 <= next <= |lines|
              && (forall k :: start + 2 <= k < next ==> InTable(r, lines[k]))
              && (next < |lines| ==> !InTable(r, lines[next]))
              && header == r.cells(lines[start])
              && rows == Rows(r, lines[start + 2..next], |header|)
  {
    if start + 1 >= |lines| {
      return None;
    }
    if !r.hasPipe(lines[start]) || !r.isTableSep(lines[start + 1]) {
      return None;
    }
    var header := r.cells(lines[start]);
    var rows := [];
    var i := start + 2;
    while i < |lines| && r.hasPipe(lines[i]) && !r.isBlank(lines[i])
      invariant start + 2 <= i <= |lines|
      invariant forall k :: start + 2 <= k < i ==> InTable(r, lines[k])
      invariant rows == Rows(r, lines[start + 2..i], |header|)
    {
      assert lines[start + 2..i + 1][..i - start - 2] == lines[start + 2..i];
      rows := rows + [Row(r, lines[i], |header|)];
      i := i + 1;
    }
    return Some((i, header, rows));
  }

  predicate Quotes(r: Rules, lines: seq<string>, i: nat, j: nat) {
    i <= j <= |lines| && forall k :: i <= k < j ==> r.isQuote(lines[k])
  }

  lemma ContentsPush(r: Rules, lines: seq<string>, i: nat, j: nat)
    requires Quotes(r, lines, i, j) && j < |lines| && r.isQuote(lines[j])
    ensures Contents(r, lines[i..j + 1]) == Contents(r, lines[i..j]) + [r.quoteContent(lines[j])]
  {
    assert lines[i..j + 1][..j - i] == lines[i..j] && lines[i..j + 1][j - i] == lines[j];
  }

  method TakeQuote(r: Rules, lines: seq<string>, i: nat) returns (block: Block, j: nat)
    requires i < |lines| && KindAt(r, lines, i) == Quoted
    ensures Justified(r, lines, Item(Quoted, i, j)) && [block] == Emit(r, lines, Item(Quoted, i, j))
  {
    var quoteLines := [r.quoteContent(lines[i])];
    j := i + 1;
    ContentsPush(r, lines, i, i);
    assert lines[i..i] == [];
    while j < |lines| && r.isQuote(lines[j])
      invariant i < j && Quotes(r, lines, i, j)
      invariant quoteLines == Contents(r, lines[i..j])
    {
      ContentsPush(r, lines, i, j);
      quoteLines := quoteLines + [r.quoteContent(lines[j])];
      j := j + 1;
    }
    block := Quote(Join(quoteLines));
  }

  method TakeParagraph(r: Rules, lines: seq<string>, i: nat) returns (block: Block, j: nat)
    requires i < |lines| && KindAt(r, lines, i) == Prose
    ensures Justified(r, lines, Item(Prose, i, j)) && [block] == Emit(r, lines, Item(Prose, i, j))
  {
    var paraLines := [lines[i]];
    j := i + 1;
    while j < |lines| && !StopsParagraph(r, lines, j)
      invariant i < j <= |lines|
      invariant forall k :: i < k < j ==> !StopsParagraph(r, lines, k)
      invariant paraLines == lines[i..j]
    {
      paraLines := paraLines + [lines[j]];
      j := j + 1;
    }
    block := Paragraph(Join(paraLines));
  }

  /** One pass of the loop of `convert_file` outside a fence. */
  method TakeBlock(r: Rules, lines: seq<string>, i: nat) returns (blocks: seq<Block>, next: nat)
    requires i < |lines| && !r.isFence(lines[i])
    ensures Justified(r, lines, Item(KindAt(r, lines, i), i, next))
    ensures blocks == Emit(r, lines, Item(KindAt(r, lines, i), i, next))
  {
    var line := lines[i];
    next := i + 1;
    if r.isRule(line) {
      return [HorizontalRule], next;
    }
    if r.isHeading(line) {
      return [Heading(r.level(line), r.headingText(line))], next;
    }
    var tbl := ParseTable(r, lines, i);
    if tbl.Some? {
      var (after, header, rows) := tbl.value;
      return [Table(header, rows)], after;
    }
    if r.isQuote(line) {
      var block, after := TakeQuote(r, lines, i);
      return [block], after;
    }
    if r.isBullet(line) {
      return [Bullet(r.indent(line) >= 2, r.bulletContent(line))], next;
    }
    if r.isNumbered(line) {
      return [Numbered(r.indent(line) >= 2, r.numberedContent(line))], next;
    }
    if r.isBlank(line) {
      return [], next;
    }
    var block, after := TakeParagraph(r, lines, i);
    return [block], after;
  }

  /** The document so far is what the items up to line `at` emit. */
  ghost predicate Converted(r: Rules, lines: seq<string>, at: nat, items: seq<Item>, doc: seq<Block>) {
    && Tiles(r, lines, 0, items, at)
    && (forall item :: item in items ==> Justified(r, lines, item))
    && doc == EmitAll(r, lines, items)
  }

  lemma Extend(r: Rules, lines: seq<string>, items: seq<Item>, doc: seq<Block>, item: Item)
    requires Converted(r, lines, item.start, items, doc) && Justified(r, lines, item)
    ensures Converted(r, lines, item.end, items + [item], doc + Emit(r, lines, item))
  {
    TilesAppend(r, lines, 0, items, item);
    assert (items + [item])[..|items|] == items;
  }

  /** The loop's state at line `i`; inside a fence, the lines since the one that
      opened it are collected and none of them ends it. */
  ghost predicate LoopState(r: Rules, lines: seq<string>, i: nat, fence: Option<nat>, collected: seq<string>,
                            items: seq<Item>, doc: seq<Block>)
  {
    && i <= |lines|
    && match fence
       case None => Converted(r, lines, i, items, doc)
       case Some(at) =>
         && at < i && r.isFence(lines[at]) && (forall k :: at < k < i ==> !r.isFence(lines[k]))
         && collected == lines[at + 1..i]
         && Converted(r, lines, at, items, doc)
  }

  lemma CollectLine(r: Rules, lines: seq<string>, i: nat, at: nat, collected: seq<string>,
                    items: seq<Item>, doc: seq<Block>)
    requires LoopState(r, lines, i, Some(at), collected, items, doc) && i < |lines| && !r.isFence(lines[i])
    ensures LoopState(r, lines, i + 1, Some(at), collected + [lines[i]], items, doc)
  {
  }

  lemma OpenFence(r: Rules, lines: seq<string>, i: nat, collected: seq<string>, items: seq<Item>, doc: seq<Block>)
    requires LoopState(r, lines, i, None, collected, items, doc) && i < |lines| && r.isFence(lines[i])
    ensures LoopState(r, lines, i + 1, Some(i), [], items, doc)
  {
  }

  lemma CloseFence(r: Rules, lines: seq<string>, i: nat, at: nat, collected: seq<string>,
                   items: seq<Item>, doc: seq<Block>)
    requires LoopState(r, lines, i, Some(at), collected, items, doc) && i < |lines| && r.isFence(lines[i])
    ensures LoopState(r, lines, i + 1, None, [], items + [Item(Fenced(true), at, i + 1)], doc + [CodeBlock(collected)])
  {
    Extend(r, lines, items, doc, Item(Fenced(true), at, i + 1));
  }

  lemma EndInFence(r: Rules, lines: seq<string>, at: nat, collected: seq<string>, items: seq<Item>, doc: seq<Block>)
    requires LoopState(r, lines, |lines|, Some(at), collected, items, doc)
    ensures Converted(r, lines, |lines|, items + [Item(Fenced(false), at, |lines|)],
                      if collected == [] then doc else doc + [CodeBlock(collected)])
  {
    Extend(r, lines, items, doc, Item(Fenced(false), at, |lines|));
    assert doc + [] == doc;
  }

  /** What the loop does with a line while a fence is open: collect it, or emit the block. */
  method FenceLine(r: Rules, lines: seq<string>, i: nat, fenceLines: seq<string>, doc: seq<Block>,
                   ghost at: nat, ghost items: seq<Item>)
      returns (inFence: bool, fenceLines': seq<string>, doc': seq<Block>)
    requires LoopState(r, lines, i, Some(at), fenceLines, items, doc) && i < |lines|
    ensures inFence <==> !r.isFence(lines[i])
    ensures if inFence then LoopState(r, lines, i + 1, Some(at), fenceLines', items, doc')
            else LoopState(r, lines, i + 1, None, fenceLines', items + [Item(Fenced(true), at, i + 1)], doc')
  {
    if r.isFence(lines[i]) {
      CloseFence(r, lines, i, at, fenceLines, items, doc);
      return false, [], doc + [CodeBlock(fenceLines)];
    } else {
      CollectLine(r, lines, i, at, fenceLines, items, doc);
      return true, fenceLines + [lines[i]], doc;
    }
  }

  /** What the loop does with a line outside a fence that does not open one. */
  method BlockLine(r: Rules, lines: seq<string>, i: nat, collected: seq<string>, doc: seq<Block>,
                   ghost items: seq<Item>)
      returns (doc': seq<Block>, next: nat)
    requires LoopState(r, lines, i, None, collected, items, doc) && i < |lines| && !r.isFence(lines[i])
    ensures i < next
    ensures LoopState(r, lines, next, None, collected, items + [Item(KindAt(r, lines, i), i, next)], doc')
  {
    var blocks;
    blocks, next := TakeBlock(r, lines, i);
    Extend(r, lines, items, doc, Item(KindAt(r, lines, i), i, next));
    doc' := doc + blocks;
  }

  /** The blocks are what some tiling of all the lines emits. */
  ghost predicate IsDocument(r: Rules, lines: seq<string>, doc: seq<Block>) {
    exists items :: Converted(r, lines, |lines|, items, doc)
  }

  lemma NothingConverted(r: Rules, lines: seq<string>)
    ensures LoopState(r, lines, 0, None, [], [], [])
  {
  }

  lemma EndOfFile(r: Rules, lines: seq<string>, fence: Option<nat>, collected: seq<string>,
                  items: seq<Item>, doc: seq<Block>)
    requires LoopState(r, lines, |lines|, fence, collected, items, doc)
    ensures IsDocument(r, lines, if fence.Some? && collected != [] then doc + [CodeBlock(collected)] else doc)
  {
    if fence.Some? {
      EndInFence(r, lines, fence.value, collected, items, doc);
    }
  }

  /** The main loop with its fence state; a fence left open is closed at the end. */
  method ConvertFile(r: Rules, lines: seq<string>) returns (doc: seq<Block>)
    ensures IsDocument(r, lines, doc)
  {
    doc := [];
    ghost var items := [];
    NothingConverted(r, lines);
    var i := 0;
    var inFence := false;
    var fenceLines: seq<string> := [];
    ghost var at := 0;
    while i < |lines|
      invariant LoopState(r, lines, i, if inFence then Some(at) else None, fenceLines, items, doc)
    {
      if inFence {
        ghost var closed := items + [Item(Fenced(true), at, i + 1)];
        inFence, fenceLines, doc := FenceLine(r, lines, i, fenceLines, doc, at, items);
        items := if inFence then items else closed;
        i := i + 1;
      } else if r.isFence(lines[i]) {
        OpenFence(r, lines, i, fenceLines, items, doc);
        inFence, fenceLines, at := true, [], i;
        i := i + 1;
      } else {
        ghost var kind, start := KindAt(r, lines, i), i;
        doc, i := BlockLine(r, lines, i, fenceLines, doc, items);
        items := items + [Item(kind, start, i)];
      }
    }
    EndOfFile(r, lines, if inFence then Some(at) else None, fenceLines, items, doc);
    if inFence && fenceLines != [] {
      doc := doc + [CodeBlock(fenceLines)];
    }
  }

  lemma {:induction false} TilesAppend(r: Rules, lines: seq<string>, i: nat, items: seq<Item>, item: Item)
    requires Tiles(r, lines, i, items, item.start) && Justified(r, lines, item)
    ensures Tiles(r, lines, i, items + [item], item.end)
    decreases |items|
  {
    if items == [] {
      assert [item][1..] == [];
    } else {
      assert (items + [item])[1..] == items[1..] + [item];
      TilesAppend(r, lines, items[0].end, items[1..], item);
    }
  }

  // ---- The block structure is determined ----

  lemma ItemUnique(r: Rules, lines: seq<string>, a: Item, b: Item)
    requires Justified(r, lines, a) && Justified(r, lines, b) && a.start == b.start
    ensures a == b
  {
  }

  /** There is only one way to tile a document with justified items. */
  lemma {:induction false} TilingUnique(r: Rules, lines: seq<string>, i: nat, a: seq<Item>, b: seq<Item>)
    requires Tiles(r, lines, i, a, |lines|) && Tiles(r, lines, i, b, |lines|)
    ensures a == b
    decreases |a|
  {
    if a != [] && b != [] {
      ItemUnique(r, lines, a[0], b[0]);
      TilingUnique(r, lines, a[0].end, a[1..], b[1..]);
      assert a == [a[0]] + a[1..] && b == [b[0]] + b[1..];
    }
  }

  /** The lines determine the document. */
  lemma DocumentUnique(r: Rules, lines: seq<string>, a: seq<Block>, b: seq<Block>)
    requires IsDocument(r, lines, a) && IsDocument(r, lines, b)
    ensures a == b
  {
    var items :| Converted(r, lines, |lines|, items, a);
    var others :| Converted(r, lines, |lines|, others, b);
    TilingUnique(r, lines, 0, items, others);
  }

  ghost function Covered(lines: seq<string>, items: seq<Item>): seq<string>
    requires forall item :: item in items ==> item.start <= item.end <= |lines|
  {
    if items == [] then [] else lines[items[0].start..items[0].end] + Covered(lines, items[1..])
  }

  /** Putting the stretches back together gives the document: no line is skipped,
      repeated or moved. */
  lemma {:induction false} TilesPartition(r: Rules, lines: seq<string>, i: nat, items: seq<Item>)
    requires Tiles(r, lines, i, items, |lines|)
    ensures i <= |lines|
    ensures forall item :: item in items ==> item.start < item.end <= |lines|
    ensures Covered(lines, items) == lines[i..]
    decreases |items|
  {
    if items != [] {
      TilesPartition(r, lines, items[0].end, items[1..]);
      assert lines[i..] == lines[i..items[0].end] + lines[items[0].end..];
    }
  }

  /** A line that ends a paragraph starts something else: it is blank or claimed by another rule. */
  lemma StopIsClaimed(r: Rules, lines: seq<string>, j: nat)
    requires j < |lines|
    ensures StopsParagraph(r, lines, j) <==> KindAt(r, lines, j) != Prose
  {
  }

  /** With the converter's own patterns a blank line is claimed by no other rule:
      outside code blocks exactly the blank lines are dropped. */
  lemma BlankIsEmpty(lines: seq<string>, i: nat)
    requires i < |lines|
    ensures KindAt(MARKDOWN, lines, i) == Empty <==> Blank(lines[i])
  {
    var line := lines[i];
    if Blank(line) {
      assert Prefix(line, IsSpace) == |line|;
      assert TrimLeft(line) == "" && Trim(line) == "";
      BlankClaimsNothing(line);
    }
  }

  lemma BlankClaimsNothing(line: string)
    requires Blank(line)
    ensures !IsFence(line) && !IsHeading(line) && !HasPipe(line) && !IsQuote(line)
    ensures !IsRule(line) && !IsBullet(line) && !IsNumbered(line)
  {
    if line != [] {
      assert IsSpace(line[0]);
      assert Hashes(line) == 0;
    }
    assert Prefix(line, IsSpace) == |line|;
    assert TrimLeft(line) == "" && Trim(line) == "";
  }

  /** So paragraphs are maximal: two are never neighbours. */
  lemma {:induction false} ParagraphsNeverAdjacent(r: Rules, lines: seq<string>, i: nat, items: seq<Item>, k: nat)
    requires Tiles(r, lines, i, items, |lines|) && k + 1 < |items|
    requires items[k].kind == Prose
    ensures items[k + 1].kind != Prose
    decreases |items|
  {
    if k == 0 {
      var e := items[0].end;
      assert Tiles(r, lines, e, items[1..], |lines|) && items[1..][0] == items[1];
      StopIsClaimed(r, lines, e);
    } else {
      ParagraphsNeverAdjacent(r, lines, items[0].end, items[1..], k - 1);
    }
  }

  ghost predicate AllJustified(r: Rules, lines: seq<string>, items: seq<Item>) {
    forall item :: item in items ==> Justified(r, lines, item)
  }

  lemma EmitAllPush(r: Rules, lines: seq<string>, items: seq<Item>, item: Item)
    requires AllJustified(r, lines, items) && Justified(r, lines, item)
    ensures AllJustified(r, lines, items + [item])
    ensures EmitAll(r, lines, items + [item]) == EmitAll(r, lines, items) + Emit(r, lines, item)
  {
    assert (items + [item])[..|items|] == items;
  }

  lemma Regroup<T>(a: seq<T>, b: seq<T>, c: seq<T>)
    ensures (a + b) + c == a + (b + c)
  {
  }

  lemma EmitAllStep(r: Rules, lines: seq<string>, a: seq<Item>, front: seq<Item>, last: Item)
    requires AllJustified(r, lines, a) && AllJustified(r, lines, front) && AllJustified(r, lines, a + front)
    requires Justified(r, lines, last)
    requires EmitAll(r, lines, a + front) == EmitAll(r, lines, a) + EmitAll(r, lines, front)
    ensures AllJustified(r, lines, front + [last]) && AllJustified(r, lines, a + (front + [last]))
    ensures EmitAll(r, lines, a + (front + [last])) == EmitAll(r, lines, a) + EmitAll(r, lines, front + [last])
  {
    EmitAllPush(r, lines, a + front, last);
    EmitAllPush(r, lines, front, last);
    Regroup(a, front, [last]);
    Regroup(EmitAll(r, lines, a), EmitAll(r, lines, front), Emit(r, lines, last));
  }

  lemma FrontJustified(r: Rules, lines: seq<string>, b: seq<Item>)
    requires b != [] && AllJustified(r, lines, b)
    ensures AllJustified(r, lines, b[..|b| - 1]) && Justified(r, lines, b[|b| - 1])
    ensures b == b[..|b| - 1] + [b[|b| - 1]]
  {
    assert b[|b| - 1] in b;
  }

  /** The blocks come in the order of the stretches, each stretch's own together. */
  lemma {:induction false} EmitAllAppend(r: Rules, lines: seq<string>, a: seq<Item>, b: seq<Item>)
    requires AllJustified(r, lines, a) && AllJustified(r, lines, b)
    ensures AllJustified(r, lines, a + b)
    ensures EmitAll(r, lines, a + b) == EmitAll(r, lines, a) + EmitAll(r, lines, b)
    decreases |b|
  {
    if b == [] {
      assert a + b == a;
    } else {
      FrontJustified(r, lines, b);
      EmitAllAppend(r, lines, a, b[..|b| - 1]);
      EmitAllStep(r, lines, a, b[..|b| - 1], b[|b| - 1]);
    }
  }

  /** The lines of a fence come out verbatim, without the fence lines; a fence opened on
      the last line leaves nothing. */
  lemma FencedVerbatim(r: Rules, lines: seq<string>, item: Item)
    requires Justified(r, lines, item) && item.kind.Fenced?
    ensures var blocks, n := Emit(r, lines, item), item.end - item.start - if item.kind.closed then 2 else 1;
            && (blocks == [] <==> !item.kind.closed && n == 0)
            && (blocks != [] ==>
                  && |blocks| == 1 && blocks[0].CodeBlock? && |blocks[0].lines| == n
                  && forall k :: 0 <= k < n ==> blocks[0].lines[k] == lines[item.start + 1 + k])
  {
  }

  // ---- Cells that do not fit the header ----

  lemma {:induction false} RowsLength(r: Rules, lines: seq<string>, columns: nat)
    ensures |Rows(r, lines, columns)| == |lines|
  {
    if lines != [] {
      RowsLength(r, lines[..|lines| - 1], columns);
    }
  }

  lemma {:induction false} RowAt(r: Rules, lines: seq<string>, columns: nat, k: nat)
    requires k < |lines| == |Rows(r, lines, columns)|
    ensures Rows(r, lines, columns)[k] == Row(r, lines[k], columns)
  {
    var front := lines[..|lines| - 1];
    RowsLength(r, front, columns);
    if k < |front| {
      RowAt(r, front, columns, k);
    }
  }

  /** The cells of a line as far as the columns of the header go. */
  ghost predicate FirstCells(row: seq<string>, cells: seq<string>, columns: nat) {
    && |row| == (if |cells| < columns then |cells| else columns)
    && forall c :: 0 <= c < |row| ==> row[c] == cells[c]
  }

  /** A table is written out whole if and only if no body line has more cells than the header. */
  lemma TableIsWhole(r: Rules, lines: seq<string>, item: Item)
    requires Justified(r, lines, item) && item.kind == Tabled
    ensures var blocks := Emit(r, lines, item);
            && |blocks| == 1 && blocks[0].Table? && blocks[0].header == r.cells(lines[item.start])
            && |blocks[0].rows| == item.end - item.start - 2
            && (forall k :: 0 <= k < |blocks[0].rows| ==>
                  FirstCells(blocks[0].rows[k], r.cells(lines[item.start + 2 + k]), |r.cells(lines[item.start])|))
            && ((forall k :: 0 <= k < |blocks[0].rows| ==> blocks[0].rows[k] == r.cells(lines[item.start + 2 + k]))
                <==> forall k :: item.start + 2 <= k < item.end ==>
                       |r.cells(lines[k])| <= |r.cells(lines[item.start])|)
  {
    var body, columns := lines[item.start + 2..item.end], |r.cells(lines[item.start])|;
    var rows := Rows(r, body, columns);
    RowsLength(r, body, columns);
    forall k | 0 <= k < |body|
      ensures rows[k] == r.cells(lines[item.start + 2 + k]) <==> |r.cells(lines[item.start + 2 + k])| <= columns
      ensures FirstCells(rows[k], r.cells(lines[item.start + 2 + k]), columns)
    {
      RowAt(r, body, columns, k);
      assert body[k] == lines[item.start + 2 + k];
    }
    if forall k :: 0 <= k < |rows| ==> rows[k] == r.cells(lines[item.start + 2 + k]) {
      forall k | item.start + 2 <= k < item.end
        ensures |r.cells(lines[k])| <= columns
      {
        assert rows[k - item.start - 2] == r.cells(lines[item.start + 2 + (k - item.start - 2)]);
      }
    }
  }

  lemma OnePipe(c: char, rest: string)
    requires c != '|'
    ensures SplitPipes([c] + ("|" + rest)) == [[c]] + SplitPipes(rest)
  {
    assert ("|" + rest)[1..] == rest && ([c] + ("|" + rest))[1..] == "|" + rest;
    assert SplitPipes("|" + rest) == [[]] + SplitPipes(rest);
    assert ([[]] + SplitPipes(rest))[1..] == SplitPipes(rest);
    assert [c] + [] == [c];
  }

  lemma OneCell(c: char)
    requires c != '|'
    ensures SplitPipes([c]) == [[c]]
  {
    assert [c][1..] == [] && SplitPipes([]) == [[]];
    assert [c] + [] == [c];
  }

  lemma Untrimmed(s: string)
    requires s != "" && !IsSpace(s[0]) && !IsSpace(s[|s| - 1])
    ensures Trim(s) == s
  {
    assert s[0..] == s;
  }

  lemma SplitThree()
    ensures SplitPipes("a|b|c") == ["a", "b", "c"]
  {
    OneCell('c');
    OnePipe('b', "c");
    assert "b|c" == ['b'] + ("|" + "c");
    OnePipe('a', "b|c");
    assert "a|b|c" == ['a'] + ("|" + "b|c");
  }

  lemma CellsAsSplit(line: string)
    requires line != "" && !IsSpace(line[0]) && !IsSpace(line[|line| - 1])
    requires line[0] != '|' && line[|line| - 1] != '|'
    ensures Cells(line) == TrimAll(SplitPipes(line))
  {
    Untrimmed(line);
    assert line[0..] == line;
  }

  lemma ThreeCells()
    ensures Cells("a|b|c") == ["a", "b", "c"]
  {
    var line, pieces := "a|b|c", ["a", "b", "c"];
    assert line[0] == 'a' && line[|line| - 1] == 'c';
    CellsAsSplit(line);
    SplitThree();
    forall k | 0 <= k < 3
      ensures TrimAll(pieces)[k] == pieces[k]
    {
      Untrimmed(pieces[k]);
    }
  }

  /** A failing line: the third cell of `a|b|c` is not written under a header of two. */
  lemma ThirdCellDropped()
    ensures MARKDOWN.cells("a|b|c") == ["a", "b", "c"]
    ensures Row(MARKDOWN, "a|b|c", 2) == ["a", "b"]
  {
    ThreeCells();
  }
}
