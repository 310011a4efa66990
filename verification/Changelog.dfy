/** Cutting the changelog page into version blocks: internal/sitefeed/sitefeed.go. */
module Changelog {
  import opened Basics

  type Text = seq<Byte>

  /** A node of the parsed page. `text` is an element's text with its white space collapsed; nodes that are not
      elements only have children. */
  datatype Node =
    | Element(tag: string, text: Text, kids: seq<Node>)
    | Other(kids: seq<Node>)

  datatype Entry = Entry(title: Text, summary: Text)

  const NEWLINE: Text := [0x0a]
  const ELLIPSIS: Text := [0xe2, 0x80, 0xa6]
  const OPENING: Text := [0xe3, 0x80, 0x90]
  const CLOSING: Text := [0xe3, 0x80, 0x91]
  const MAX_SUMMARY: nat := 500

  // ---------------------------------------------------------------- the first element of a name

  predicate Named(n: Node, tag: string) {
    n.Element? && n.tag == tag
  }

  function FindElement(n: Node, tag: string): Option<Node>
    decreases n, |n.kids| + 1
  {
    if Named(n, tag) then Some(n) else FindInKids(n, 0, tag)
  }

  function FindInKids(n: Node, i: nat, tag: string): Option<Node>
    requires i <= |n.kids|
    decreases n, |n.kids| - i
  {
    if i == |n.kids| then None
    else
      var found := FindElement(n.kids[i], tag);
      if found.Some? then found else FindInKids(n, i + 1, tag)
  }

  /** A node and its descendants in document order. */
  function Preorder(n: Node): seq<Node>
    decreases n, |n.kids| + 1
  {
    [n] + PreorderFrom(n, 0)
  }

  function PreorderFrom(n: Node, i: nat): seq<Node>
    requires i <= |n.kids|
    decreases n, |n.kids| - i
  {
    if i == |n.kids| then [] else Preorder(n.kids[i]) + PreorderFrom(n, i + 1)
  }

  function FirstNamed(nodes: seq<Node>, tag: string): Option<Node> {
    if nodes == [] then None
    else if Named(nodes[0], tag) then Some(nodes[0])
    else FirstNamed(nodes[1..], tag)
  }

  lemma {:induction false} FirstNamedConcat(a: seq<Node>, b: seq<Node>, tag: string)
    ensures FirstNamed(a + b, tag) == if FirstNamed(a, tag).Some? then FirstNamed(a, tag) else FirstNamed(b, tag)
  {
    if a == [] {
      assert a + b == b;
    } else {
      assert (a + b)[1..] == a[1..] + b;
      FirstNamedConcat(a[1..], b, tag);
    }
  }

  /** The depth-first search returns the first element of that name in document order, and none only if there is
      none. */
  lemma {:induction false} FindIsFirst(n: Node, tag: string)
    ensures FindElement(n, tag) == FirstNamed(Preorder(n), tag)
    decreases n, |n.kids| + 1
  {
    assert Preorder(n)[1..] == PreorderFrom(n, 0);
    FindInKidsIsFirst(n, 0, tag);
  }

  lemma {:induction false} FindInKidsIsFirst(n: Node, i: nat, tag: string)
    requires i <= |n.kids|
    ensures FindInKids(n, i, tag) == FirstNamed(PreorderFrom(n, i), tag)
    decreases n, |n.kids| - i
  {
    if i < |n.kids| {
      FindIsFirst(n.kids[i], tag);
      FindInKidsIsFirst(n, i + 1, tag);
      FirstNamedConcat(Preorder(n.kids[i]), PreorderFrom(n, i + 1), tag);
    }
  }

  // ---------------------------------------------------------------- what the page says

  /** What the walk gets from a node: a heading that opens a block, or a line of the current one. */
  datatype Item = Open(title: Text) | Line(text: Text)

  /** The items of a subtree in document order. Page titles are dropped; headings, list items and paragraphs are not
      looked into. */
  function Items(n: Node): seq<Item>
    decreases n, |n.kids| + 1
  {
    if n.Other? then ItemsFirst(n, |n.kids|)
    else if n.tag == "h1" then []
    else if n.tag == "h2" then [Open(n.text)]
    else if n.tag == "h3" then [Line(OPENING + n.text + CLOSING)]
    else if n.tag == "li" || n.tag == "p" then (if n.text != [] then [Line(n.text)] else [])
    else ItemsFirst(n, |n.kids|)
  }

  /** The items of the first `i` children. */
  function ItemsFirst(n: Node, i: nat): seq<Item>
    requires i <= |n.kids|
    decreases n, i
  {
    if i == 0 then [] else ItemsFirst(n, i - 1) + Items(n.kids[i - 1])
  }

  datatype Block = Block(title: Text, lines: seq<Text>)

  /** The lines up to the next heading. */
  function LinesBeforeNext(items: seq<Item>): seq<Text> {
    if items == [] || items[0].Open? then [] else [items[0].text] + LinesBeforeNext(items[1..])
  }

  /** One block a heading, with the lines that follow it; lines before the first heading belong to none. */
  function Blocks(items: seq<Item>): seq<Block> {
    if items == [] then []
    else if items[0].Line? then Blocks(items[1..])
    else [Block(items[0].title, LinesBeforeNext(items[1..]))] + Blocks(items[1..])
  }

  /** Every line but the first is preceded by a line break. */
  function Join(lines: seq<Text>): Text {
    if lines == [] then []
    else if |lines| == 1 then lines[0]
    else Join(lines[..|lines| - 1]) + (NEWLINE + lines[|lines| - 1])
  }

  function Cut(s: Text): Text {
    if |s| > MAX_SUMMARY then s[..MAX_SUMMARY] + ELLIPSIS else s
  }

  function EntryOf(b: Block): Entry {
    Entry(b.title, Cut(Join(b.lines)))
  }

  function EntriesOf(blocks: seq<Block>): (r: seq<Entry>)
    ensures |r| == |blocks|
    ensures forall i | 0 <= i < |r| :: r[i] == EntryOf(blocks[i])
  {
    seq(|blocks|, i requires 0 <= i < |blocks| => EntryOf(blocks[i]))
  }

  function Titled(entries: seq<Entry>): (r: seq<Entry>)
    ensures |r| <= |entries|
  {
    if entries == [] then []
    else
      var last := entries[|entries| - 1];
      Titled(entries[..|entries| - 1]) + if last.title != [] then [last] else []
  }

  /** What the changelog of a page's main element should be. */
  function ChangelogOf(main: Node): seq<Entry> {
    Titled(EntriesOf(Blocks(ItemsFirst(main, |main.kids|))))
  }

  // ---------------------------------------------------------------- blocks, one item more

  lemma {:induction false} OneMoreHeading(items: seq<Item>, title: Text)
    ensures Blocks(items + [Open(title)]) == Blocks(items) + [Block(title, [])]
    ensures LinesBeforeNext(items + [Open(title)]) == LinesBeforeNext(items)
  {
    if items != [] {
      assert (items + [Open(title)])[1..] == items[1..] + [Open(title)];
      OneMoreHeading(items[1..], title);
    }
  }

  /** A block with one line more. */
  function WithLine(b: Block, line: Text): Block {
    b.(lines := b.lines + [line])
  }

  lemma {:induction false} OneMoreLine(items: seq<Item>, line: Text)
    ensures
      var before := Blocks(items);
      Blocks(items + [Line(line)])
      == if before == [] then [] else before[..|before| - 1] + [WithLine(before[|before| - 1], line)]
    ensures
      LinesBeforeNext(items + [Line(line)])
      == if Blocks(items) == [] then LinesBeforeNext(items) + [line] else LinesBeforeNext(items)
  {
    if items != [] {
      assert (items + [Line(line)])[1..] == items[1..] + [Line(line)];
      OneMoreLine(items[1..], line);
    }
  }

  function AppendSummary(summary: Text, line: Text): Text {
    Cut(if summary != [] then summary + (NEWLINE + line) else line)
  }

  /** Adding one line to the cut of the lines so far is the same as cutting all the lines once. */
  lemma CutOnce(lines: seq<Text>, line: Text)
    requires forall i | 0 <= i < |lines| :: lines[i] != []
    ensures AppendSummary(Cut(Join(lines)), line) == Cut(Join(lines + [line]))
  {
    JoinOneMore(lines, line);
    if lines != [] {
      assert lines[|lines| - 1] != [];
      CutExtends(Join(lines), NEWLINE + line);
    }
  }

  lemma JoinOneMore(lines: seq<Text>, line: Text)
    ensures Join(lines + [line]) == if lines == [] then line else Join(lines) + (NEWLINE + line)
  {
    assert (lines + [line])[..|lines|] == lines;
  }

  lemma CutExtends(s: Text, more: Text)
    ensures Cut(Cut(s) + more) == Cut(s + more)
  {
    if |s| > MAX_SUMMARY {
      assert (Cut(s) + more)[..MAX_SUMMARY] == s[..MAX_SUMMARY] == (s + more)[..MAX_SUMMARY];
    }
  }

  lemma {:induction false} LinesOfBlocks(items: seq<Item>)
    requires NoEmptyLine(items)
    ensures forall i, j | 0 <= i < |Blocks(items)| && 0 <= j < |Blocks(items)[i].lines| ::
      Blocks(items)[i].lines[j] != []
    ensures forall j | 0 <= j < |LinesBeforeNext(items)| :: LinesBeforeNext(items)[j] != []
  {
    if items != [] {
      LinesOfBlocks(items[1..]);
    }
  }

  ghost predicate NoEmptyLine(items: seq<Item>) {
    forall i | 0 <= i < |items| && items[i].Line? :: items[i].text != []
  }

  /** One line more changes the summary of the last entry, or nothing if there is none. */
  lemma OneMoreLineEntry(items: seq<Item>, line: Text)
    requires NoEmptyLine(items)
    ensures
      var before := EntriesOf(Blocks(items));
      var last := |before| - 1;
      EntriesOf(Blocks(items + [Line(line)]))
      == if before == [] then []
         else before[last := Entry(before[last].title, AppendSummary(before[last].summary, line))]
  {
    var blocks := Blocks(items);
    OneMoreLine(items, line);
    if blocks != [] {
      var b := blocks[|blocks| - 1];
      LinesOfBlocks(items);
      CutOnce(b.lines, line);
      LastEntry(blocks, WithLine(b, line));
    }
  }

  lemma LastEntry(blocks: seq<Block>, b: Block)
    requires blocks != []
    ensures EntriesOf(blocks[..|blocks| - 1] + [b]) == EntriesOf(blocks)[|blocks| - 1 := EntryOf(b)]
  {
  }

  // ---------------------------------------------------------------- the source's form

  class Splitter {
    var entries: seq<Entry>
    var cur: Option<nat>            // index of the block lines go to
    ghost var seen: seq<Item>

    ghost predicate Valid()
      reads this
    {
      && entries == EntriesOf(Blocks(seen))
      && cur == (if entries == [] then None else Some(|entries| - 1))
      && NoEmptyLine(seen)
    }

    constructor ()
      ensures Valid() && seen == []
    {
      entries, cur, seen := [], None, [];
    }

    method OpenBlock(title: Text)
      requires Valid()
      modifies this
      ensures Valid() && seen == old(seen) + [Open(title)]
    {
      OneMoreHeading(seen, title);
      entries := entries + [Entry(title, [])];
      cur := Some(|entries| - 1);
      seen := seen + [Open(title)];
    }

    method AddLine(line: Text)
      requires Valid() && line != []
      modifies this
      ensures Valid() && seen == old(seen) + [Line(line)]
    {
      OneMoreLineEntry(seen, line);
      if cur.Some? {
        var e := entries[cur.value];
        entries := entries[cur.value := e.(summary := AppendSummary(e.summary, line))];
      }
      seen := seen + [Line(line)];
    }

    method Walk(n: Node)
      requires Valid()
      modifies this
      ensures Valid() && seen == old(seen) + Items(n)
      decreases n, |n.kids| + 1
    {
      if n.Element? {
        if n.tag == "h1" {
          return;
        } else if n.tag == "h2" {
          OpenBlock(n.text);
          return;
        } else if n.tag == "h3" {
          AddLine(OPENING + n.text + CLOSING);
          return;
        } else if n.tag == "li" || n.tag == "p" {
          if n.text != [] {
            AddLine(n.text);
          }
          return;
        }
      }
      WalkKids(n);
    }

    method WalkKids(n: Node)
      requires Valid()
      modifies this
      ensures Valid() && seen == old(seen) + ItemsFirst(n, |n.kids|)
      decreases n, |n.kids|
    {
      for i := 0 to |n.kids|
        invariant Valid() && seen == old(seen) + ItemsFirst(n, i)
      {
        Walk(n.kids[i]);
      }
    }

    /** Drop the blocks without a title, in place. */
    method DropUntitled() returns (kept: seq<Entry>)
      modifies this`entries
      ensures kept == Titled(old(entries))
    {
      ghost var all := entries;
      var out := 0;
      for i := 0 to |entries|
        invariant |entries| == |all| && out <= i
        invariant entries[..out] == Titled(all[..i])
        invariant entries[i..] == all[i..]
      {
        assert all[..i + 1][..i] == all[..i];
        var e := entries[i];
        assert e == entries[i..][0] == all[i];
        if e.title != [] {
          entries := entries[out := e];
          out := out + 1;
        }
        assert entries[i + 1..] == all[i..][1..];
      }
      assert all[..|all|] == all;
      return entries[..out];
    }
  }

  /** The walk with its running pointer and its incremental truncation computes the page's changelog. */
  method SplitChangelogBlocks(main: Node) returns (entries: seq<Entry>)
    ensures entries == ChangelogOf(main)
  {
    var s := new Splitter();
    s.WalkKids(main);
    assert s.seen == ItemsFirst(main, |main.kids|);
    entries := s.DropUntitled();
  }

  datatype Fetched = Entries(entries: seq<Entry>) | NoMain | NoBlocks

  /** fetchChangelog, from the parsed page on. */
  method FetchChangelog(doc: Node) returns (r: Fetched)
    ensures r.NoMain? <==> FirstNamed(Preorder(doc), "main").None?
    ensures r.Entries? ==> r.entries == ChangelogOf(FirstNamed(Preorder(doc), "main").value) != []
    ensures r.NoBlocks? ==> ChangelogOf(FirstNamed(Preorder(doc), "main").value) == []
  {
    FindIsFirst(doc, "main");
    var main := FindElement(doc, "main");
    if main.None? {
      return NoMain;
    }
    var entries := SplitChangelogBlocks(main.value);
    return if entries == [] then NoBlocks else Entries(entries);
  }

  // ---------------------------------------------------------------- nothing is lost

  function AsItems(lines: seq<Text>): seq<Item> {
    if lines == [] then [] else [Line(lines[0])] + AsItems(lines[1..])
  }

  function ItemsOf(b: Block): seq<Item> {
    [Open(b.title)] + AsItems(b.lines)
  }

  function Unblock(blocks: seq<Block>): seq<Item> {
    if blocks == [] then [] else ItemsOf(blocks[0]) + Unblock(blocks[1..])
  }

  function FromFirstHeading(items: seq<Item>): seq<Item> {
    if items == [] || items[0].Open? then items else FromFirstHeading(items[1..])
  }

  lemma FirstAsItem(line: Text, lines: seq<Text>)
    ensures AsItems([line] + lines) == [Line(line)] + AsItems(lines)
  {
    assert ([line] + lines)[1..] == lines;
  }

  lemma {:induction false} LeadingLines(items: seq<Item>)
    ensures AsItems(LinesBeforeNext(items)) + FromFirstHeading(items) == items
  {
    if items != [] && items[0].Line? {
      var rest := items[1..];
      LeadingLines(rest);
      FirstAsItem(items[0].text, LinesBeforeNext(rest));
      assert [items[0]] + (AsItems(LinesBeforeNext(rest)) + FromFirstHeading(rest)) == items;
    }
  }

  /** Read in order, the blocks are the page's items again, less the lines before the first heading. */
  lemma {:induction false} BlocksKeepItems(items: seq<Item>)
    ensures Unblock(Blocks(items)) == FromFirstHeading(items)
  {
    if items != [] {
      var rest := items[1..];
      BlocksKeepItems(rest);
      if items[0].Open? {
        var b := Block(items[0].title, LinesBeforeNext(rest));
        LeadingLines(rest);
        UnblockFirst(b, Blocks(rest));
        assert items == [Open(b.title)] + (AsItems(b.lines) + FromFirstHeading(rest));
      }
    }
  }

  lemma UnblockFirst(b: Block, blocks: seq<Block>)
    ensures Unblock([b] + blocks) == [Open(b.title)] + (AsItems(b.lines) + Unblock(blocks))
  {
    assert ([b] + blocks)[1..] == blocks;
  }

  // ---------------------------------------------------------------- what the entries hold

  /** These lines one below the other, with byte 10 between them. */
  function Stacked(lines: seq<Text>): Text {
    if lines == [] then [] else if |lines| == 1 then lines[0] else lines[0] + [10] + Stacked(lines[1..])
  }

  lemma {:induction false} JoinStacks(lines: seq<Text>)
    ensures Join(lines) == Stacked(lines)
  {
    if |lines| > 1 {
      var front, last := lines[..|lines| - 1], lines[|lines| - 1];
      JoinStacks(front);
      StackedOneMore(front, last);
      assert lines == front + [last];
    }
  }

  lemma {:induction false} StackedOneMore(lines: seq<Text>, line: Text)
    requires lines != []
    ensures Stacked(lines + [line]) == Stacked(lines) + ([10] + line)
  {
    assert (lines + [line])[1..] == lines[1..] + [line];
    if |lines| > 1 {
      StackedOneMore(lines[1..], line);
    } else {
      assert lines[1..] + [line] == [line];
    }
  }

  /** A text of at most 500 bytes in full, or the first 500 bytes of a longer one and an ellipsis (E2 80 A6). */
  predicate Summarises(summary: Text, whole: Text) {
    if |whole| <= 500 then summary == whole
    else |summary| == 503 && summary[..500] == whole[..500] && summary[500..] == [0xe2, 0x80, 0xa6]
  }

  /** The blocks that have a title. */
  function TitledBlocks(blocks: seq<Block>): seq<Block> {
    if blocks == [] then []
    else (if blocks[0].title == [] then [] else [blocks[0]]) + TitledBlocks(blocks[1..])
  }

  lemma {:induction false} TitledBlocksOneMore(blocks: seq<Block>, b: Block)
    ensures TitledBlocks(blocks + [b]) == TitledBlocks(blocks) + if b.title == [] then [] else [b]
  {
    if blocks != [] {
      assert (blocks + [b])[1..] == blocks[1..] + [b];
      TitledBlocksOneMore(blocks[1..], b);
    }
  }

  /** The entry carries the block's title and sums up its lines. */
  predicate Reports(e: Entry, b: Block) {
    e.title == b.title && Summarises(e.summary, Stacked(b.lines))
  }

  lemma {:induction false} TitledReports(blocks: seq<Block>)
    ensures
      var es, kept := Titled(EntriesOf(blocks)), TitledBlocks(blocks);
      |es| == |kept| && forall i | 0 <= i < |es| :: Reports(es[i], kept[i])
  {
    if blocks != [] {
      var front, last := blocks[..|blocks| - 1], blocks[|blocks| - 1];
      TitledReports(front);
      TitledBlocksOneMore(front, last);
      JoinStacks(last.lines);
      assert blocks == front + [last];
      assert EntriesOf(blocks)[..|blocks| - 1] == EntriesOf(front);
    }
  }

  /** The entries of a page are its blocks that have a title, in order, each with its lines one below the other, cut
      after 500 bytes. */
  lemma EntriesReport(main: Node)
    ensures
      var es, kept := ChangelogOf(main), TitledBlocks(Blocks(ItemsFirst(main, |main.kids|)));
      |es| == |kept| && forall i | 0 <= i < |es| :: Reports(es[i], kept[i])
  {
    TitledReports(Blocks(ItemsFirst(main, |main.kids|)));
  }

  // ---------------------------------------------------------------- what a tree holds

  /** Nothing is looked for inside headings, list items and paragraphs. */
  predicate Closed(n: Node) {
    n.Element? && n.tag in {"h1", "h2", "h3", "li", "p"}
  }

  /** The nodes below `n` that are looked at, in document order. */
  function Visible(n: Node): seq<Node>
    decreases n, |n.kids| + 1
  {
    [n] + if Closed(n) then [] else VisibleFirst(n, |n.kids|)
  }

  /** ... below its first `i` children. */
  function VisibleFirst(n: Node, i: nat): seq<Node>
    requires i <= |n.kids|
    decreases n, i
  {
    if i == 0 then [] else VisibleFirst(n, i - 1) + Visible(n.kids[i - 1])
  }

  /** What a single node says: a second-level heading opens a block, a third-level one is a line in brackets (E3 80 90
      and E3 80 91), list items and paragraphs that are not empty are lines. */
  function Said(n: Node): seq<Item> {
    if !n.Element? then []
    else if n.tag == "h2" then [Open(n.text)]
    else if n.tag == "h3" then [Line([0xe3, 0x80, 0x90] + n.text + [0xe3, 0x80, 0x91])]
    else if n.tag in {"li", "p"} && n.text != [] then [Line(n.text)]
    else []
  }

  function AllSaid(nodes: seq<Node>): seq<Item> {
    if nodes == [] then [] else Said(nodes[0]) + AllSaid(nodes[1..])
  }

  lemma {:induction false} AllSaidConcat(a: seq<Node>, b: seq<Node>)
    ensures AllSaid(a + b) == AllSaid(a) + AllSaid(b)
  {
    if a == [] {
      assert a + b == b;
    } else {
      assert (a + b)[1..] == a[1..] + b;
      AllSaidConcat(a[1..], b);
    }
  }

  /** The walk takes from a tree exactly what its visible nodes say, in document order. */
  lemma {:induction false} ItemsSaid(n: Node)
    ensures Items(n) == AllSaid(Visible(n))
    decreases n, |n.kids| + 1
  {
    var rest := if Closed(n) then [] else VisibleFirst(n, |n.kids|);
    assert Visible(n)[1..] == rest;
    if !Closed(n) {
      ItemsFirstSaid(n, |n.kids|);
    }
  }

  lemma {:induction false} ItemsFirstSaid(n: Node, i: nat)
    requires i <= |n.kids|
    ensures ItemsFirst(n, i) == AllSaid(VisibleFirst(n, i))
    decreases n, i
  {
    if i > 0 {
      ItemsFirstSaid(n, i - 1);
      ItemsSaid(n.kids[i - 1]);
      AllSaidConcat(VisibleFirst(n, i - 1), Visible(n.kids[i - 1]));
    }
  }
}
