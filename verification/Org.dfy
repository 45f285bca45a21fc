/**
  The org projection (`speakable_sections_org` in docs.py): source and example blocks and tables are
  announced, quotes and verses are read, other blocks, drawers, keywords and comments say nothing.
 */
module Org {
  import opened Wrappers
  import opened Docs

  /** A line by the first pattern that takes it, in the order they are tried. */
  datatype Kind =
    | Begin(block: string)
    | Drawer
    | Silent
    | Row(divider: bool)
    | Heading(level: nat, text: string)
    | Checkbox(words: string)
    | ListItem(words: string)
    | Text(words: string)

  /** Which blocks it would end, whether it would end a drawer, and its words as a quote says them. */
  datatype Line = Line(kind: Kind, ends: string -> bool, drawerEnd: bool, quoted: string)

  predicate Read(block: string) {
    block == "quote" || block == "verse"
  }

  /** The line that ends a block, or the length. */
  function BlockEnd(lines: seq<Line>, i: nat, block: string): (end: nat)
    requires i <= |lines|
    ensures i <= end <= |lines|
    ensures forall k :: i <= k < end ==> !lines[k].ends(block)
    ensures end < |lines| ==> lines[end].ends(block)
    decreases |lines| - i
  {
    if i == |lines| || lines[i].ends(block) then i else BlockEnd(lines, i + 1, block)
  }

  function DrawerEnd(lines: seq<Line>, i: nat): (end: nat)
    requires i <= |lines|
    ensures i <= end <= |lines|
    ensures forall k :: i <= k < end ==> !lines[k].drawerEnd
    ensures end < |lines| ==> lines[end].drawerEnd
    decreases |lines| - i
  {
    if i == |lines| || lines[i].drawerEnd then i else DrawerEnd(lines, i + 1)
  }

  function TableEnd(lines: seq<Line>, i: nat): (end: nat)
    requires i <= |lines|
    ensures i <= end <= |lines|
    ensures forall k :: i <= k < end ==> lines[k].kind.Row?
    ensures end < |lines| ==> !lines[end].kind.Row?
    decreases |lines| - i
  {
    if i == |lines| || !lines[i].kind.Row? then i else TableEnd(lines, i + 1)
  }

  function Rows(lines: seq<Line>, i: nat, end: nat): nat
    requires i <= end <= |lines|
    decreases end - i
  {
    if i == end then 0 else (if lines[i].kind == Row(false) then 1 else 0) + Rows(lines, i + 1, end)
  }

  /** The rows that are counted. */
  function RowsIn(lines: seq<Line>, i: nat, end: nat): set<nat>
    requires i <= end <= |lines|
  {
    set k: nat | i <= k < end && lines[k].kind == Row(false)
  }

  lemma {:induction false} RowsCount(lines: seq<Line>, i: nat, end: nat)
    requires i <= end <= |lines|
    ensures Rows(lines, i, end) == |RowsIn(lines, i, end)|
    decreases end - i
  {
    if i < end {
      RowsCount(lines, i + 1, end);
      assert RowsIn(lines, i, end)
             == (if lines[i].kind == Row(false) then {i} else {}) + RowsIn(lines, i + 1, end);
    }
  }

  lemma {:induction false} RowsPush(lines: seq<Line>, i: nat, end: nat)
    requires i <= end < |lines|
    ensures Rows(lines, i, end + 1) == Rows(lines, i, end) + if lines[end].kind == Row(false) then 1 else 0
    decreases end - i
  {
    if i < end {
      RowsPush(lines, i + 1, end);
    }
  }

  /** The lines of a quote, each as itself. */
  function Quote(lines: seq<Line>, i: nat, end: nat): seq<Item>
    requires i <= end <= |lines|
  {
    if i == end then [] else Quote(lines, i, end - 1) + [Add(Words(lines[end - 1].quoted), end - 1)]
  }

  function Block(lines: seq<Line>, i: nat, end: nat, block: string): seq<Item>
    requires i < end <= |lines|
  {
    if Read(block) then Quote(lines, i + 1, end)
    else if block == "src" then Announce(CodeFollows(end - (i + 1)), i)
    else if block == "example" then Announce(ExampleFollows(end - (i + 1)), i)
    else []
  }

  /** The line after a block's or drawer's last. */
  function Past(lines: seq<Line>, end: nat): nat {
    if end < |lines| then end + 1 else |lines|
  }

  /** The stream from line i on, block by block. */
  function Items(lines: seq<Line>, i: nat): seq<Item>
    requires i <= |lines|
    decreases |lines| - i
  {
    if i == |lines| then []
    else
      match lines[i].kind
      case Begin(block) =>
        var end := BlockEnd(lines, i + 1, block);
        Block(lines, i, end, block) + Items(lines, Past(lines, end))
      case Drawer => Items(lines, Past(lines, DrawerEnd(lines, i + 1)))
      case Silent => Items(lines, i + 1)
      case Row(_) =>
        var end := TableEnd(lines, i);
        Announce(TableFollows(Rows(lines, i, end)), i) + Items(lines, end)
      case Heading(level, text) => [Head(text, level, i)] + Items(lines, i + 1)
      case Checkbox(words) => Apart(words, i) + Items(lines, i + 1)
      case ListItem(words) => Apart(words, i) + Items(lines, i + 1)
      case Text(words) => [Add(Words(words), i)] + Items(lines, i + 1)
  }

  // ---------------------------------------------------------------- the loops

  lemma {:induction false} QuoteLast(lines: seq<Line>, i: nat, end: nat, rest: seq<Item>)
    requires i < end <= |lines|
    ensures Quote(lines, i, end) + rest
            == Quote(lines, i, end - 1) + ([Add(Words(lines[end - 1].quoted), end - 1)] + rest)
  {
  }

  lemma {:induction false} QuoteAdds(lines: seq<Line>, i: nat, end: nat)
    requires i <= end <= |lines|
    ensures OnlyAdds(Quote(lines, i, end))
  {
    if i < end {
      QuoteAdds(lines, i, end - 1);
    }
  }

  lemma {:induction false} BlockAdds(lines: seq<Line>, i: nat, end: nat, block: string)
    requires i < end <= |lines|
    ensures OnlyAdds(Block(lines, i, end, block))
  {
    QuoteAdds(lines, i + 1, end);
  }

  /** A block from the line after its first: its lines, and what it says. */
  method SpeakBlock(lines: seq<Line>, start: nat, block: string) returns (i: nat, out: seq<Item>)
    requires start < |lines|
    ensures i == BlockEnd(lines, start + 1, block) && out == Block(lines, start, i, block)
  {
    hide Announce;
    var body := [];
    var n := 0;
    i := start + 1;
    while i < |lines| && !lines[i].ends(block)
      invariant start + 1 <= i <= |lines| && n == |body| == i - (start + 1)
      invariant BlockEnd(lines, start + 1, block) == BlockEnd(lines, i, block)
      invariant forall k :: 0 <= k < n ==> body[k] == lines[start + 1 + k]
    {
      body := body + [lines[i]];
      n, i := n + 1, i + 1;
    }
    out := [];
    if Read(block) {
      for k := 0 to |body|
        invariant out == Quote(lines, start + 1, start + 1 + k)
      {
        out := out + [Add(Words(body[k].quoted), start + 1 + k)];
      }
    } else if block == "src" {
      out := Announce(CodeFollows(n), start);
    } else if block == "example" {
      out := Announce(ExampleFollows(n), start);
    }
  }

  method SkipDrawer(lines: seq<Line>, start: nat) returns (i: nat)
    requires start <= |lines|
    ensures i == DrawerEnd(lines, start)
  {
    i := start;
    while i < |lines| && !lines[i].drawerEnd
      invariant start <= i <= |lines| && DrawerEnd(lines, start) == DrawerEnd(lines, i)
    {
      i := i + 1;
    }
  }

  method ScanTable(lines: seq<Line>, start: nat) returns (rows: nat, i: nat)
    requires start <= |lines|
    ensures i == TableEnd(lines, start) && rows == Rows(lines, start, i)
  {
    rows, i := 0, start;
    while i < |lines| && lines[i].kind.Row?
      invariant start <= i <= |lines| && rows == Rows(lines, start, i)
      invariant TableEnd(lines, start) == TableEnd(lines, i)
    {
      RowsPush(lines, start, i);
      if !lines[i].kind.divider {
        rows := rows + 1;
      }
      i := i + 1;
    }
  }

  method SpeakableSectionsOrg(lines: seq<Line>) returns (sections: seq<Section>)
    ensures sections == Assembled(Items(lines, 0))
  {
    hide Flush, TakeAll, BlockEnd, DrawerEnd, TableEnd, Rows, Block;
    sections := [];
    var cur, buf := Open("", 1, None), [];
    var i := 0;
    while i < |lines|
      invariant 0 <= i <= |lines|
      invariant TakeAll(NOTHING, Items(lines, 0)) == TakeAll(Assembly(sections, cur, buf), Items(lines, i))
    {
      var start := i;
      ghost var a := Assembly(sections, cur, buf);
      match lines[i].kind {
        case Begin(block) =>
          var end, said := SpeakBlock(lines, start, block);
          i := Past(lines, end);
          BlockAdds(lines, start, end, block);
          buf := buf + Buffered(said);
          Buffers(a, said, Items(lines, i));
        case Drawer =>
          var end := SkipDrawer(lines, start + 1);
          i := Past(lines, end);
        case Silent =>
          i := i + 1;
        case Row(_) =>
          var rows, end := ScanTable(lines, start);
          i := end;
          buf := buf + Buffered(Announce(TableFollows(rows), start));
          Buffers(a, Announce(TableFollows(rows), start), Items(lines, i));
        case Heading(level, text) =>
          sections := sections + Flush(cur, buf);
          cur, buf := Open(text, level, Some(i)), [];
          i := i + 1;
          Heads(a, text, level, start, Items(lines, i));
        case Checkbox(words) =>
          buf := buf + Buffered(Apart(words, i));
          i := i + 1;
          Buffers(a, Apart(words, start), Items(lines, i));
        case ListItem(words) =>
          buf := buf + Buffered(Apart(words, i));
          i := i + 1;
          Buffers(a, Apart(words, start), Items(lines, i));
        case Text(words) =>
          buf := buf + Buffered([Add(Words(words), i)]);
          i := i + 1;
          Buffers(a, [Add(Words(words), start)], Items(lines, i));
      }
    }
    NoneLeft(Assembly(sections, cur, buf));
    sections := sections + Flush(cur, buf);
  }

  // ---------------------------------------------------------------- line by line

  datatype Mode = Outside | InBlock(block: string) | InDrawer

  /** Where line l is when it is read. */
  function ModeAt(lines: seq<Line>, l: nat): Mode
    requires l <= |lines|
  {
    if l == 0 then Outside
    else
      var line := lines[l - 1];
      match ModeAt(lines, l - 1)
      case Outside =>
        if line.kind.Begin? then InBlock(line.kind.block) else if line.kind.Drawer? then InDrawer else Outside
      case InBlock(block) => if line.ends(block) then Outside else InBlock(block)
      case InDrawer => if line.drawerEnd then Outside else InDrawer
  }

  predicate InTable(lines: seq<Line>, l: int)
    requires l < |lines|
  {
    l >= 0 && ModeAt(lines, l).Outside? && lines[l].kind.Row?
  }

  /** What a line says, by itself and what came before it. */
  function LineItems(lines: seq<Line>, l: nat): seq<Item>
    requires l < |lines|
  {
    match ModeAt(lines, l)
    case InDrawer => []
    case InBlock(block) => if Read(block) && !lines[l].ends(block) then [Add(Words(lines[l].quoted), l)] else []
    case Outside =>
      match lines[l].kind
      case Begin(block) =>
        var n := BlockEnd(lines, l + 1, block) - (l + 1);
        if block == "src" then Announce(CodeFollows(n), l)
        else if block == "example" then Announce(ExampleFollows(n), l)
        else []
      case Drawer => []
      case Silent => []
      case Row(_) =>
        if InTable(lines, l - 1) then [] else Announce(TableFollows(Rows(lines, l, TableEnd(lines, l))), l)
      case Heading(level, text) => [Head(text, level, l)]
      case Checkbox(words) => Apart(words, l)
      case ListItem(words) => Apart(words, l)
      case Text(words) => [Add(Words(words), l)]
  }

  function EachLine(lines: seq<Line>): (r: seq<seq<Item>>)
    ensures |r| == |lines| && forall l :: 0 <= l < |lines| ==> r[l] == LineItems(lines, l)
  {
    seq(|lines|, l requires 0 <= l < |lines| => LineItems(lines, l))
  }

  /** Line l comes after a block of this name that began at line b and has not ended. */
  ghost predicate InBlockFrom(lines: seq<Line>, b: nat, l: nat, block: string)
    requires l <= |lines|
  {
    && b < l && lines[b].kind == Begin(block) && ModeAt(lines, b).Outside?
    && forall k :: b < k < l ==> !lines[k].ends(block)
  }

  ghost predicate InDrawerFrom(lines: seq<Line>, b: nat, l: nat)
    requires l <= |lines|
  {
    && b < l && lines[b].kind.Drawer? && ModeAt(lines, b).Outside?
    && forall k :: b < k < l ==> !lines[k].drawerEnd
  }

  /** A block is open exactly from the line after its first to the first line that ends it. */
  lemma {:induction false} BlockMeaning(lines: seq<Line>, l: nat, block: string)
    requires l <= |lines|
    ensures ModeAt(lines, l) == InBlock(block) <==> exists b: nat :: InBlockFrom(lines, b, l, block)
  {
    if l > 0 {
      var p := l - 1;
      BlockMeaning(lines, p, block);
      if b: nat :| InBlockFrom(lines, b, l, block) && b < p {
        assert InBlockFrom(lines, b, p, block);
      }
      if b: nat :| InBlockFrom(lines, b, p, block) && !lines[p].ends(block) {
        assert InBlockFrom(lines, b, l, block);
      } else if ModeAt(lines, l) == InBlock(block) {
        assert InBlockFrom(lines, p, l, block);
      }
    }
  }

  lemma {:induction false} DrawerMeaning(lines: seq<Line>, l: nat)
    requires l <= |lines|
    ensures ModeAt(lines, l).InDrawer? <==> exists b: nat :: InDrawerFrom(lines, b, l)
  {
    if l > 0 {
      var p := l - 1;
      DrawerMeaning(lines, p);
      if b: nat :| InDrawerFrom(lines, b, l) && b < p {
        assert InDrawerFrom(lines, b, p);
      }
      if b: nat :| InDrawerFrom(lines, b, p) && !lines[p].drawerEnd {
        assert InDrawerFrom(lines, b, l);
      } else if ModeAt(lines, l).InDrawer? {
        assert InDrawerFrom(lines, p, l);
      }
    }
  }

  /** What each line says: a source or example block the number of its lines, a table that of its rows. */
  lemma {:induction false} LineSays(lines: seq<Line>, l: nat) returns (end: nat)
    requires l < |lines|
    ensures l <= end <= |lines|
    ensures var said := EachLine(lines)[l];
            match ModeAt(lines, l)
            case InDrawer => said == []
            case InBlock(block) =>
              said == if (block == "quote" || block == "verse") && !lines[l].ends(block)
                      then [Add(Words(lines[l].quoted), l)] else []
            case Outside =>
              match lines[l].kind
              case Begin(block) =>
                && l < end && (forall k :: l < k < end ==> !lines[k].ends(block))
                && (end < |lines| ==> lines[end].ends(block))
                && said == (if block == "src" then [Add(BLANK, l), Add(CodeFollows(end - 1 - l), l), Add(BLANK, l)]
                            else if block == "example"
                            then [Add(BLANK, l), Add(ExampleFollows(end - 1 - l), l), Add(BLANK, l)]
                            else [])
              case Row(_) =>
                if l > 0 && lines[l - 1].kind.Row? && ModeAt(lines, l - 1).Outside? then said == []
                else
                  && said == [Add(BLANK, l), Add(TableFollows(|RowsIn(lines, l, end)|), l), Add(BLANK, l)]
                  && (forall k :: l <= k < end ==> lines[k].kind.Row?)
                  && (end < |lines| ==> !lines[end].kind.Row?)
              case Heading(level, text) => said == [Head(text, level, l)]
              case Checkbox(words) => said == [Add(BLANK, l), Add(Words(words), l)]
              case ListItem(words) => said == [Add(BLANK, l), Add(Words(words), l)]
              case Text(words) => said == [Add(Words(words), l)]
              case _ => said == []
  {
    hide ModeAt, Rows, RowsIn;
    end := match lines[l].kind
           case Begin(block) => BlockEnd(lines, l + 1, block)
           case _ => TableEnd(lines, l);
    RowsCount(lines, l, TableEnd(lines, l));
  }

  lemma {:induction false} BlockStays(lines: seq<Line>, i: nat, l: nat)
    requires i < l <= |lines| && ModeAt(lines, i).Outside? && lines[i].kind.Begin?
    requires l <= BlockEnd(lines, i + 1, lines[i].kind.block)
    ensures ModeAt(lines, l) == InBlock(lines[i].kind.block)
  {
    if l > i + 1 {
      BlockStays(lines, i, l - 1);
    }
  }

  lemma {:induction false} DrawerStays(lines: seq<Line>, i: nat, l: nat)
    requires i < l <= |lines| && ModeAt(lines, i).Outside? && lines[i].kind.Drawer?
    requires l <= DrawerEnd(lines, i + 1)
    ensures ModeAt(lines, l) == InDrawer
  {
    if l > i + 1 {
      DrawerStays(lines, i, l - 1);
    }
  }

  lemma {:induction false} TableStays(lines: seq<Line>, i: nat, l: nat)
    requires i <= |lines| && ModeAt(lines, i).Outside? && i <= l <= TableEnd(lines, i)
    ensures ModeAt(lines, l).Outside?
  {
    if l > i {
      TableStays(lines, i, l - 1);
    }
  }

  lemma {:induction false} LineThen(lines: seq<Line>, k: nat)
    requires k < |lines|
    ensures Concat(EachLine(lines), k) == LineItems(lines, k) + Concat(EachLine(lines), k + 1)
  {
    hide LineItems;
  }

  lemma {:induction false} QuotedLine(lines: seq<Line>, i: nat, k: nat, end: nat)
    requires i < k < end && i < |lines| && ModeAt(lines, i).Outside? && lines[i].kind.Begin?
    requires Read(lines[i].kind.block) && end == BlockEnd(lines, i + 1, lines[i].kind.block)
    ensures LineItems(lines, k) == [Add(Words(lines[k].quoted), k)]
  {
    BlockStays(lines, i, k);
  }

  lemma {:induction false} NoQuote(lines: seq<Line>, k: nat)
    requires k <= |lines|
    ensures Quote(lines, k, k) + Concat(EachLine(lines), k) == Concat(EachLine(lines), k)
  {
  }

  lemma {:induction false} SilentLine(lines: seq<Line>, k: nat)
    requires k < |lines| && LineItems(lines, k) == []
    ensures Concat(EachLine(lines), k) == Concat(EachLine(lines), k + 1)
  {
    hide LineItems;
    LineThen(lines, k);
    assert [] + Concat(EachLine(lines), k + 1) == Concat(EachLine(lines), k + 1);
  }

  /** The lines of a quote speak for themselves. */
  lemma {:induction false} QuoteIsLines(lines: seq<Line>, i: nat, l: nat, end: nat)
    requires i < l <= end && i < |lines| && ModeAt(lines, i).Outside? && lines[i].kind.Begin?
    requires Read(lines[i].kind.block) && end == BlockEnd(lines, i + 1, lines[i].kind.block)
    ensures Concat(EachLine(lines), i + 1) == Quote(lines, i + 1, l) + Concat(EachLine(lines), l)
  {
    hide *;
    if l == i + 1 {
      NoQuote(lines, l);
    } else {
      QuoteIsLines(lines, i, l - 1, end);
      LineThen(lines, l - 1);
      QuotedLine(lines, i, l - 1, end);
      QuoteLast(lines, i + 1, l, Concat(EachLine(lines), l));
    }
  }

  lemma {:induction false} ReadBlockIsLines(lines: seq<Line>, i: nat, end: nat)
    requires i < |lines| && lines[i].kind.Begin? && ModeAt(lines, i).Outside? && Read(lines[i].kind.block)
    requires end == BlockEnd(lines, i + 1, lines[i].kind.block)
    ensures Concat(EachLine(lines), i) == Quote(lines, i + 1, end) + Concat(EachLine(lines), Past(lines, end))
  {
    hide *;
    QuoteIsLines(lines, i, end, end);
    BeginIsSilent(lines, i);
    SilentLine(lines, i);
    PastEnd(lines, end);
    if end < |lines| {
      EndIsSilent(lines, i, end);
      SilentLine(lines, end);
    }
  }

  lemma {:induction false} PastEnd(lines: seq<Line>, end: nat)
    ensures Past(lines, end) == if end < |lines| then end + 1 else |lines|
  {
  }

  lemma {:induction false} BeginIsSilent(lines: seq<Line>, i: nat)
    requires i < |lines| && lines[i].kind.Begin? && ModeAt(lines, i).Outside? && Read(lines[i].kind.block)
    ensures LineItems(lines, i) == []
  {
  }

  lemma {:induction false} EndIsSilent(lines: seq<Line>, i: nat, end: nat)
    requires i < end < |lines| && lines[i].kind.Begin? && ModeAt(lines, i).Outside?
    requires end == BlockEnd(lines, i + 1, lines[i].kind.block)
    ensures LineItems(lines, end) == []
  {
    BlockStays(lines, i, end);
  }

  lemma {:induction false} OtherBlockIsOneLine(lines: seq<Line>, i: nat, end: nat)
    requires i < |lines| && lines[i].kind.Begin? && ModeAt(lines, i).Outside? && !Read(lines[i].kind.block)
    requires end == BlockEnd(lines, i + 1, lines[i].kind.block)
    ensures Concat(EachLine(lines), i)
            == Block(lines, i, end, lines[i].kind.block) + Concat(EachLine(lines), Past(lines, end))
  {
    hide *;
    var each := EachLine(lines);
    PastEnd(lines, end);
    LineThen(lines, i);
    OtherBegins(lines, i, end);
    forall k | i + 1 <= k < Past(lines, end) ensures each[k] == [] {
      OtherBlockLine(lines, i, k);
    }
    ConcatSkips(each, i + 1, Past(lines, end));
  }

  lemma {:induction false} OtherBegins(lines: seq<Line>, i: nat, end: nat)
    requires i < |lines| && lines[i].kind.Begin? && ModeAt(lines, i).Outside? && !Read(lines[i].kind.block)
    requires end == BlockEnd(lines, i + 1, lines[i].kind.block)
    ensures LineItems(lines, i) == Block(lines, i, end, lines[i].kind.block)
  {
    hide Announce, ModeAt;
  }

  lemma {:induction false} OtherBlockLine(lines: seq<Line>, i: nat, k: nat)
    requires i < k < |lines| && lines[i].kind.Begin? && ModeAt(lines, i).Outside? && !Read(lines[i].kind.block)
    requires k <= BlockEnd(lines, i + 1, lines[i].kind.block)
    ensures LineItems(lines, k) == []
  {
    hide Announce, ModeAt;
    BlockStays(lines, i, k);
  }

  lemma {:induction false} BlockIsLines(lines: seq<Line>, i: nat)
    requires i < |lines| && lines[i].kind.Begin? && ModeAt(lines, i).Outside?
    ensures var end := BlockEnd(lines, i + 1, lines[i].kind.block);
            && Concat(EachLine(lines), i)
               == Block(lines, i, end, lines[i].kind.block) + Concat(EachLine(lines), Past(lines, end))
            && (end < |lines| ==> ModeAt(lines, end + 1).Outside? && !InTable(lines, end))
  {
    hide Announce, LineItems, Concat;
    var end := BlockEnd(lines, i + 1, lines[i].kind.block);
    BlockStays(lines, i, end);
    if Read(lines[i].kind.block) {
      ReadBlockIsLines(lines, i, end);
    } else {
      OtherBlockIsOneLine(lines, i, end);
    }
  }

  lemma {:induction false} DrawerIsSilent(lines: seq<Line>, i: nat)
    requires i < |lines| && lines[i].kind.Drawer? && ModeAt(lines, i).Outside?
    ensures var end := DrawerEnd(lines, i + 1);
            && Concat(EachLine(lines), i) == Concat(EachLine(lines), Past(lines, end))
            && (end < |lines| ==> ModeAt(lines, end + 1).Outside? && !InTable(lines, end))
  {
    hide *;
    var each, end := EachLine(lines), DrawerEnd(lines, i + 1);
    PastEnd(lines, end);
    forall k | i <= k < Past(lines, end) ensures each[k] == [] {
      DrawerLine(lines, i, k);
    }
    ConcatSkips(each, i, Past(lines, end));
    if end < |lines| {
      DrawerCloses(lines, i);
    }
  }

  lemma {:induction false} DrawerLine(lines: seq<Line>, i: nat, k: nat)
    requires i <= k < |lines| && lines[i].kind.Drawer? && ModeAt(lines, i).Outside?
    requires k <= DrawerEnd(lines, i + 1)
    ensures LineItems(lines, k) == []
  {
    hide Announce, ModeAt;
    if k > i {
      DrawerStays(lines, i, k);
    }
  }

  lemma {:induction false} DrawerCloses(lines: seq<Line>, i: nat)
    requires i < |lines| && lines[i].kind.Drawer? && ModeAt(lines, i).Outside?
    requires DrawerEnd(lines, i + 1) < |lines|
    ensures var end := DrawerEnd(lines, i + 1); ModeAt(lines, end + 1).Outside? && !InTable(lines, end)
  {
    hide DrawerEnd;
    DrawerStays(lines, i, DrawerEnd(lines, i + 1));
  }

  lemma {:induction false} TableIsOneLine(lines: seq<Line>, i: nat)
    requires i < |lines| && lines[i].kind.Row? && ModeAt(lines, i).Outside?
    ensures var end := TableEnd(lines, i);
            i < end && Concat(EachLine(lines), i + 1) == Concat(EachLine(lines), end) && ModeAt(lines, end).Outside?
  {
    hide LineItems;
    var each, end := EachLine(lines), TableEnd(lines, i);
    TableStays(lines, i, end);
    forall k | i + 1 <= k < end ensures each[k] == [] {
      RowIsSilent(lines, i, k);
    }
    ConcatSkips(each, i + 1, end);
  }

  lemma {:induction false} RowIsSilent(lines: seq<Line>, i: nat, k: nat)
    requires i < k && i < |lines| && ModeAt(lines, i).Outside? && k < TableEnd(lines, i)
    ensures LineItems(lines, k) == []
  {
    TableStays(lines, i, k);
    TableStays(lines, i, k - 1);
  }

  /** A line outside blocks, drawers and tables says what it says. */
  lemma {:induction false} PlainLine(lines: seq<Line>, i: nat)
    requires i < |lines| && ModeAt(lines, i).Outside?
    requires !lines[i].kind.Begin? && !lines[i].kind.Drawer? && !lines[i].kind.Row?
    ensures Items(lines, i) == EachLine(lines)[i] + Items(lines, i + 1)
    ensures ModeAt(lines, i + 1).Outside? && !InTable(lines, i)
  {
    hide Announce, Apart, BlockEnd, DrawerEnd, TableEnd, Rows;
    assert EachLine(lines)[i] == LineItems(lines, i);
    assert [] + Items(lines, i + 1) == Items(lines, i + 1);
  }

  lemma {:induction false} TableLine(lines: seq<Line>, i: nat)
    requires i < |lines| && ModeAt(lines, i).Outside? && lines[i].kind.Row? && !InTable(lines, i - 1)
    ensures Items(lines, i) == EachLine(lines)[i] + Items(lines, TableEnd(lines, i))
  {
    assert EachLine(lines)[i] == LineItems(lines, i);
  }

  /** Jumping from block to block says what the lines say one by one. */
  lemma {:induction false} BlocksAreLines(lines: seq<Line>, i: nat)
    requires i <= |lines| && ModeAt(lines, i).Outside?
    requires i < |lines| && lines[i].kind.Row? ==> !InTable(lines, i - 1)
    ensures Items(lines, i) == Concat(EachLine(lines), i)
    decreases |lines| - i
  {
    hide BlockEnd, DrawerEnd, Rows, Announce, Apart, Block, LineItems, InTable;
    if i < |lines| {
      if lines[i].kind.Begin? {
        var end := BlockEnd(lines, i + 1, lines[i].kind.block);
        BlockIsLines(lines, i);
        if end < |lines| {
          BlocksAreLines(lines, end + 1);
        }
      } else if lines[i].kind.Drawer? {
        var end := DrawerEnd(lines, i + 1);
        DrawerIsSilent(lines, i);
        if end < |lines| {
          BlocksAreLines(lines, end + 1);
        }
      } else if lines[i].kind.Row? {
        TableLine(lines, i);
        TableIsOneLine(lines, i);
        BlocksAreLines(lines, TableEnd(lines, i));
      } else {
        PlainLine(lines, i);
        BlocksAreLines(lines, i + 1);
      }
    }
  }

  lemma {:induction false} LineSpeaksOnce(lines: seq<Line>, l: nat)
    requires l < |lines|
    ensures ItemLines(LineItems(lines, l)) == [] || ItemLines(LineItems(lines, l)) == [l]
  {
    hide Announce, Apart, BlockEnd, TableEnd, Rows, InTable, ItemLines, ModeAt;
    NoItemLines();
    match ModeAt(lines, l)
    case InDrawer =>
    case InBlock(_) => OneItemLine(Add(Words(lines[l].quoted), l));
    case Outside =>
      match lines[l].kind
      case Begin(block) =>
        var n := BlockEnd(lines, l + 1, block) - (l + 1);
        AnnounceLine(CodeFollows(n), l);
        AnnounceLine(ExampleFollows(n), l);
      case Drawer =>
      case Silent =>
      case Row(_) => AnnounceLine(TableFollows(Rows(lines, l, TableEnd(lines, l))), l);
      case Heading(level, text) => OneItemLine(Head(text, level, l));
      case Checkbox(words) => ApartLine(words, l);
      case ListItem(words) => ApartLine(words, l);
      case Text(words) => OneItemLine(Add(Words(words), l));
  }

  lemma {:induction false} LinesSpeakOnce(lines: seq<Line>)
    ensures OwnLines(EachLine(lines))
  {
    forall l | 0 <= l < |lines|
      ensures ItemLines(LineItems(lines, l)) == [] || ItemLines(LineItems(lines, l)) == [l]
    {
      LineSpeaksOnce(lines, l);
    }
  }

  /**
    For every org source: the sections say what its lines say, in order and nothing lost, and the
    source lines of its headings and paragraphs are lines of it and only go up.
   */
  lemma {:induction false} Projects(lines: seq<Line>)
    ensures HeardOf(Assembled(Items(lines, 0))) == Heard(Concat(EachLine(lines), 0))
    ensures Rising(SourceLines(Assembled(Items(lines, 0))), 0, |lines|)
  {
    BlocksAreLines(lines, 0);
    NothingIsLost(Items(lines, 0));
    LinesSpeakOnce(lines);
    ConcatRises(EachLine(lines), 0);
    SourceLinesRise(Items(lines, 0), |lines|);
  }
}
