/**
  The markdown projection (`speakable_sections` in docs.py): headings open sections, code and tables
  are announced and not read, everything else is said.
 */
module Markdown {
  import opened Wrappers
  import opened Docs

  datatype Marker = Backticks | Tildes

  /** A line by the first pattern that takes it, in the order they are tried. */
  datatype Line =
    | Fence(marker: Marker)
    | Row(divider: bool)
    | Heading(level: nat, text: string)
    | Rule
    | ListItem(words: string)
    | Text(words: string)

  /** The line that closes a fence, or the length. */
  function FenceEnd(lines: seq<Line>, i: nat, marker: Marker): (end: nat)
    requires i <= |lines|
    ensures i <= end <= |lines|
    ensures forall k :: i <= k < end ==> lines[k] != Fence(marker)
    ensures end < |lines| ==> lines[end] == Fence(marker)
    decreases |lines| - i
  {
    if i == |lines| || lines[i] == Fence(marker) then i else FenceEnd(lines, i + 1, marker)
  }

  /** The line after a table's last. */
  function TableEnd(lines: seq<Line>, i: nat): (end: nat)
    requires i <= |lines|
    ensures i <= end <= |lines|
    ensures forall k :: i <= k < end ==> lines[k].Row?
    ensures end < |lines| ==> !lines[end].Row?
    decreases |lines| - i
  {
    if i == |lines| || !lines[i].Row? then i else TableEnd(lines, i + 1)
  }

  /** The rows of a table that are not dividers. */
  function Rows(lines: seq<Line>, i: nat, end: nat): nat
    requires i <= end <= |lines|
    decreases end - i
  {
    if i == end then 0 else (if lines[i] == Row(false) then 1 else 0) + Rows(lines, i + 1, end)
  }

  /** The rows that are counted. */
  function RowsIn(lines: seq<Line>, i: nat, end: nat): set<nat>
    requires i <= end <= |lines|
  {
    set k: nat | i <= k < end && lines[k] == Row(false)
  }

  lemma {:induction false} RowsCount(lines: seq<Line>, i: nat, end: nat)
    requires i <= end <= |lines|
    ensures Rows(lines, i, end) == |RowsIn(lines, i, end)|
    decreases end - i
  {
    if i < end {
      RowsCount(lines, i + 1, end);
      assert RowsIn(lines, i, end) == (if lines[i] == Row(false) then {i} else {}) + RowsIn(lines, i + 1, end);
    }
  }

  lemma {:induction false} RowsPush(lines: seq<Line>, i: nat, end: nat)
    requires i <= end < |lines|
    ensures Rows(lines, i, end + 1) == Rows(lines, i, end) + if lines[end] == Row(false) then 1 else 0
    decreases end - i
  {
    if i < end {
      RowsPush(lines, i + 1, end);
    }
  }

  /** The stream from line i on, block by block. */
  function Items(lines: seq<Line>, i: nat): seq<Item>
    requires i <= |lines|
    decreases |lines| - i
  {
    if i == |lines| then []
    else
      match lines[i]
      case Fence(marker) =>
        var end := FenceEnd(lines, i + 1, marker);
        Announce(CodeFollows(end - (i + 1)), i) + Items(lines, if end < |lines| then end + 1 else end)
      case Row(_) =>
        var end := TableEnd(lines, i);
        Announce(TableFollows(Rows(lines, i, end)), i) + Items(lines, end)
      case Heading(level, text) => [Head(text, level, i)] + Items(lines, i + 1)
      case Rule => Items(lines, i + 1)
      case ListItem(words) => Apart(words, i) + Items(lines, i + 1)
      case Text(words) => [Add(Words(words), i)] + Items(lines, i + 1)
  }

  /** Counts the lines of a block of code, from the one after its fence to the one that closes it. */
  method ScanFence(lines: seq<Line>, start: nat, marker: Marker) returns (n: nat, i: nat)
    requires start <= |lines|
    ensures i == FenceEnd(lines, start, marker) && n == i - start
  {
    n, i := 0, start;
    while i < |lines| && lines[i] != Fence(marker)
      invariant start <= i <= |lines| && n == i - start
      invariant FenceEnd(lines, start, marker) == FenceEnd(lines, i, marker)
    {
      n, i := n + 1, i + 1;
    }
  }

  method ScanTable(lines: seq<Line>, start: nat) returns (rows: nat, i: nat)
    requires start <= |lines|
    ensures i == TableEnd(lines, start) && rows == Rows(lines, start, i)
  {
    rows, i := 0, start;
    while i < |lines| && lines[i].Row?
      invariant start <= i <= |lines| && rows == Rows(lines, start, i)
      invariant TableEnd(lines, start) == TableEnd(lines, i)
    {
      RowsPush(lines, start, i);
      if !lines[i].divider {
        rows := rows + 1;
      }
      i := i + 1;
    }
  }

  method SpeakableSections(lines: seq<Line>) returns (sections: seq<Section>)
    ensures sections == Assembled(Items(lines, 0))
  {
    hide Flush, TakeAll, FenceEnd, TableEnd, Rows;
    sections := [];
    var cur, buf := Open("", 1, None), [];
    var i := 0;
    while i < |lines|
      invariant 0 <= i <= |lines|
      invariant TakeAll(NOTHING, Items(lines, 0)) == TakeAll(Assembly(sections, cur, buf), Items(lines, i))
    {
      var line, start := lines[i], i;
      ghost var a := Assembly(sections, cur, buf);
      match line {
        case Fence(marker) =>
          var n, end := ScanFence(lines, start + 1, marker);
          i := if end < |lines| then end + 1 else end;
          buf := buf + Buffered(Announce(CodeFollows(n), start));
          Buffers(a, Announce(CodeFollows(n), start), Items(lines, i));
        case Row(_) =>
          var rows, end := ScanTable(lines, start);
          i := end;
          buf := buf + Buffered(Announce(TableFollows(rows), start));
          Buffers(a, Announce(TableFollows(rows), start), Items(lines, i));
        case Heading(level, text) =>
          sections := sections + Flush(cur, buf);
          cur, buf := Open(text, level, Some(i)), [];
          i := i + 1;
          Heads(a, text, level, start, Items(lines, i));
        case Rule =>
          i := i + 1;
        case ListItem(words) =>
          buf := buf + Buffered(Apart(words, i));
          i := i + 1;
          Buffers(a, Apart(words, start), Items(lines, i));
        case Text(words) =>
          buf := buf + Buffered([Add(Words(words), i)]);
          i := i + 1;
          Buffers(a, [Add(Words(words), start)], Items(lines, i));
      }
    }
    NoneLeft(Assembly(sections, cur, buf));
    sections := sections + Flush(cur, buf);
  }

  // ---------------------------------------------------------------- line by line

  /** The fence that is open when line l is read. */
  function OpenAt(lines: seq<Line>, l: nat): Option<Marker>
    requires l <= |lines|
  {
    if l == 0 then None
    else
      match OpenAt(lines, l - 1)
      case Some(m) => if lines[l - 1] == Fence(m) then None else Some(m)
      case None => if lines[l - 1].Fence? then Some(lines[l - 1].marker) else None
  }

  predicate InTable(lines: seq<Line>, l: int)
    requires l < |lines|
  {
    l >= 0 && OpenAt(lines, l).None? && lines[l].Row?
  }

  /** What a line says, by itself and what came before it. */
  function LineItems(lines: seq<Line>, l: nat): seq<Item>
    requires l < |lines|
  {
    if OpenAt(lines, l).Some? then []
    else
      match lines[l]
      case Fence(marker) => Announce(CodeFollows(FenceEnd(lines, l + 1, marker) - (l + 1)), l)
      case Row(_) =>
        if InTable(lines, l - 1) then [] else Announce(TableFollows(Rows(lines, l, TableEnd(lines, l))), l)
      case Heading(level, text) => [Head(text, level, l)]
      case Rule => []
      case ListItem(words) => Apart(words, l)
      case Text(words) => [Add(Words(words), l)]
  }

  function EachLine(lines: seq<Line>): (r: seq<seq<Item>>)
    ensures |r| == |lines| && forall l :: 0 <= l < |lines| ==> r[l] == LineItems(lines, l)
  {
    seq(|lines|, l requires 0 <= l < |lines| => LineItems(lines, l))
  }

  /** Line l comes after a fence of this kind that opened at line b and has not closed. */
  ghost predicate InFence(lines: seq<Line>, b: nat, l: nat, marker: Marker)
    requires l <= |lines|
  {
    && b < l && lines[b] == Fence(marker) && OpenAt(lines, b).None?
    && forall k :: b < k < l ==> lines[k] != Fence(marker)
  }

  /** A fence is open exactly from the line after the one that opens it to the first of its kind. */
  lemma {:induction false} OpenMeaning(lines: seq<Line>, l: nat, marker: Marker)
    requires l <= |lines|
    ensures OpenAt(lines, l) == Some(marker) <==> exists b: nat :: InFence(lines, b, l, marker)
  {
    if l > 0 {
      var p := l - 1;
      OpenMeaning(lines, p, marker);
      if b: nat :| InFence(lines, b, l, marker) && b < p {
        assert InFence(lines, b, p, marker);
      }
      if b: nat :| InFence(lines, b, p, marker) && lines[p] != Fence(marker) {
        assert InFence(lines, b, l, marker);
      } else if OpenAt(lines, l) == Some(marker) {
        assert InFence(lines, p, l, marker);
      }
    }
  }

  /** A block of code announced by the number of its lines, a table by that of its rows that are not dividers. */
  lemma {:induction false} LineSays(lines: seq<Line>, l: nat) returns (end: nat)
    requires l < |lines|
    ensures l <= end <= |lines|
    ensures var said := EachLine(lines)[l];
            if OpenAt(lines, l).Some? then said == []
            else
              match lines[l]
              case Fence(marker) =>
                && l < end && said == [Add(BLANK, l), Add(CodeFollows(end - 1 - l), l), Add(BLANK, l)]
                && (forall k :: l < k < end ==> lines[k] != Fence(marker))
                && (end < |lines| ==> lines[end] == Fence(marker))
              case Row(_) =>
                if l > 0 && lines[l - 1].Row? && OpenAt(lines, l - 1).None? then said == []
                else
                  && said == [Add(BLANK, l), Add(TableFollows(|RowsIn(lines, l, end)|), l), Add(BLANK, l)]
                  && (forall k :: l <= k < end ==> lines[k].Row?)
                  && (end < |lines| ==> !lines[end].Row?)
              case Heading(level, text) => said == [Head(text, level, l)]
              case Rule => said == []
              case ListItem(words) => said == [Add(BLANK, l), Add(Words(words), l)]
              case Text(words) => said == [Add(Words(words), l)]
  {
    hide OpenAt, Rows, RowsIn;
    end := match lines[l]
           case Fence(marker) => FenceEnd(lines, l + 1, marker)
           case _ => TableEnd(lines, l);
    RowsCount(lines, l, TableEnd(lines, l));
  }

  lemma {:induction false} FenceStays(lines: seq<Line>, i: nat, l: nat)
    requires i < l <= |lines| && OpenAt(lines, i).None? && lines[i].Fence?
    requires l <= FenceEnd(lines, i + 1, lines[i].marker)
    ensures OpenAt(lines, l) == Some(lines[i].marker)
  {
    if l > i + 1 {
      FenceStays(lines, i, l - 1);
    }
  }

  lemma {:induction false} TableStays(lines: seq<Line>, i: nat, l: nat)
    requires i <= |lines| && OpenAt(lines, i).None? && i <= l <= TableEnd(lines, i)
    ensures OpenAt(lines, l).None?
  {
    if l > i {
      TableStays(lines, i, l - 1);
    }
  }

  /** A fence's lines say only what the first does. */
  lemma {:induction false} FenceIsOneLine(lines: seq<Line>, i: nat)
    requires i < |lines| && lines[i].Fence? && OpenAt(lines, i).None?
    ensures var end := FenceEnd(lines, i + 1, lines[i].marker);
            var next := if end < |lines| then end + 1 else end;
            && Concat(EachLine(lines), i + 1) == Concat(EachLine(lines), next)
            && (end < |lines| ==> OpenAt(lines, next).None? && !InTable(lines, end))
  {
    hide LineItems, Concat, FenceEnd;
    var each, marker := EachLine(lines), lines[i].marker;
    var end := FenceEnd(lines, i + 1, marker);
    var next := if end < |lines| then end + 1 else end;
    FenceStays(lines, i, end);
    forall k | i + 1 <= k < next ensures each[k] == [] {
      FenceLine(lines, i, k);
    }
    ConcatSkips(each, i + 1, next);
  }

  lemma {:induction false} FenceLine(lines: seq<Line>, i: nat, k: nat)
    requires i < k < |lines| && lines[i].Fence? && OpenAt(lines, i).None?
    requires k <= FenceEnd(lines, i + 1, lines[i].marker)
    ensures LineItems(lines, k) == []
  {
    hide Announce, OpenAt;
    FenceStays(lines, i, k);
  }

  /** A table's lines say only what the first does. */
  lemma {:induction false} TableIsOneLine(lines: seq<Line>, i: nat)
    requires i < |lines| && lines[i].Row? && OpenAt(lines, i).None?
    ensures var end := TableEnd(lines, i);
            i < end && Concat(EachLine(lines), i + 1) == Concat(EachLine(lines), end) && OpenAt(lines, end).None?
  {
    var each, end := EachLine(lines), TableEnd(lines, i);
    TableStays(lines, i, end);
    forall k | i + 1 <= k < end ensures each[k] == [] {
      TableStays(lines, i, k);
      TableStays(lines, i, k - 1);
    }
    ConcatSkips(each, i + 1, end);
  }

  /** Jumping from block to block says what the lines say one by one. */
  lemma {:induction false} BlocksAreLines(lines: seq<Line>, i: nat)
    requires i <= |lines| && OpenAt(lines, i).None?
    requires i < |lines| && lines[i].Row? ==> !InTable(lines, i - 1)
    ensures Items(lines, i) == Concat(EachLine(lines), i)
    decreases |lines| - i
  {
    hide FenceEnd, Rows, Announce, LineItems, InTable, OpenAt, Items, Concat;
    if i == |lines| {
      NoLinesLeft(lines);
    } else {
      LineThen(lines, i);
      if lines[i].Fence? {
        var end := FenceEnd(lines, i + 1, lines[i].marker);
        FenceFirst(lines, i);
        FenceIsOneLine(lines, i);
        if end < |lines| {
          BlocksAreLines(lines, end + 1);
        } else {
          NoLinesLeft(lines);
        }
      } else if lines[i].Row? {
        TableFirst(lines, i);
        TableIsOneLine(lines, i);
        BlocksAreLines(lines, TableEnd(lines, i));
      } else {
        PlainLine(lines, i);
        BlocksAreLines(lines, i + 1);
      }
    }
  }

  lemma {:induction false} NoLinesLeft(lines: seq<Line>)
    ensures Items(lines, |lines|) == Concat(EachLine(lines), |lines|)
  {
  }

  lemma {:induction false} LineThen(lines: seq<Line>, i: nat)
    requires i < |lines|
    ensures Concat(EachLine(lines), i) == LineItems(lines, i) + Concat(EachLine(lines), i + 1)
  {
    hide LineItems;
  }

  lemma {:induction false} FenceFirst(lines: seq<Line>, i: nat)
    requires i < |lines| && lines[i].Fence? && OpenAt(lines, i).None?
    ensures var end := FenceEnd(lines, i + 1, lines[i].marker);
            Items(lines, i) == LineItems(lines, i) + Items(lines, if end < |lines| then end + 1 else end)
  {
    hide FenceEnd, Announce, OpenAt;
  }

  lemma {:induction false} TableFirst(lines: seq<Line>, i: nat)
    requires i < |lines| && lines[i].Row? && OpenAt(lines, i).None? && !InTable(lines, i - 1)
    ensures Items(lines, i) == LineItems(lines, i) + Items(lines, TableEnd(lines, i))
  {
    hide Rows, Announce, OpenAt, InTable;
  }

  lemma {:induction false} PlainLine(lines: seq<Line>, i: nat)
    requires i < |lines| && OpenAt(lines, i).None? && !lines[i].Fence? && !lines[i].Row?
    ensures Items(lines, i) == LineItems(lines, i) + Items(lines, i + 1)
    ensures OpenAt(lines, i + 1).None? && !InTable(lines, i)
  {
    hide Rows, Announce, Apart, FenceEnd, TableEnd;
    assert [] + Items(lines, i + 1) == Items(lines, i + 1);
  }

  lemma {:induction false} LineSpeaksOnce(lines: seq<Line>, l: nat)
    requires l < |lines|
    ensures ItemLines(LineItems(lines, l)) == [] || ItemLines(LineItems(lines, l)) == [l]
  {
    if OpenAt(lines, l).None? {
      match lines[l]
      case Fence(marker) => AnnounceLine(CodeFollows(FenceEnd(lines, l + 1, marker) - (l + 1)), l);
      case Row(_) => AnnounceLine(TableFollows(Rows(lines, l, TableEnd(lines, l))), l);
      case Heading(level, text) => OneItemLine(Head(text, level, l));
      case Rule =>
      case ListItem(words) =>
        ApartLine(words, l);
      case Text(words) => OneItemLine(Add(Words(words), l));
    }
  }

  lemma {:induction false} LinesSpeakOnce(lines: seq<Line>)
    ensures OwnLines(EachLine(lines))
  {
    forall l | 0 <= l < |lines|
      ensures ItemLines(LineItems(lines, l)) == [] || ItemLines(LineItems(lines, l)) == [l]
    {
      LineSpeaksOnce(lines, l);
    }
  }

  /**
    For every markdown source: the sections say what its lines say, in order and nothing lost, and
    the source lines of its headings and paragraphs are lines of it and only go up.
   */
  lemma {:induction false} Projects(lines: seq<Line>)
    ensures HeardOf(Assembled(Items(lines, 0))) == Heard(Concat(EachLine(lines), 0))
    ensures Rising(SourceLines(Assembled(Items(lines, 0))), 0, |lines|)
  {
    BlocksAreLines(lines, 0);
    NothingIsLost(Items(lines, 0));
    LinesSpeakOnce(lines);
    ConcatRises(EachLine(lines), 0);
    SourceLinesRise(Items(lines, 0), |lines|);
  }
}
