/**
  The projection of a document to speech (docs.py): markdown and org lines to sections of
  paragraphs, each with the source line it began on.

  A line is what the regular expressions make of it; its words are given. Two projections, one per
  format, turn lines into a stream of things said; one assembly turns the stream into sections.
 */
module Docs {
  import opened Wrappers

  /** What is said: words of the document, or that something follows which is not read. */
  datatype Said = Words(words: string) | CodeFollows(lines: nat) | ExampleFollows(lines: nat) | TableFollows(rows: nat)

  /** What the loops do: say something led by a source line, or open a section. */
  datatype Item = Add(said: Said, line: nat) | Head(heading: string, level: nat, line: nat)

  const BLANK := Words("")

  datatype Para = Para(line: nat, said: seq<Said>)

  /** `line` is None for what comes before the first heading. */
  datatype Section = Section(heading: string, level: nat, line: Option<nat>, body: seq<Said>, paras: seq<Para>)

  // ---------------------------------------------------------------- paragraphs

  datatype Spoken = Spoken(said: Said, line: nat)

  /** The paragraphs that are over, and the run that is not. */
  function Runs(buf: seq<Spoken>): (seq<Para>, seq<Spoken>) {
    if buf == [] then ([], [])
    else
      var (done, run) := Runs(buf[..|buf| - 1]);
      var s := buf[|buf| - 1];
      if s.said != BLANK then (done, run + [s])
      else if run != [] then (done + [ParaOf(run)], [])
      else (done, run)
  }

  function ParaOf(run: seq<Spoken>): Para
    requires run != []
  {
    Para(run[0].line, SaidOf(run))
  }

  function SaidOf(buf: seq<Spoken>): (r: seq<Said>)
    ensures |r| == |buf|
  {
    seq(|buf|, k requires 0 <= k < |buf| => buf[k].said)
  }

  function Paras(buf: seq<Spoken>): seq<Para> {
    var (done, run) := Runs(buf);
    if run != [] then done + [ParaOf(run)] else done
  }

  method MakeParas(buf: seq<Spoken>) returns (out: seq<Para>)
    ensures out == Paras(buf)
  {
    out := [];
    var run: seq<Spoken> := [];
    for k := 0 to |buf|
      invariant (out, run) == Runs(buf[..k])
    {
      assert buf[..k + 1][..k] == buf[..k];
      if buf[k].said != BLANK {
        run := run + [buf[k]];
        continue;
      }
      if run != [] {
        out := out + [ParaOf(run)];
        run := [];
      }
    }
    assert buf[..|buf|] == buf;
    if run != [] {
      out := out + [ParaOf(run)];
    }
  }

  // ---------------------------------------------------------------- sections

  /** The section that is open, without what it says. */
  datatype Open = Open(heading: string, level: nat, line: Option<nat>)

  predicate AnySaid(buf: seq<Spoken>) {
    exists k :: 0 <= k < |buf| && buf[k].said != BLANK
  }

  /** A section with neither words nor a heading is dropped. */
  function Flush(cur: Open, buf: seq<Spoken>): seq<Section> {
    if AnySaid(buf) || cur.heading != ""
    then [Section(cur.heading, cur.level, cur.line, SaidOf(buf), Paras(buf))]
    else []
  }

  datatype Assembly = Assembly(done: seq<Section>, cur: Open, buf: seq<Spoken>)

  const NOTHING := Assembly([], Open("", 1, None), [])

  function Take(a: Assembly, item: Item): Assembly {
    match item
    case Add(said, line) => a.(buf := a.buf + [Spoken(said, line)])
    case Head(heading, level, line) => Assembly(a.done + Flush(a.cur, a.buf), Open(heading, level, Some(line)), [])
  }

  function TakeAll(a: Assembly, items: seq<Item>): Assembly {
    if items == [] then a else Take(TakeAll(a, items[..|items| - 1]), items[|items| - 1])
  }

  function Assembled(items: seq<Item>): seq<Section> {
    var a := TakeAll(NOTHING, items);
    a.done + Flush(a.cur, a.buf)
  }

  lemma {:induction false} TakeMore(a: Assembly, items: seq<Item>, more: seq<Item>)
    ensures TakeAll(a, items + more) == TakeAll(TakeAll(a, items), more)
  {
    hide Take;
    if more == [] {
      assert items + more == items;
    } else {
      var k, all := |more| - 1, items + more;
      TakeMore(a, items, more[..k]);
      assert all[..|all| - 1] == items + more[..k] && all[|all| - 1] == more[k];
    }
  }

  // ---------------------------------------------------------------- nothing said is lost

  /** The words of a stream, headings among them, without the blanks. */
  function Heard(items: seq<Item>): seq<Said> {
    if items == [] then []
    else
      Heard(items[..|items| - 1])
      + match items[|items| - 1]
        case Add(said, _) => if said == BLANK then [] else [said]
        case Head(heading, _, _) => if heading == "" then [] else [Words(heading)]
  }

  function HeardIn(paras: seq<Para>): seq<Said> {
    if paras == [] then [] else HeardIn(paras[..|paras| - 1]) + paras[|paras| - 1].said
  }

  function Title(heading: string): seq<Said> {
    if heading == "" then [] else [Words(heading)]
  }

  function HeardOf(sections: seq<Section>): seq<Said> {
    if sections == [] then []
    else
      var s := sections[|sections| - 1];
      HeardOf(sections[..|sections| - 1]) + (Title(s.heading) + HeardIn(s.paras))
  }

  function NonBlank(buf: seq<Spoken>): seq<Spoken> {
    if buf == [] then []
    else if buf[|buf| - 1].said == BLANK then NonBlank(buf[..|buf| - 1])
    else NonBlank(buf[..|buf| - 1]) + [buf[|buf| - 1]]
  }

  lemma {:induction false} RunsHear(buf: seq<Spoken>)
    ensures var (done, run) := Runs(buf); HeardIn(done) + SaidOf(run) == SaidOf(NonBlank(buf))
  {
    if buf != [] {
      var b := buf[..|buf| - 1];
      RunsHear(b);
      var (done, run) := Runs(b);
      var s := buf[|buf| - 1];
      if s.said != BLANK {
        assert SaidOf(run + [s]) == SaidOf(run) + [s.said];
        assert SaidOf(NonBlank(buf)) == SaidOf(NonBlank(b)) + [s.said];
      } else if run != [] {
        assert (done + [ParaOf(run)])[..|done|] == done;
      }
    }
  }

  lemma {:induction false} ParasHear(buf: seq<Spoken>)
    ensures HeardIn(Paras(buf)) == SaidOf(NonBlank(buf))
  {
    RunsHear(buf);
    var (done, run) := Runs(buf);
    if run != [] {
      assert (done + [ParaOf(run)])[..|done|] == done;
    } else {
      assert HeardIn(done) + SaidOf(run) == HeardIn(done);
    }
  }

  lemma {:induction false} NoneSaid(buf: seq<Spoken>)
    ensures !AnySaid(buf) ==> NonBlank(buf) == []
  {
    if buf != [] && !AnySaid(buf) {
      assert buf[|buf| - 1].said == BLANK;
      assert !AnySaid(buf[..|buf| - 1]) by {
        assert forall k :: 0 <= k < |buf| - 1 ==> buf[..|buf| - 1][k] == buf[k];
      }
      NoneSaid(buf[..|buf| - 1]);
    }
  }

  /** Flushing says exactly what is open. */
  lemma {:induction false} FlushHears(done: seq<Section>, cur: Open, buf: seq<Spoken>)
    ensures HeardOf(done + Flush(cur, buf)) == HeardOf(done) + (Title(cur.heading) + SaidOf(NonBlank(buf)))
  {
    ParasHear(buf);
    NoneSaid(buf);
    if AnySaid(buf) || cur.heading != "" {
      var s := Flush(cur, buf)[0];
      assert done + Flush(cur, buf) == done + [s] && (done + [s])[..|done|] == done;
    } else {
      assert done + Flush(cur, buf) == done;
      assert Title(cur.heading) + SaidOf(NonBlank(buf)) == [];
    }
  }

  /** What an assembly has been told. */
  function HeardSoFar(a: Assembly): seq<Said> {
    HeardOf(a.done) + (Title(a.cur.heading) + SaidOf(NonBlank(a.buf)))
  }

  lemma {:induction false} AddHears(a: Assembly, said: Said, line: nat)
    ensures HeardSoFar(Take(a, Add(said, line))) == HeardSoFar(a) + if said == BLANK then [] else [said]
  {
    var buf := a.buf + [Spoken(said, line)];
    assert buf[..|a.buf|] == a.buf;
    if said != BLANK {
      assert SaidOf(NonBlank(buf)) == SaidOf(NonBlank(a.buf)) + [said];
    }
  }

  lemma {:induction false} HeadHears(a: Assembly, heading: string, level: nat, line: nat)
    ensures HeardSoFar(Take(a, Head(heading, level, line))) == HeardSoFar(a) + Title(heading)
  {
    hide Flush, HeardOf;
    FlushHears(a.done, a.cur, a.buf);
    assert SaidOf(NonBlank([])) == [];
  }

  lemma {:induction false} TakeHears(items: seq<Item>)
    ensures HeardSoFar(TakeAll(NOTHING, items)) == Heard(items)
  {
    hide HeardSoFar, Take;
    if items == [] {
      NothingHeard();
    } else {
      var k := |items| - 1;
      TakeHears(items[..k]);
      match items[k]
      case Add(said, line) => AddHears(TakeAll(NOTHING, items[..k]), said, line);
      case Head(heading, level, line) => HeadHears(TakeAll(NOTHING, items[..k]), heading, level, line);
    }
  }

  lemma {:induction false} NothingHeard()
    ensures HeardSoFar(NOTHING) == []
  {
  }

  /** Every word of the stream is in the sections, once and in its order. */
  lemma {:induction false} NothingIsLost(items: seq<Item>)
    ensures HeardOf(Assembled(items)) == Heard(items)
  {
    var a := TakeAll(NOTHING, items);
    TakeHears(items);
    FlushHears(a.done, a.cur, a.buf);
  }

  // ---------------------------------------------------------------- source lines only go up

  /** Strictly increasing, in [lo, hi). */
  ghost predicate Rising(xs: seq<nat>, lo: int, hi: int) {
    && (forall i :: 0 <= i < |xs| ==> lo <= xs[i] < hi)
    && (forall i, j :: 0 <= i < j < |xs| ==> xs[i] < xs[j])
  }

  lemma {:induction false} RisingAppend(a: seq<nat>, b: seq<nat>, lo: int, mid: int, hi: int)
    requires Rising(a, lo, mid) && Rising(b, mid, hi) && lo <= mid <= hi
    ensures Rising(a + b, lo, hi)
  {
  }

  lemma {:induction false} RisingSplit(a: seq<nat>, x: nat, lo: int, hi: int)
    requires Rising(a + [x], lo, hi)
    ensures Rising(a, lo, x) && lo <= x < hi
  {
    var all := a + [x];
    assert forall i :: 0 <= i < |a| ==> all[i] == a[i];
    assert all[|a|] == x;
  }

  /** The lines of what a stream says and opens. */
  function ItemLines(items: seq<Item>): seq<nat> {
    if items == [] then [] else ItemLines(items[..|items| - 1]) + OwnLine(items[|items| - 1])
  }

  function OwnLine(item: Item): seq<nat> {
    match item
    case Add(said, line) => if said == BLANK then [] else [line]
    case Head(_, _, line) => [line]
  }

  function LinesOf(buf: seq<Spoken>): (r: seq<nat>)
    ensures |r| == |buf|
  {
    seq(|buf|, k requires 0 <= k < |buf| => buf[k].line)
  }

  function ParaLines(paras: seq<Para>): (r: seq<nat>)
    ensures |r| == |paras|
  {
    seq(|paras|, k requires 0 <= k < |paras| => paras[k].line)
  }

  /** A section's own line and those of its paragraphs. */
  function SectionLines(s: Section): seq<nat> {
    (if s.line.Some? then [s.line.value] else []) + ParaLines(s.paras)
  }

  function SourceLines(sections: seq<Section>): seq<nat> {
    if sections == [] then []
    else SourceLines(sections[..|sections| - 1]) + SectionLines(sections[|sections| - 1])
  }

  lemma {:induction false} RunsRise(buf: seq<Spoken>, lo: int, hi: int)
    requires Rising(LinesOf(NonBlank(buf)), lo, hi)
    ensures var (done, run) := Runs(buf);
            if run == [] then Rising(ParaLines(done), lo, hi)
            else Rising(ParaLines(done), lo, run[0].line) && lo <= run[0].line < hi
  {
    if buf != [] {
      var b, s := buf[..|buf| - 1], buf[|buf| - 1];
      var (done, run) := Runs(b);
      if s.said != BLANK {
        assert LinesOf(NonBlank(buf)) == LinesOf(NonBlank(b)) + [s.line];
        RisingSplit(LinesOf(NonBlank(b)), s.line, lo, hi);
        RunsRise(b, lo, s.line);
      } else {
        RunsRise(b, lo, hi);
        if run != [] {
          assert ParaLines(done + [ParaOf(run)]) == ParaLines(done) + [run[0].line];
        }
      }
    }
  }

  lemma {:induction false} ParasRise(buf: seq<Spoken>, lo: int, hi: int)
    requires Rising(LinesOf(NonBlank(buf)), lo, hi)
    ensures Rising(ParaLines(Paras(buf)), lo, hi)
  {
    RunsRise(buf, lo, hi);
    var (done, run) := Runs(buf);
    if run != [] {
      assert ParaLines(done + [ParaOf(run)]) == ParaLines(done) + [run[0].line];
    }
  }

  lemma {:induction false} FlushRises(done: seq<Section>, cur: Open, buf: seq<Spoken>, low: nat, after: nat, hi: nat)
    requires Rising(SourceLines(done), 0, low) && low <= after <= hi
    requires cur.line.Some? ==> low == cur.line.value < after
    requires Rising(LinesOf(NonBlank(buf)), after, hi)
    ensures Rising(SourceLines(done + Flush(cur, buf)), 0, hi)
  {
    ParasRise(buf, after, hi);
    if AnySaid(buf) || cur.heading != "" {
      var s := Flush(cur, buf)[0];
      assert done + Flush(cur, buf) == done + [s] && (done + [s])[..|done|] == done;
      var head := if cur.line.Some? then [cur.line.value] else [];
      RisingAppend(head, ParaLines(s.paras), low, after, hi);
      RisingAppend(SourceLines(done), SectionLines(s), 0, low, hi);
    } else {
      assert done + Flush(cur, buf) == done;
    }
  }

  /** All lines so far, in the order they were taken: assembled, the open section's, what it says. */
  ghost predicate Ordered(a: Assembly, hi: nat) {
    var low := if a.cur.line.Some? then a.cur.line.value else 0;
    var after := if a.cur.line.Some? then a.cur.line.value + 1 else 0;
    && Rising(SourceLines(a.done), 0, low) && after <= hi
    && Rising(LinesOf(NonBlank(a.buf)), after, hi)
  }

  lemma {:induction false} OrderedAdd(a: Assembly, said: Said, line: nat, hi: nat)
    requires if said == BLANK then Ordered(a, hi) else Ordered(a, line) && line < hi
    ensures Ordered(Take(a, Add(said, line)), hi)
  {
    var buf := a.buf + [Spoken(said, line)];
    assert buf[..|a.buf|] == a.buf;
    if said != BLANK {
      assert LinesOf(NonBlank(buf)) == LinesOf(NonBlank(a.buf)) + [line];
    }
  }

  lemma {:induction false} OrderedHead(a: Assembly, heading: string, level: nat, line: nat, hi: nat)
    requires Ordered(a, line) && line < hi
    ensures Ordered(Take(a, Head(heading, level, line)), hi)
  {
    var low := if a.cur.line.Some? then a.cur.line.value else 0;
    var after := if a.cur.line.Some? then a.cur.line.value + 1 else 0;
    FlushRises(a.done, a.cur, a.buf, low, after, line);
  }

  lemma {:induction false} OrderedNothing(hi: nat)
    ensures Ordered(NOTHING, hi)
  {
  }

  lemma {:induction false} TakeOrdered(items: seq<Item>, hi: nat)
    requires Rising(ItemLines(items), 0, hi)
    ensures Ordered(TakeAll(NOTHING, items), hi)
  {
    hide Ordered, Take, Rising;
    if items == [] {
      OrderedNothing(hi);
    } else {
      var before := items[..|items| - 1];
      match items[|items| - 1]
      case Add(said, line) =>
        if said == BLANK {
          assert ItemLines(before) + [] == ItemLines(before);
          TakeOrdered(before, hi);
        } else {
          RisingSplit(ItemLines(before), line, 0, hi);
          TakeOrdered(before, line);
        }
        OrderedAdd(TakeAll(NOTHING, before), said, line, hi);
      case Head(heading, level, line) =>
        RisingSplit(ItemLines(before), line, 0, hi);
        TakeOrdered(before, line);
        OrderedHead(TakeAll(NOTHING, before), heading, level, line, hi);
    }
  }

  /** If the lines of a stream only go up, so do those of its headings and paragraphs. */
  lemma {:induction false} SourceLinesRise(items: seq<Item>, hi: nat)
    requires Rising(ItemLines(items), 0, hi)
    ensures Rising(SourceLines(Assembled(items)), 0, hi)
  {
    TakeOrdered(items, hi);
    var a := TakeAll(NOTHING, items);
    var low := if a.cur.line.Some? then a.cur.line.value else 0;
    var after := if a.cur.line.Some? then a.cur.line.value + 1 else 0;
    FlushRises(a.done, a.cur, a.buf, low, after, hi);
  }

  // ---------------------------------------------------------------- streams said line by line

  /** What the lines from l on say, each in its turn. */
  function Concat(each: seq<seq<Item>>, l: nat): seq<Item>
    requires l <= |each|
    decreases |each| - l
  {
    if l == |each| then [] else each[l] + Concat(each, l + 1)
  }

  /** A line speaks at most once, at its own number. */
  ghost predicate OwnLines(each: seq<seq<Item>>) {
    forall l :: 0 <= l < |each| ==> ItemLines(each[l]) == [] || ItemLines(each[l]) == [l]
  }

  lemma {:induction false} ItemLinesAppend(a: seq<Item>, b: seq<Item>)
    ensures ItemLines(a + b) == ItemLines(a) + ItemLines(b)
  {
    hide ItemLines, OwnLine;
    if b == [] {
      NoItemLines();
      assert a + b == a && ItemLines(a) + [] == ItemLines(a);
    } else {
      var front, y := b[..|b| - 1], b[|b| - 1];
      assert b == front + [y] && a + b == a + front + [y];
      ItemLinesAppend(a, front);
      ItemLinesSnoc(a + front, y);
      ItemLinesSnoc(front, y);
      var p, q, r := ItemLines(a), ItemLines(front), OwnLine(y);
      assert p + q + r == p + (q + r);
    }
  }

  lemma {:induction false} ItemLinesSnoc(items: seq<Item>, item: Item)
    ensures ItemLines(items + [item]) == ItemLines(items) + OwnLine(item)
  {
    hide OwnLine;
    assert (items + [item])[..|items|] == items;
  }

  lemma {:induction false} ConcatRises(each: seq<seq<Item>>, l: nat)
    requires l <= |each| && OwnLines(each)
    ensures Rising(ItemLines(Concat(each, l)), l, |each|)
    decreases |each| - l
  {
    hide ItemLines;
    if l < |each| {
      var own, rest := ItemLines(each[l]), ItemLines(Concat(each, l + 1));
      ConcatRises(each, l + 1);
      ItemLinesAppend(each[l], Concat(each, l + 1));
      assert own == [] || own == [l];
      RisingAppend(own, rest, l, l + 1, |each|);
    } else {
      NoItemLines();
    }
  }

  lemma {:induction false} NoItemLines()
    ensures ItemLines([]) == []
  {
  }

  /** Lines that say nothing can be passed over. */
  lemma {:induction false} ConcatSkips(each: seq<seq<Item>>, l: nat, m: nat)
    requires l <= m <= |each| && forall k :: l <= k < m ==> each[k] == []
    ensures Concat(each, l) == Concat(each, m)
    decreases m - l
  {
    if l < m {
      ConcatSkips(each, l + 1, m);
    }
  }

  /** A blank, what follows, and a blank. */
  function Announce(said: Said, line: nat): seq<Item> {
    [Add(BLANK, line), Add(said, line), Add(BLANK, line)]
  }

  /** A paragraph of its own. */
  function Apart(words: string, line: nat): seq<Item> {
    [Add(BLANK, line), Add(Words(words), line)]
  }

  lemma {:induction false} OneItemLine(item: Item)
    ensures ItemLines([item]) == if item.Add? && item.said == BLANK then [] else [item.line]
  {
    assert [item][..0] == [];
  }

  lemma {:induction false} TwoItemLines(first: Item, second: Item)
    ensures ItemLines([first, second]) == ItemLines([first]) + ItemLines([second])
  {
    assert [first, second] == [first] + [second];
    ItemLinesAppend([first], [second]);
  }

  lemma {:induction false} ApartLine(words: string, line: nat)
    ensures ItemLines(Apart(words, line)) == if words == "" then [] else [line]
  {
    TwoItemLines(Add(BLANK, line), Add(Words(words), line));
    OneItemLine(Add(BLANK, line));
    OneItemLine(Add(Words(words), line));
  }

  lemma {:induction false} AnnounceLine(said: Said, line: nat)
    ensures ItemLines(Announce(said, line)) == if said == BLANK then [] else [line]
  {
    var blank, add := Add(BLANK, line), Add(said, line);
    OneItemLine(blank);
    OneItemLine(add);
    TwoItemLines(blank, add);
    assert Announce(said, line) == [blank, add] + [blank];
    ItemLinesAppend([blank, add], [blank]);
  }

  lemma {:induction false} TakeOne(a: Assembly, item: Item)
    ensures TakeAll(a, [item]) == Take(a, item)
  {
    assert [item][..0] == [];
  }

  // ---------------------------------------------------------------- streams in the loops' own terms

  lemma {:induction false} Heads(a: Assembly, heading: string, level: nat, line: nat, rest: seq<Item>)
    ensures TakeAll(a, [Head(heading, level, line)] + rest)
            == TakeAll(Assembly(a.done + Flush(a.cur, a.buf), Open(heading, level, Some(line)), []), rest)
  {
    TakeOne(a, Head(heading, level, line));
    TakeMore(a, [Head(heading, level, line)], rest);
  }

  ghost predicate OnlyAdds(items: seq<Item>) {
    forall k :: 0 <= k < |items| ==> items[k].Add?
  }

  /** What some adds leave in the buffer. */
  function Buffered(items: seq<Item>): (r: seq<Spoken>)
    requires OnlyAdds(items)
    ensures |r| == |items|
  {
    seq(|items|, k requires 0 <= k < |items| => Spoken(items[k].said, items[k].line))
  }

  lemma {:induction false} BuffersAll(a: Assembly, items: seq<Item>)
    requires OnlyAdds(items)
    ensures TakeAll(a, items) == a.(buf := a.buf + Buffered(items))
  {
    if items == [] {
      assert a.buf + Buffered(items) == a.buf;
    } else {
      var k := |items| - 1;
      BuffersAll(a, items[..k]);
      assert Buffered(items) == Buffered(items[..k]) + [Spoken(items[k].said, items[k].line)];
      assert a.buf + Buffered(items) == a.buf + Buffered(items[..k]) + [Spoken(items[k].said, items[k].line)];
    }
  }

  lemma {:induction false} Buffers(a: Assembly, items: seq<Item>, rest: seq<Item>)
    requires OnlyAdds(items)
    ensures TakeAll(a, items + rest) == TakeAll(a.(buf := a.buf + Buffered(items)), rest)
  {
    BuffersAll(a, items);
    TakeMore(a, items, rest);
  }

  lemma {:induction false} NoneLeft(a: Assembly)
    ensures TakeAll(a, []) == a
  {
  }
}
