/**
  What a document's sections and jobs say, by the stream of its lines: which items make up a section,
  which of its spoken lines a paragraph, and that what is synthesised is every word of the document,
  once and in order, a clip for each heading and paragraph.
 */
module Speech {
  import opened Wrappers
  import opened Docs
  import opened Timeline
  import Markdown
  import Org

  // ---------------------------------------------------------------- paragraphs

  predicate Blank(s: Spoken) {
    s.said == BLANK
  }

  /** A paragraph is a run of spoken lines from b up to e, as long as it can be, with the line of its first. */
  ghost predicate ParaIs(buf: seq<Spoken>, p: Para, b: nat, e: nat) {
    && b < e <= |buf|
    && (forall k :: b <= k < e ==> !Blank(buf[k]))
    && (b > 0 ==> Blank(buf[b - 1])) && (e < |buf| ==> Blank(buf[e]))
    && p.line == buf[b].line && |p.said| == e - b
    && forall k :: 0 <= k < e - b ==> p.said[k] == buf[b + k].said
  }

  /** The paragraphs of the first n spoken lines, in order, and nothing but blanks outside of them. */
  ghost predicate ParasAre(buf: seq<Spoken>, paras: seq<Para>, bs: seq<nat>, es: seq<nat>, n: nat) {
    && |bs| == |es| == |paras| && n <= |buf|
    && (forall k :: 0 <= k < |paras| ==> ParaIs(buf, paras[k], bs[k], es[k]) && es[k] <= n)
    && (forall j, k :: 0 <= j < k < |paras| ==> es[j] <= bs[k])
    && (forall i :: 0 <= i < n && !Blank(buf[i]) ==> exists k :: 0 <= k < |paras| && bs[k] <= i < es[k])
  }

  lemma {:induction false} ParasPush(buf: seq<Spoken>, paras: seq<Para>, bs: seq<nat>, es: seq<nat>, b: nat, e: nat,
                                     p: Para)
    requires ParasAre(buf, paras, bs, es, b) && ParaIs(buf, p, b, e)
    ensures ParasAre(buf, paras + [p], bs + [b], es + [e], e)
  {
    hide ParaIs;
    Within(buf, p, b, e);
    var paras', bs', es' := paras + [p], bs + [b], es + [e];
    forall i | 0 <= i < e && !Blank(buf[i]) ensures exists k :: 0 <= k < |paras'| && bs'[k] <= i < es'[k] {
      if i < b {
        var k :| 0 <= k < |paras| && bs[k] <= i < es[k];
        assert bs'[k] <= i < es'[k];
      } else {
        assert bs'[|paras|] <= i < es'[|paras|];
      }
    }
  }

  lemma {:induction false} Within(buf: seq<Spoken>, p: Para, b: nat, e: nat)
    requires ParaIs(buf, p, b, e)
    ensures b < e <= |buf|
  {
  }

  lemma {:induction false} ParasBlank(buf: seq<Spoken>, paras: seq<Para>, bs: seq<nat>, es: seq<nat>, n: nat)
    requires ParasAre(buf, paras, bs, es, n) && n < |buf| && Blank(buf[n])
    ensures ParasAre(buf, paras, bs, es, n + 1)
  {
    hide ParaIs;
  }

  /** The runs of the first n spoken lines: the paragraphs of the first b, and the lines from b on. */
  ghost predicate RunsTo(buf: seq<Spoken>, n: nat, bs: seq<nat>, es: seq<nat>, b: nat)
    requires n <= |buf|
  {
    var (done, run) := Runs(buf[..n]);
    && b <= n && run == buf[b..n] && (forall k :: b <= k < n ==> !Blank(buf[k]))
    && (b > 0 ==> Blank(buf[b - 1])) && ParasAre(buf, done, bs, es, b)
  }

  lemma {:induction false} RunsOne(buf: seq<Spoken>, n: nat)
    requires n < |buf|
    ensures var (done, run) := Runs(buf[..n]);
            Runs(buf[..n + 1]) == if !Blank(buf[n]) then (done, run + [buf[n]])
                                  else if run != [] then (done + [ParaOf(run)], []) else (done, run)
  {
    assert buf[..n + 1][..n] == buf[..n];
  }

  lemma {:induction false} RunGoesOn(buf: seq<Spoken>, n: nat, bs: seq<nat>, es: seq<nat>, b: nat)
    requires n < |buf| && RunsTo(buf, n, bs, es, b) && !Blank(buf[n])
    ensures RunsTo(buf, n + 1, bs, es, b)
  {
    hide ParasAre, Runs;
    RunsOne(buf, n);
    var m := n + 1;
    assert buf[b..m] == buf[b..n] + [buf[n]];
  }

  lemma {:induction false} RunEnds(buf: seq<Spoken>, n: nat, bs: seq<nat>, es: seq<nat>, b: nat)
    returns (bs': seq<nat>, es': seq<nat>)
    requires n < |buf| && RunsTo(buf, n, bs, es, b) && Blank(buf[n])
    ensures RunsTo(buf, n + 1, bs', es', n + 1)
  {
    hide ParasAre, Runs, ParaIs;
    RunsOne(buf, n);
    var (done, run) := Runs(buf[..n]);
    bs', es' := bs, es;
    if run != [] {
      RunIsPara(buf, b, n);
      ParasPush(buf, done, bs, es, b, n, ParaOf(run));
      bs', es' := bs + [b], es + [n];
      ParasBlank(buf, done + [ParaOf(run)], bs', es', n);
    } else {
      assert b == n;
      ParasBlank(buf, done, bs, es, n);
    }
  }

  lemma {:induction false} RunsAre(buf: seq<Spoken>, n: nat) returns (bs: seq<nat>, es: seq<nat>, b: nat)
    requires n <= |buf|
    ensures RunsTo(buf, n, bs, es, b)
  {
    hide RunsTo;
    if n == 0 {
      bs, es, b := [], [], 0;
      NoRuns(buf);
    } else {
      bs, es, b := RunsAre(buf, n - 1);
      if !Blank(buf[n - 1]) {
        RunGoesOn(buf, n - 1, bs, es, b);
      } else {
        bs, es := RunEnds(buf, n - 1, bs, es, b);
        b := n;
      }
    }
  }

  lemma {:induction false} NoRuns(buf: seq<Spoken>)
    ensures RunsTo(buf, 0, [], [], 0)
  {
  }

  lemma {:induction false} RunIsPara(buf: seq<Spoken>, b: nat, e: nat)
    requires b < e <= |buf| && (forall k :: b <= k < e ==> !Blank(buf[k]))
    requires (b > 0 ==> Blank(buf[b - 1])) && (e < |buf| ==> Blank(buf[e]))
    ensures ParaIs(buf, ParaOf(buf[b..e]), b, e)
  {
  }

  /** The paragraphs are the runs between blanks, each once and as it is. */
  lemma {:induction false} ParasMeaning(buf: seq<Spoken>) returns (bs: seq<nat>, es: seq<nat>)
    ensures ParasAre(buf, Paras(buf), bs, es, |buf|)
  {
    hide ParaIs;
    var b;
    bs, es, b := RunsAre(buf, |buf|);
    assert buf[..|buf|] == buf;
    var (done, run) := Runs(buf);
    if run == [] {
      assert b == |buf|;
    } else {
      RunIsPara(buf, b, |buf|);
      ParasPush(buf, done, bs, es, b, |buf|, ParaOf(run));
      bs, es := bs + [b], es + [|buf|];
    }
  }

  // ---------------------------------------------------------------- sections

  /** The spoken lines of the items from b up to e. */
  function SpokenOf(items: seq<Item>, b: nat, e: nat): seq<Spoken>
    requires e <= |items|
  {
    if e <= b then []
    else
      match items[e - 1]
      case Add(said, line) => SpokenOf(items, b, e - 1) + [Spoken(said, line)]
      case Head(_, _, _) => SpokenOf(items, b, e - 1)
  }

  /** What is opened by the item before b; nothing, at the start of a document. */
  function OpenedAt(items: seq<Item>, b: nat): Open
    requires b <= |items|
  {
    if b > 0 && items[b - 1].Head? then Open(items[b - 1].heading, items[b - 1].level, Some(items[b - 1].line))
    else Open("", 1, None)
  }

  /** From b to e nothing is opened, and b is the start or behind a heading. */
  ghost predicate Stretch(items: seq<Item>, b: nat, e: nat) {
    && b <= e <= |items| && (b > 0 ==> items[b - 1].Head?)
    && forall k :: b <= k < e ==> items[k].Add?
  }

  ghost predicate SectionIs(items: seq<Item>, s: Section, b: nat, e: nat) {
    && Stretch(items, b, e) && (e < |items| ==> items[e].Head?)
    && Open(s.heading, s.level, s.line) == OpenedAt(items, b)
    && s.body == SaidOf(SpokenOf(items, b, e)) && s.paras == Paras(SpokenOf(items, b, e))
  }

  /** Something stands under this heading, or it has words itself. */
  ghost predicate Counts(items: seq<Item>, b: nat, e: nat)
    requires b <= |items| && e <= |items|
  {
    OpenedAt(items, b).heading != "" || AnySaid(SpokenOf(items, b, e))
  }

  /** Every stretch that counts and ends before b is among these. */
  ghost predicate AllThere(items: seq<Item>, bs: seq<nat>, es: seq<nat>, b: nat)
    requires |bs| == |es|
  {
    forall c: nat, e: nat ::
      e < b && Stretch(items, c, e) && e < |items| && items[e].Head? && Counts(items, c, e) ==>
        exists k :: 0 <= k < |bs| && bs[k] == c && es[k] == e
  }

  /** The sections of the items before b, in order; every stretch that counts is one. */
  ghost predicate SectionsAre(items: seq<Item>, sections: seq<Section>, bs: seq<nat>, es: seq<nat>, b: nat) {
    && |bs| == |es| == |sections|
    && (forall k :: 0 <= k < |sections| ==> SectionIs(items, sections[k], bs[k], es[k]) && es[k] < b)
    && (forall j, k :: 0 <= j < k < |sections| ==> es[j] < bs[k])
    && AllThere(items, bs, es, b)
  }

  lemma {:induction false} OneStretch(items: seq<Item>, b: nat, c: nat, e: nat)
    requires Stretch(items, b, e) && Stretch(items, c, e)
    ensures b == c
  {
    if b < c {
      InStretch(items, b, e, c);
      assert false;
    } else if c < b {
      InStretch(items, c, e, b);
      assert false;
    }
  }

  lemma {:induction false} InStretch(items: seq<Item>, b: nat, e: nat, c: nat)
    requires Stretch(items, b, e) && b < c <= e
    ensures items[c - 1].Add?
  {
  }

  /** Flushing at e what was opened before b. */
  lemma {:induction false} FlushIs(items: seq<Item>, done: seq<Section>, bs: seq<nat>, es: seq<nat>, b: nat, e: nat)
    returns (bs': seq<nat>, es': seq<nat>)
    requires SectionsAre(items, done, bs, es, b) && Stretch(items, b, e) && (e < |items| ==> items[e].Head?)
    ensures var after := done + Flush(OpenedAt(items, b), SpokenOf(items, b, e));
            && SectionsAre(items, after, bs', es', e + 1)
            && (Counts(items, b, e) ==> exists k :: 0 <= k < |after| && bs'[k] == b && es'[k] == e)
  {
    hide SpokenOf, OpenedAt, Paras;
    var cur, buf := OpenedAt(items, b), SpokenOf(items, b, e);
    var after := done + Flush(cur, buf);
    if Counts(items, b, e) {
      bs', es' := bs + [b], es + [e];
      assert after[|done|] == Section(cur.heading, cur.level, cur.line, SaidOf(buf), Paras(buf));
      assert bs'[|done|] == b && es'[|done|] == e;
      forall k | 0 <= k < |after| ensures SectionIs(items, after[k], bs'[k], es'[k]) && es'[k] < e + 1 {
        if k < |done| {
          assert SectionIs(items, done[k], bs[k], es[k]);
        }
      }
    } else {
      bs', es' := bs, es;
      assert after == done;
    }
    EachIsThere(items, bs, es, b, e, bs', es');
  }

  lemma {:induction false} EachIsThere(
      items: seq<Item>, bs: seq<nat>, es: seq<nat>, b: nat, e: nat, bs': seq<nat>, es': seq<nat>)
    requires |bs| == |es| && |bs'| == |es'| && AllThere(items, bs, es, b) && Stretch(items, b, e)
    requires if Counts(items, b, e) then bs' == bs + [b] && es' == es + [e] else bs' == bs && es' == es
    ensures AllThere(items, bs', es', e + 1)
  {
    hide Counts;
    forall c: nat, f: nat | f < e + 1 && Stretch(items, c, f) && f < |items| && items[f].Head? && Counts(items, c, f)
      ensures exists k :: 0 <= k < |bs'| && bs'[k] == c && es'[k] == f
    {
      if f < b {
        var k :| 0 <= k < |bs| && bs[k] == c && es[k] == f;
        assert bs'[k] == c && es'[k] == f;
      } else {
        assert f == e;
        OneStretch(items, b, c, e);
        assert bs'[|bs|] == b && es'[|bs|] == e;
      }
    }
  }

  lemma {:induction false} TakenAre(items: seq<Item>, n: nat) returns (bs: seq<nat>, es: seq<nat>, b: nat)
    requires n <= |items|
    ensures Stretch(items, b, n)
    ensures var a := TakeAll(NOTHING, items[..n]);
            && a.cur == OpenedAt(items, b) && a.buf == SpokenOf(items, b, n) && SectionsAre(items, a.done, bs, es, b)
  {
    hide SectionsAre, Flush;
    if n == 0 {
      bs, es, b := [], [], 0;
      NoSections(items);
    } else {
      bs, es, b := TakenAre(items, n - 1);
      assert items[..n][..n - 1] == items[..n - 1];
      var a := TakeAll(NOTHING, items[..n - 1]);
      if items[n - 1].Head? {
        bs, es := FlushIs(items, a.done, bs, es, b, n - 1);
        b := n;
      }
    }
  }

  lemma {:induction false} NoSections(items: seq<Item>)
    ensures SectionsAre(items, [], [], [], 0)
  {
  }

  /**
    The sections are the stretches between headings, each with its heading, level and line, what is
    said in it and its paragraphs; left out are just those with neither words nor a heading.
   */
  lemma {:induction false} SectionsMeaning(items: seq<Item>) returns (bs: seq<nat>, es: seq<nat>, b: nat)
    ensures var sections, n := Assembled(items), |items|;
            && SectionsAre(items, sections, bs, es, n + 1) && Stretch(items, b, n)
            && (Counts(items, b, n) ==> exists k :: 0 <= k < |sections| && bs[k] == b && es[k] == n)
  {
    hide SectionsAre, Flush, Stretch;
    var n := |items|;
    bs, es, b := TakenAre(items, n);
    assert items[..n] == items;
    bs, es := FlushIs(items, TakeAll(NOTHING, items).done, bs, es, b, n);
  }

  // ---------------------------------------------------------------- what is synthesised

  function Worded(say: seq<Said>): seq<Said> {
    if say == [] then []
    else Worded(say[..|say| - 1]) + if say[|say| - 1] == BLANK then [] else [say[|say| - 1]]
  }

  /** The words of some jobs, without the blanks. */
  function JobWords(jobs: seq<Job>): seq<Said> {
    if jobs == [] then [] else JobWords(jobs[..|jobs| - 1]) + Worded(jobs[|jobs| - 1].piece.say)
  }

  predicate AllWords(say: seq<Said>) {
    forall k :: 0 <= k < |say| ==> say[k] != BLANK
  }

  /** A section of a document: its paragraphs have words only, and what is said without one is blank. */
  ghost predicate Read(s: Section) {
    && (forall k :: 0 <= k < |s.paras| ==> s.paras[k].said != [] && AllWords(s.paras[k].said))
    && (s.paras == [] ==> Worded(s.body) == [])
  }

  lemma {:induction false} WordedAppend(a: seq<Said>, b: seq<Said>)
    ensures Worded(a + b) == Worded(a) + Worded(b)
  {
    if b == [] {
      assert a + b == a;
    } else {
      var k := |b| - 1;
      WordedAppend(a, b[..k]);
      assert (a + b)[..|a + b| - 1] == a + b[..k];
    }
  }

  lemma {:induction false} WordedAll(say: seq<Said>)
    requires AllWords(say)
    ensures Worded(say) == say
  {
    if say != [] {
      WordedAll(say[..|say| - 1]);
      assert say == say[..|say| - 1] + [say[|say| - 1]];
    }
  }

  lemma {:induction false} NoneWorded(say: seq<Said>)
    requires forall k :: 0 <= k < |say| ==> say[k] == BLANK
    ensures Worded(say) == []
  {
    if say != [] {
      NoneWorded(say[..|say| - 1]);
    }
  }

  lemma {:induction false} FlushReads(cur: Open, buf: seq<Spoken>)
    ensures forall s :: s in Flush(cur, buf) ==> Read(s)
  {
    hide ParasAre;
    var bs, es := ParasMeaning(buf);
    var paras := Paras(buf);
    forall k | 0 <= k < |paras| ensures paras[k].said != [] && AllWords(paras[k].said) {
      ParaSpeaks(buf, paras, bs, es, k);
    }
    if paras == [] {
      NothingSpoken(buf, bs, es);
      NoneWorded(SaidOf(buf));
    }
  }

  lemma {:induction false} ParaSpeaks(buf: seq<Spoken>, paras: seq<Para>, bs: seq<nat>, es: seq<nat>, k: nat)
    requires ParasAre(buf, paras, bs, es, |buf|) && k < |paras|
    ensures paras[k].said != [] && AllWords(paras[k].said)
  {
    assert ParaIs(buf, paras[k], bs[k], es[k]);
  }

  lemma {:induction false} NothingSpoken(buf: seq<Spoken>, bs: seq<nat>, es: seq<nat>)
    requires ParasAre(buf, [], bs, es, |buf|)
    ensures forall k :: 0 <= k < |buf| ==> buf[k].said == BLANK
  {
    forall k | 0 <= k < |buf| ensures Blank(buf[k]) {
    }
  }

  lemma {:induction false} TakeReads(items: seq<Item>)
    ensures forall s :: s in TakeAll(NOTHING, items).done ==> Read(s)
  {
    hide Read, Flush;
    if items != [] {
      var a := TakeAll(NOTHING, items[..|items| - 1]);
      TakeReads(items[..|items| - 1]);
      FlushReads(a.cur, a.buf);
    }
  }

  lemma {:induction false} AssembledReads(items: seq<Item>)
    ensures forall s :: s in Assembled(items) ==> Read(s)
  {
    hide Read, Flush;
    var a := TakeAll(NOTHING, items);
    TakeReads(items);
    FlushReads(a.cur, a.buf);
  }

  lemma {:induction false} ParaPiecesAre(paras: seq<Para>)
    requires forall k :: 0 <= k < |paras| ==> paras[k].said != [] && AllWords(paras[k].said)
    ensures |ParaPieces(paras)| == |paras|
    ensures forall k :: 0 <= k < |paras| ==> ParaPieces(paras)[k] == Piece(Some(paras[k].line), paras[k].said)
  {
    if paras != [] {
      var n := |paras| - 1;
      ParaPiecesAre(paras[..n]);
      assert paras[n].said[0] != BLANK;
      assert Speaks(paras[n].said);
    }
  }

  function HeadPieces(s: Section): nat {
    if s.heading == "" then 0 else 1
  }

  /** What is synthesised of a section: its heading, with the section's line, and each paragraph, with its own. */
  ghost predicate PiecesAre(s: Section, pieces: seq<Piece>) {
    && |pieces| == HeadPieces(s) + |s.paras|
    && (s.heading != "" ==> Worded(pieces[0].say) == [Words(s.heading)]
                            && pieces[0].line == if s.paras == [] then None else s.line)
    && forall k :: 0 <= k < |s.paras| ==>
         pieces[HeadPieces(s) + k] == Piece(Some(s.paras[k].line), s.paras[k].said)
  }

  lemma {:induction false} PiecesMeaning(s: Section)
    requires Read(s)
    ensures PiecesAre(s, Pieces(s))
  {
    hide PiecesAre, Pieces;
    if s.paras == [] {
      WholePiece(s);
    } else {
      EachPiece(s);
    }
  }

  /** A section with paragraphs is a piece for its heading and one for each. */
  lemma {:induction false} EachPiece(s: Section)
    requires Read(s) && s.paras != []
    ensures PiecesAre(s, Pieces(s))
  {
    hide ParaPieces, Worded, Speaks;
    ParaPiecesAre(s.paras);
    TitleWorded(s.heading);
    var head, paras := if s.heading != "" then [Piece(s.line, Title(s.heading))] else [], ParaPieces(s.paras);
    assert Pieces(s) == head + paras && |head| == HeadPieces(s);
    assert forall k :: 0 <= k < |paras| ==> (head + paras)[|head| + k] == paras[k];
  }

  /** A section without paragraphs is its heading, in one piece with the blanks it has. */
  lemma {:induction false} WholePiece(s: Section)
    requires s.paras == [] && Worded(s.body) == []
    ensures PiecesAre(s, Pieces(s))
  {
    hide Worded;
    var say := Title(s.heading) + s.body;
    WordedAppend(Title(s.heading), s.body);
    TitleWorded(s.heading);
    SpeaksIsWorded(say);
    if s.heading != "" {
      assert say[0] != BLANK;
      assert Speaks(say);
      assert Worded(say) == [Words(s.heading)];
    }
  }

  lemma {:induction false} TitleWorded(heading: string)
    ensures Worded(Title(heading)) == Title(heading)
  {
    WordedAll(Title(heading));
  }

  lemma {:induction false} SpeaksIsWorded(say: seq<Said>)
    ensures Speaks(say) ==> Worded(say) != []
  {
    if say != [] && Speaks(say) {
      var k :| 0 <= k < |say| && say[k] != BLANK;
      if k < |say| - 1 {
        assert say[..|say| - 1][k] != BLANK;
        SpeaksIsWorded(say[..|say| - 1]);
      }
    }
  }

  lemma {:induction false} JobWordsSnoc(jobs: seq<Job>, job: Job)
    ensures JobWords(jobs + [job]) == JobWords(jobs) + Worded(job.piece.say)
  {
    hide Worded;
    assert (jobs + [job])[..|jobs|] == jobs;
  }

  lemma {:induction false} NoJobWords()
    ensures JobWords([]) == []
  {
  }

  lemma {:induction false} JobWordsAppend(a: seq<Job>, b: seq<Job>)
    ensures JobWords(a + b) == JobWords(a) + JobWords(b)
  {
    hide JobWords, Worded;
    if b == [] {
      NoJobWords();
      assert a + b == a && JobWords(a) + [] == JobWords(a);
    } else {
      var front, y := b[..|b| - 1], b[|b| - 1];
      assert b == front + [y] && a + b == a + front + [y];
      JobWordsAppend(a, front);
      JobWordsSnoc(a + front, y);
      JobWordsSnoc(front, y);
      var p, q, r := JobWords(a), JobWords(front), Worded(y.piece.say);
      assert p + q + r == p + (q + r);
    }
  }

  lemma {:induction false} ParaWords(n: nat, paras: seq<Para>, pieces: seq<Piece>)
    requires |pieces| == |paras|
    requires forall k :: 0 <= k < |paras| ==> pieces[k].say == paras[k].said && AllWords(paras[k].said)
    ensures JobWords(JobsFor(n, pieces)) == HeardIn(paras)
  {
    if paras != [] {
      var k := |paras| - 1;
      ParaWords(n, paras[..k], pieces[..k]);
      WordedAll(paras[k].said);
      assert JobsFor(n, pieces)[..k] == JobsFor(n, pieces[..k]);
    }
  }

  lemma {:induction false} SectionWords(n: nat, s: Section)
    requires Read(s)
    ensures JobWords(JobsFor(n, Pieces(s))) == Title(s.heading) + HeardIn(s.paras)
  {
    hide Pieces, JobWords, Worded, HeardIn;
    var pieces := Pieces(s);
    PiecesMeaning(s);
    var rest := pieces[HeadPieces(s)..];
    assert |rest| == |s.paras|;
    forall k | 0 <= k < |s.paras| ensures rest[k].say == s.paras[k].said && AllWords(s.paras[k].said) {
      assert rest[k] == pieces[HeadPieces(s) + k];
    }
    ParaWords(n, s.paras, rest);
    HeadThenRest(n, s, pieces);
  }

  lemma {:induction false} HeadThenRest(n: nat, s: Section, pieces: seq<Piece>)
    requires HeadPieces(s) <= |pieces| && (s.heading != "" ==> Worded(pieces[0].say) == [Words(s.heading)])
    ensures JobWords(JobsFor(n, pieces)) == Title(s.heading) + JobWords(JobsFor(n, pieces[HeadPieces(s)..]))
  {
    hide JobWords, Worded;
    var rest := pieces[HeadPieces(s)..];
    if s.heading != "" {
      var job := Job(n, pieces[0]);
      assert JobsFor(n, pieces) == [job] + JobsFor(n, rest);
      JobWordsAppend([job], JobsFor(n, rest));
      OneJobWords(job);
    } else {
      assert rest == pieces && [] + JobWords(JobsFor(n, rest)) == JobWords(JobsFor(n, rest));
    }
  }

  lemma {:induction false} OneJobWords(job: Job)
    ensures JobWords([job]) == Worded(job.piece.say)
  {
    assert [job][..0] == [];
  }

  lemma {:induction false} JobsWords(sections: seq<Section>, n: nat)
    requires n <= |sections| && forall s :: s in sections ==> Read(s)
    ensures JobWords(Jobs(sections, n)) == HeardOf(sections[..n])
  {
    hide Pieces, Read, JobWords, HeardOf, Title, HeardIn, JobsFor;
    if n == 0 {
      NoWords(sections);
    } else {
      var s, pieces := sections[n - 1], Pieces(sections[n - 1]);
      JobsWords(sections, n - 1);
      assert s in sections;
      SectionWords(n - 1, s);
      JobWordsAppend(Jobs(sections, n - 1), JobsFor(n - 1, pieces));
      HeardOne(sections, n);
    }
  }

  lemma {:induction false} NoWords(sections: seq<Section>)
    ensures JobWords([]) == HeardOf(sections[..0])
  {
  }

  lemma {:induction false} HeardOne(sections: seq<Section>, n: nat)
    requires 0 < n <= |sections|
    ensures var s := sections[n - 1];
            HeardOf(sections[..n]) == HeardOf(sections[..n - 1]) + (Title(s.heading) + HeardIn(s.paras))
  {
    assert sections[..n][..n - 1] == sections[..n - 1];
  }

  /** Everything a stream says is in the jobs of its sections, once and in order. */
  lemma {:induction false} JobsSayAll(items: seq<Item>)
    ensures var sections := Assembled(items); JobWords(Jobs(sections, |sections|)) == Heard(items)
  {
    hide Assembled, Jobs, Read, HeardOf;
    var sections := Assembled(items);
    AssembledReads(items);
    JobsWords(sections, |sections|);
    assert sections[..|sections|] == sections;
    NothingIsLost(items);
  }

  lemma {:induction false} JobsOne(sections: seq<Section>, n: nat)
    requires n < |sections|
    ensures Jobs(sections, n + 1) == Jobs(sections, n) + JobsFor(n, Pieces(sections[n]))
  {
    hide Pieces;
  }

  /** The jobs of a section are its pieces, in their order. */
  lemma {:induction false} JobAt(sections: seq<Section>, n: nat, k: nat)
    requires n < |sections| && k < |Pieces(sections[n])|
    ensures First(sections, n) + k < First(sections, |sections|)
    ensures Jobs(sections, |sections|)[First(sections, n) + k] == Job(n, Pieces(sections[n])[k])
  {
    hide Pieces;
    var m, own := n + 1, JobsFor(n, Pieces(sections[n]));
    JobsOne(sections, n);
    JobsGrow(sections, m, |sections|);
    assert (Jobs(sections, n) + own)[First(sections, n) + k] == own[k];
  }

  /** And they are its heading's, if it has words, and one for each paragraph, with that paragraph's line and words. */
  lemma {:induction false} JobsMeaning(items: seq<Item>, n: nat)
    requires n < |Assembled(items)|
    ensures var s, m := Assembled(items)[n], n + 1;
            && PiecesAre(s, Pieces(s))
            && First(Assembled(items), m) == First(Assembled(items), n) + |Pieces(s)|
  {
    hide Assembled, Pieces, Read, PiecesAre;
    AssembledReads(items);
    assert Assembled(items)[n] in Assembled(items);
    PiecesMeaning(Assembled(items)[n]);
    JobsOne(Assembled(items), n);
  }

  /** The clips that are joined are those that could be made, each once and in order. */
  lemma {:induction false} PartsMeaning(durs: seq<real>, j: nat)
    requires j <= |durs|
    ensures forall i: nat :: i in Parts(durs, j) <==> i < j && durs[i] > 0.0
    ensures forall a, b :: 0 <= a < b < |Parts(durs, j)| ==> Parts(durs, j)[a] < Parts(durs, j)[b]
  {
    if j > 0 {
      PartsMeaning(durs, j - 1);
      var before := Parts(durs, j - 1);
      assert forall a :: 0 <= a < |before| ==> before[a] in before;
    }
  }

  /** How long the clips are that are joined. */
  function Length(durs: seq<real>, parts: seq<nat>): real
    requires forall k :: 0 <= k < |parts| ==> parts[k] < |durs|
  {
    if parts == [] then 0.0 else Length(durs, parts[..|parts| - 1]) + durs[parts[|parts| - 1]]
  }

  /** The clock before a job is the length of the clips joined before it. */
  lemma {:induction false} ClockMeaning(durs: seq<real>, j: nat)
    requires j <= |durs|
    ensures forall k :: 0 <= k < |Parts(durs, j)| ==> Parts(durs, j)[k] < |durs|
    ensures Clock(durs, j) == Length(durs, Parts(durs, j))
  {
    hide Length;
    if j == 0 {
      NoLength(durs);
    } else {
      ClockMeaning(durs, j - 1);
      if durs[j - 1] > 0.0 {
        LengthOneMore(durs, Parts(durs, j - 1), j - 1);
      } else {
        assert Parts(durs, j - 1) + [] == Parts(durs, j - 1);
      }
    }
  }

  lemma {:induction false} NoLength(durs: seq<real>)
    ensures Length(durs, []) == 0.0
  {
  }

  lemma {:induction false} LengthOneMore(durs: seq<real>, before: seq<nat>, last: nat)
    requires last < |durs| && forall k :: 0 <= k < |before| ==> before[k] < |durs|
    ensures Length(durs, before + [last]) == Length(durs, before) + durs[last]
  {
    assert (before + [last])[..|before|] == before;
  }

  /** Every clip that was made of a job with a line has its time: after the ones before it, and as long as it is. */
  lemma {:induction false} JobIsTimed(jobs: seq<Job>, durs: seq<real>, j: nat, i: nat) returns (k: nat)
    requires i < j <= |jobs| == |durs| && durs[i] > 0.0 && jobs[i].piece.line.Some?
    ensures k < |Timings(jobs, durs, j)|
    ensures Timings(jobs, durs, j)[k]
            == Timing(Clock(durs, i), Clock(durs, i) + durs[i], jobs[i].piece.line.value, jobs[i].piece.say)
  {
    if i == j - 1 {
      k := |Timings(jobs, durs, j - 1)|;
    } else {
      k := JobIsTimed(jobs, durs, j - 1, i);
    }
  }

  /** So of every markdown source, and every org source, all that its lines say is synthesised, once and in order. */
  lemma {:induction false} MarkdownIsSpoken(lines: seq<Markdown.Line>)
    ensures var sections := Assembled(Markdown.Items(lines, 0));
            JobWords(Jobs(sections, |sections|)) == Heard(Concat(Markdown.EachLine(lines), 0))
  {
    hide *;
    Markdown.Projects(lines);
    JobsSayAll(Markdown.Items(lines, 0));
    NothingIsLost(Markdown.Items(lines, 0));
  }

  lemma {:induction false} OrgIsSpoken(lines: seq<Org.Line>)
    ensures var sections := Assembled(Org.Items(lines, 0));
            JobWords(Jobs(sections, |sections|)) == Heard(Concat(Org.EachLine(lines), 0))
  {
    hide *;
    Org.Projects(lines);
    JobsSayAll(Org.Items(lines, 0));
    NothingIsLost(Org.Items(lines, 0));
  }
}
