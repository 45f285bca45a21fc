/**
  The timeline of a rendered document (`_pieces` and the loop of `_render_sections_to` in docs.py):
  each section's pieces are spoken one after the other, those that could not be are left out, and
  the clock says where each paragraph and each section's chapter lies. Rounding a time and taking the
  opening words of what is said are functions given to it.
 */
module Timeline {
  import opened Wrappers
  import opened Docs
  import Markdown
  import Org

  /** What is spoken at once, and the source line it follows, if it has one. */
  datatype Piece = Piece(line: Option<nat>, say: seq<Said>)

  datatype Job = Job(section: nat, piece: Piece)

  datatype Timing = Timing(start: real, end: real, line: nat, say: seq<Said>)

  /** A timing as it is written down. */
  datatype Shown = Shown(start: real, end: real, line: nat, text: string)

  datatype Style = Style(round: real -> real, opening: seq<Said> -> string)

  datatype Chapter = Chapter(section: nat, start: real, end: real)

  // ---------------------------------------------------------------- pieces

  predicate Speaks(say: seq<Said>) {
    exists k :: 0 <= k < |say| && say[k] != BLANK
  }

  function ParaPieces(paras: seq<Para>): seq<Piece> {
    if paras == [] then []
    else
      var p := paras[|paras| - 1];
      ParaPieces(paras[..|paras| - 1]) + if Speaks(p.said) then [Piece(Some(p.line), p.said)] else []
  }

  /** A section with paragraphs is its heading and each of them; one without is one piece, of no line. */
  function Pieces(sec: Section): seq<Piece> {
    if sec.paras == [] then
      var say := Title(sec.heading) + sec.body;
      if Speaks(say) then [Piece(None, say)] else []
    else
      (if sec.heading != "" then [Piece(sec.line, Title(sec.heading))] else []) + ParaPieces(sec.paras)
  }

  function JobsFor(n: nat, pieces: seq<Piece>): (r: seq<Job>)
    ensures |r| == |pieces| && forall k :: 0 <= k < |r| ==> r[k] == Job(n, pieces[k])
  {
    seq(|pieces|, k requires 0 <= k < |pieces| => Job(n, pieces[k]))
  }

  /** The jobs of the first n sections. */
  function Jobs(sections: seq<Section>, n: nat): (r: seq<Job>)
    requires n <= |sections|
  {
    if n == 0 then [] else Jobs(sections, n - 1) + JobsFor(n - 1, Pieces(sections[n - 1]))
  }

  /** Where the jobs of section n begin. */
  function First(sections: seq<Section>, n: nat): nat
    requires n <= |sections|
  {
    |Jobs(sections, n)|
  }

  lemma {:induction false} JobsGrow(sections: seq<Section>, m: nat, n: nat)
    requires m <= n <= |sections|
    ensures Jobs(sections, m) <= Jobs(sections, n)
  {
    hide Pieces;
    if m < n {
      JobsGrow(sections, m, n - 1);
    }
  }

  lemma {:induction false} JobsBefore(sections: seq<Section>, n: nat, j: nat)
    requires n <= |sections| && j < First(sections, n)
    ensures Jobs(sections, n)[j].section < n
  {
    hide Pieces;
    if j < First(sections, n - 1) {
      JobsBefore(sections, n - 1, j);
    }
  }

  lemma {:induction false} JobsAfter(sections: seq<Section>, m: nat, n: nat, j: nat)
    requires m <= n <= |sections| && First(sections, m) <= j < First(sections, n)
    ensures Jobs(sections, n)[j].section >= m
  {
    hide Pieces;
    if n > m && j < First(sections, n - 1) {
      JobsAfter(sections, m, n - 1, j);
    }
  }

  lemma {:induction false} FirstGrows(sections: seq<Section>, m: nat, n: nat)
    requires m <= n <= |sections|
    ensures First(sections, m) <= First(sections, n)
  {
    JobsGrow(sections, m, n);
  }

  lemma {:induction false} SectionBefore(sections: seq<Section>, n: nat, j: nat)
    requires n <= |sections| && j < First(sections, n) && j < First(sections, |sections|)
    ensures Jobs(sections, |sections|)[j].section < n
  {
    hide Pieces;
    JobsGrow(sections, n, |sections|);
    JobsBefore(sections, n, j);
  }

  /** The jobs of a section are those between its first and the next one's. */
  lemma {:induction false} JobsOfSection(sections: seq<Section>, j: nat, n: nat)
    requires j < First(sections, |sections|) && n < |sections|
    ensures First(sections, n) <= First(sections, n + 1) <= First(sections, |sections|)
    ensures Jobs(sections, |sections|)[j].section == n <==> First(sections, n) <= j < First(sections, n + 1)
  {
    hide Jobs;
    FirstGrows(sections, n, n + 1);
    FirstGrows(sections, n + 1, |sections|);
    if j < First(sections, n) {
      SectionBefore(sections, n, j);
    } else if j < First(sections, n + 1) {
      JobsAfter(sections, n, |sections|, j);
      SectionBefore(sections, n + 1, j);
    } else {
      JobsAfter(sections, n + 1, |sections|, j);
    }
  }

  // ---------------------------------------------------------------- the clock

  /** The length of the jobs before j, what failed counting for nothing. */
  function Clock(durs: seq<real>, j: nat): real
    requires j <= |durs|
  {
    if j == 0 then 0.0 else Clock(durs, j - 1) + if durs[j - 1] > 0.0 then durs[j - 1] else 0.0
  }

  /** The jobs that were spoken, and the times of those with a line, among the first j. */
  function Parts(durs: seq<real>, j: nat): seq<nat>
    requires j <= |durs|
  {
    if j == 0 then [] else Parts(durs, j - 1) + if durs[j - 1] > 0.0 then [j - 1] else []
  }

  function TimingOf(jobs: seq<Job>, durs: seq<real>, j: nat): Timing
    requires j < |jobs| == |durs| && jobs[j].piece.line.Some?
  {
    Timing(Clock(durs, j), Clock(durs, j + 1), jobs[j].piece.line.value, jobs[j].piece.say)
  }

  function Show(style: Style, t: Timing): Shown {
    Shown(style.round(t.start), style.round(t.end), t.line, style.opening(t.say))
  }

  function ShowAll(style: Style, ts: seq<Timing>): (r: seq<Shown>)
    ensures |r| == |ts|
  {
    seq(|ts|, k requires 0 <= k < |ts| => Show(style, ts[k]))
  }

  lemma {:induction false} ShowPush(style: Style, ts: seq<Timing>, t: Timing)
    ensures ShowAll(style, ts + [t]) == ShowAll(style, ts) + [Show(style, t)]
  {
  }

  function Timings(jobs: seq<Job>, durs: seq<real>, j: nat): seq<Timing>
    requires j <= |jobs| == |durs|
  {
    if j == 0 then []
    else
      Timings(jobs, durs, j - 1)
      + if durs[j - 1] > 0.0 && jobs[j - 1].piece.line.Some?
        then [TimingOf(jobs, durs, j - 1)]
        else []
  }

  /** A chapter for each of the first n sections of which something was spoken. */
  function Chapters(sections: seq<Section>, durs: seq<real>, n: nat): seq<Chapter>
    requires n <= |sections| && |durs| == First(sections, |sections|)
  {
    if n == 0 then []
    else
      JobsGrow(sections, n - 1, |sections|);
      JobsGrow(sections, n, |sections|);
      var start, end := Clock(durs, First(sections, n - 1)), Clock(durs, First(sections, n));
      Chapters(sections, durs, n - 1) + if end > start then [Chapter(n - 1, start, end)] else []
  }

  // ---------------------------------------------------------------- the loops

  lemma {:induction false} OneMore(jobs: seq<Job>, durs: seq<real>, d: nat)
    requires d < |jobs| == |durs|
    ensures Clock(durs, d + 1) == Clock(durs, d) + if durs[d] > 0.0 then durs[d] else 0.0
    ensures Parts(durs, d + 1) == Parts(durs, d) + if durs[d] > 0.0 then [d] else []
    ensures Timings(jobs, durs, d + 1)
            == Timings(jobs, durs, d)
               + if durs[d] > 0.0 && jobs[d].piece.line.Some?
                 then [TimingOf(jobs, durs, d)] else []
  {
  }

  /** One section: of all the jobs, its own, in their order. */
  method SpeakSection(style: Style, sections: seq<Section>, jobs: seq<Job>, durs: seq<real>, n: nat,
                      parts0: seq<nat>, timings0: seq<Shown>, start: real)
    returns (parts: seq<nat>, timings: seq<Shown>, clock: real)
    requires n < |sections| && jobs == Jobs(sections, |sections|)
    requires First(sections, n) <= First(sections, n + 1) <= First(sections, |sections|) == |jobs| == |durs|
    requires var f := First(sections, n);
             start == Clock(durs, f) && parts0 == Parts(durs, f) && timings0 == ShowAll(style, Timings(jobs, durs, f))
    ensures var e := First(sections, n + 1);
            clock == Clock(durs, e) && parts == Parts(durs, e) && timings == ShowAll(style, Timings(jobs, durs, e))
  {
    hide Jobs, First, Clock, Parts, Timings, ShowAll;
    parts, timings, clock := parts0, timings0, start;
    var j := 0;
    while j < |jobs|
      invariant j <= |jobs|
      invariant var d := Reached(sections, n, j);
                && d <= |jobs| && clock == Clock(durs, d) && parts == Parts(durs, d)
                && timings == ShowAll(style, Timings(jobs, durs, d))
    {
      Reaches(sections, n, j);
      OneMore(jobs, durs, j);
      assert parts + [] == parts && Timings(jobs, durs, j) + [] == Timings(jobs, durs, j);
      if jobs[j].section != n || durs[j] <= 0.0 {
        j := j + 1;
        continue;
      }
      parts := parts + [j];
      if jobs[j].piece.line.Some? {
        var piece := jobs[j].piece;
        ShowPush(style, Timings(jobs, durs, j), TimingOf(jobs, durs, j));
        timings := timings + [Shown(style.round(clock), style.round(clock + durs[j]), piece.line.value,
                                    style.opening(piece.say))];
      }
      clock := clock + durs[j];
      j := j + 1;
    }
    assert Reached(sections, n, |jobs|) == First(sections, n + 1);
  }

  /** How far a section's jobs are done once the first j jobs have been looked at. */
  function Reached(sections: seq<Section>, n: nat, j: nat): nat
    requires n < |sections|
  {
    if j < First(sections, n) then First(sections, n)
    else if j > First(sections, n + 1) then First(sections, n + 1)
    else j
  }

  lemma {:induction false} Reaches(sections: seq<Section>, n: nat, j: nat)
    requires n < |sections| && j < First(sections, |sections|)
    ensures var jobs := Jobs(sections, |sections|);
            && Reached(sections, n, j + 1) == Reached(sections, n, j) + (if jobs[j].section == n then 1 else 0)
            && (jobs[j].section == n ==> Reached(sections, n, j) == j)
            && First(sections, n + 1) <= First(sections, |sections|) == |jobs|
  {
    JobsOfSection(sections, j, n);
  }

  method RenderTimeline(style: Style, sections: seq<Section>, jobs: seq<Job>, durs: seq<real>)
    returns (parts: seq<nat>, chapters: seq<Chapter>, timings: seq<Shown>, clock: real)
    requires jobs == Jobs(sections, |sections|) && |durs| == |jobs|
    ensures parts == Parts(durs, |jobs|) && timings == ShowAll(style, Timings(jobs, durs, |jobs|))
    ensures chapters == Chapters(sections, durs, |sections|) && clock == Clock(durs, |jobs|)
  {
    hide *;
    AtTheStart(style, sections, jobs, durs);
    parts, chapters, timings, clock := [], [], [], 0.0;
    var n := 0;
    while n < |sections|
      invariant n <= |sections| && First(sections, n) <= |jobs| == First(sections, |sections|)
      invariant var f := First(sections, n);
                clock == Clock(durs, f) && parts == Parts(durs, f) && timings == ShowAll(style, Timings(jobs, durs, f))
      invariant chapters == Chapters(sections, durs, n)
    {
      var start := clock;
      FirstGrows(sections, n, n + 1);
      FirstGrows(sections, n + 1, |sections|);
      parts, timings, clock := SpeakSection(style, sections, jobs, durs, n, parts, timings, start);
      NextChapter(sections, durs, n);
      assert chapters + [] == chapters;
      if clock > start {
        chapters := chapters + [Chapter(n, start, clock)];
      }
      n := n + 1;
    }
  }

  lemma {:induction false} AtTheStart(style: Style, sections: seq<Section>, jobs: seq<Job>, durs: seq<real>)
    requires jobs == Jobs(sections, |sections|) && |durs| == |jobs|
    ensures First(sections, 0) == 0 && First(sections, |sections|) == |jobs|
    ensures Clock(durs, 0) == 0.0 && Parts(durs, 0) == [] && ShowAll(style, Timings(jobs, durs, 0)) == []
    ensures Chapters(sections, durs, 0) == []
  {
  }

  lemma {:induction false} NextChapter(sections: seq<Section>, durs: seq<real>, n: nat)
    requires n < |sections| && |durs| == First(sections, |sections|)
    requires First(sections, n) <= First(sections, n + 1) <= |durs|
    ensures var start, end := Clock(durs, First(sections, n)), Clock(durs, First(sections, n + 1));
            Chapters(sections, durs, n + 1)
            == Chapters(sections, durs, n) + if end > start then [Chapter(n, start, end)] else []
  {
    hide First, Clock;
  }

  // ---------------------------------------------------------------- order

  lemma {:induction false} ClockGrows(durs: seq<real>, i: nat, j: nat)
    requires i <= j <= |durs|
    ensures Clock(durs, i) <= Clock(durs, j)
  {
    if i < j {
      ClockGrows(durs, i, j - 1);
    }
  }

  /** One after the other, none empty, none after the end. */
  ghost predicate InOrder(t: seq<Timing>, end: real) {
    && (forall k :: 0 <= k < |t| ==> 0.0 <= t[k].start < t[k].end <= end)
    && (forall k, l :: 0 <= k < l < |t| ==> t[k].end <= t[l].start)
  }

  lemma {:induction false} InOrderOn(t: seq<Timing>, end: real, x: Timing)
    requires InOrder(t, end) && 0.0 <= end == x.start < x.end
    ensures InOrder(t + [x], x.end)
  {
  }

  /** The times are of things said one after the other, whichever of the jobs failed. */
  lemma {:induction false} TimingsOrdered(jobs: seq<Job>, durs: seq<real>, j: nat)
    requires j <= |jobs| == |durs|
    ensures InOrder(Timings(jobs, durs, j), Clock(durs, j))
  {
    if j > 0 {
      hide InOrder, Timings, Clock, Parts;
      TimingsOrdered(jobs, durs, j - 1);
      ClockGrows(durs, 0, j - 1);
      ClockStarts(durs);
      OneMore(jobs, durs, j - 1);
      var before := Timings(jobs, durs, j - 1);
      if durs[j - 1] > 0.0 && jobs[j - 1].piece.line.Some? {
        InOrderOn(before, Clock(durs, j - 1), TimingOf(jobs, durs, j - 1));
      } else {
        assert before + [] == before;
        InOrderLater(before, Clock(durs, j - 1), Clock(durs, j));
      }
    }
  }

  lemma {:induction false} ClockStarts(durs: seq<real>)
    ensures Clock(durs, 0) == 0.0
  {
  }

  lemma {:induction false} InOrderLater(t: seq<Timing>, end: real, later: real)
    requires InOrder(t, end) && end <= later
    ensures InOrder(t, later)
  {
  }

  ghost predicate Monotone(f: real -> real) {
    forall x, y :: x <= y ==> f(x) <= f(y)
  }

  /** As written down, with a rounding that keeps the order, they are in order too, though some may be empty. */
  lemma {:induction false} ShownInOrder(style: Style, t: seq<Timing>, end: real)
    requires Monotone(style.round) && InOrder(t, end)
    ensures var s := ShowAll(style, t);
            && (forall k :: 0 <= k < |s| ==>
                  && style.round(0.0) <= s[k].start <= s[k].end <= style.round(end)
                  && s[k].line == t[k].line && s[k].text == style.opening(t[k].say))
            && (forall k, l :: 0 <= k < l < |s| ==> s[k].end <= s[l].start)
  {
  }

  /** The chapters tile the time from 0 to the end: none is empty, and each begins where the last ended. */
  ghost predicate Tiles(chapters: seq<Chapter>, end: real) {
    && (chapters == [] ==> end == 0.0)
    && (chapters != [] ==> chapters[0].start == 0.0 && chapters[|chapters| - 1].end == end)
    && (forall k :: 0 <= k < |chapters| ==> chapters[k].start < chapters[k].end)
    && (forall k {:trigger chapters[k]} :: 0 < k < |chapters| ==>
          chapters[k].start == chapters[k - 1].end && chapters[k - 1].section < chapters[k].section)
  }

  lemma {:induction false} TilesOn(chapters: seq<Chapter>, end: real, c: Chapter)
    requires Tiles(chapters, end) && c.start == end < c.end
    requires forall k :: 0 <= k < |chapters| ==> chapters[k].section < c.section
    ensures Tiles(chapters + [c], c.end)
  {
    var all := chapters + [c];
    forall k {:trigger all[k]} | 0 < k < |all|
      ensures all[k].start == all[k - 1].end && all[k - 1].section < all[k].section
    {
      assert k < |chapters| ==> all[k] == chapters[k];
      assert all[k - 1] == chapters[k - 1];
    }
  }

  lemma {:induction false} ChaptersTile(sections: seq<Section>, durs: seq<real>, n: nat)
    requires n <= |sections| && |durs| == First(sections, |sections|)
    ensures First(sections, n) <= |durs| && Tiles(Chapters(sections, durs, n), Clock(durs, First(sections, n)))
    ensures forall k :: 0 <= k < |Chapters(sections, durs, n)| ==> Chapters(sections, durs, n)[k].section < n
  {
    hide Tiles, First, Clock, Chapters;
    FirstGrows(sections, n, |sections|);
    if n == 0 {
      NoChapters(sections, durs);
      NothingTiles();
    } else {
      ChaptersTile(sections, durs, n - 1);
      FirstGrows(sections, n - 1, n);
      NextChapter(sections, durs, n - 1);
      var start, end := Clock(durs, First(sections, n - 1)), Clock(durs, First(sections, n));
      ClockGrows(durs, First(sections, n - 1), First(sections, n));
      var before := Chapters(sections, durs, n - 1);
      if end > start {
        TilesOn(before, start, Chapter(n - 1, start, end));
      } else {
        assert before + [] == before;
      }
    }
  }

  lemma {:induction false} NoChapters(sections: seq<Section>, durs: seq<real>)
    requires |durs| == First(sections, |sections|)
    ensures First(sections, 0) == 0 && Clock(durs, 0) == 0.0 && Chapters(sections, durs, 0) == []
  {
  }

  lemma {:induction false} NothingTiles()
    ensures Tiles([], 0.0)
  {
  }

  // ---------------------------------------------------------------- each in its own chapter

  lemma {:induction false} ChapterOf(sections: seq<Section>, durs: seq<real>, all: nat, n: nat)
    requires n < all <= |sections| && |durs| == First(sections, |sections|)
    requires First(sections, n) <= First(sections, n + 1) <= |durs|
    requires Clock(durs, First(sections, n + 1)) > Clock(durs, First(sections, n))
    ensures Chapter(n, Clock(durs, First(sections, n)), Clock(durs, First(sections, n + 1)))
            in Chapters(sections, durs, all)
  {
    hide First;
    if n < all - 1 {
      ChapterOf(sections, durs, all - 1, n);
    }
  }

  /** A job that was spoken lies inside the chapter of its own section. */
  lemma {:induction false} InsideItsChapter(sections: seq<Section>, durs: seq<real>, j: nat)
    requires |durs| == First(sections, |sections|) && j < |durs| && durs[j] > 0.0
    ensures exists c :: c in Chapters(sections, durs, |sections|) && c.section == Jobs(sections, |sections|)[j].section
                        && c.start <= Clock(durs, j) && Clock(durs, j + 1) <= c.end
  {
    JobsBefore(sections, |sections|, j);
    var n := Jobs(sections, |sections|)[j].section;
    JobsOfSection(sections, j, n);
    hide First, Jobs, Pieces;
    var f, e := First(sections, n), First(sections, n + 1);
    ClockGrows(durs, f, j);
    ClockGrows(durs, j + 1, e);
    ChapterOf(sections, durs, |sections|, n);
    assert Chapter(n, Clock(durs, f), Clock(durs, e)) in Chapters(sections, durs, |sections|);
  }

  /** Every timing is a spoken job's, with that job's line. */
  lemma {:induction false} TimingIsAJob(jobs: seq<Job>, durs: seq<real>, j: nat, k: nat) returns (i: nat)
    requires j <= |jobs| == |durs| && k < |Timings(jobs, durs, j)|
    ensures i < j && durs[i] > 0.0 && jobs[i].piece.line.Some?
    ensures Timings(jobs, durs, j)[k] == TimingOf(jobs, durs, i)
  {
    if k < |Timings(jobs, durs, j - 1)| {
      i := TimingIsAJob(jobs, durs, j - 1, k);
    } else {
      i := j - 1;
    }
  }

  // ---------------------------------------------------------------- lines only go up

  /** The lines of some jobs' pieces, where they have one. */
  function JobLines(jobs: seq<Job>): seq<nat> {
    if jobs == [] then []
    else
      JobLines(jobs[..|jobs| - 1])
      + match jobs[|jobs| - 1].piece.line case None => [] case Some(line) => [line]
  }

  function TimingLines(t: seq<Timing>): (r: seq<nat>)
    ensures |r| == |t|
  {
    seq(|t|, k requires 0 <= k < |t| => t[k].line)
  }

  lemma {:induction false} JobLinesAppend(a: seq<Job>, b: seq<Job>)
    ensures JobLines(a + b) == JobLines(a) + JobLines(b)
  {
    if b == [] {
      assert a + b == a;
    } else {
      JobLinesAppend(a, b[..|b| - 1]);
      assert (a + b)[..|a + b| - 1] == a + b[..|b| - 1];
    }
  }

  /** A sequence that rises does so in two halves. */
  lemma {:induction false} RisingHalves(a: seq<nat>, b: seq<nat>, lo: int, hi: int) returns (mid: int)
    requires Rising(a + b, lo, hi) && lo <= hi
    ensures lo <= mid <= hi && Rising(a, lo, mid) && Rising(b, mid, hi)
  {
    var all := a + b;
    assert forall i :: 0 <= i < |a| ==> all[i] == a[i];
    assert forall i :: 0 <= i < |b| ==> all[|a| + i] == b[i];
    mid := if b == [] then hi else b[0];
  }

  lemma {:induction false} JobsForPush(n: nat, pieces: seq<Piece>, p: Piece)
    ensures JobsFor(n, pieces + [p]) == JobsFor(n, pieces) + [Job(n, p)]
  {
  }

  lemma {:induction false} OneJobLine(job: Job)
    ensures JobLines([job]) == match job.piece.line case None => [] case Some(line) => [line]
  {
    assert [job][..0] == [];
  }

  lemma {:induction false} ParaPiecesRise(n: nat, paras: seq<Para>, lo: int, hi: int)
    requires Rising(ParaLines(paras), lo, hi)
    ensures Rising(JobLines(JobsFor(n, ParaPieces(paras))), lo, hi)
    decreases |paras|
  {
    hide Rising, JobLines;
    if paras == [] {
      NoneRise(n, lo, hi);
    } else {
      var before, p := paras[..|paras| - 1], paras[|paras| - 1];
      assert ParaLines(paras) == ParaLines(before) + [p.line];
      RisingSplit(ParaLines(before), p.line, lo, hi);
      ParaPiecesRise(n, before, lo, p.line);
      var jobs := JobsFor(n, ParaPieces(before));
      RisingOn(JobLines(jobs), p.line, lo, hi);
      if Speaks(p.said) {
        JobsForPush(n, ParaPieces(before), Piece(Some(p.line), p.said));
        JobLinesAppend(jobs, [Job(n, Piece(Some(p.line), p.said))]);
        OneJobLine(Job(n, Piece(Some(p.line), p.said)));
      } else {
        assert ParaPieces(before) + [] == ParaPieces(before);
      }
    }
  }

  lemma {:induction false} NoneRise(n: nat, lo: int, hi: int)
    ensures Rising(JobLines(JobsFor(n, [])), lo, hi)
  {
  }

  lemma {:induction false} RisingOn(xs: seq<nat>, x: nat, lo: int, hi: int)
    requires Rising(xs, lo, x) && lo <= x < hi
    ensures Rising(xs + [x], lo, hi) && Rising(xs, lo, hi)
  {
  }

  lemma {:induction false} PiecesRise(n: nat, sec: Section, lo: int, hi: int)
    requires Rising(SectionLines(sec), lo, hi) && lo <= hi
    ensures Rising(JobLines(JobsFor(n, Pieces(sec))), lo, hi)
  {
    hide Rising, JobLines, ParaPieces, JobsFor, Speaks;
    if sec.paras == [] {
      WholeRises(n, sec, lo, hi);
    } else {
      var head := if sec.line.Some? then [sec.line.value] else [];
      var mid := RisingHalves(head, ParaLines(sec.paras), lo, hi);
      ParaPiecesRise(n, sec.paras, mid, hi);
      var rest := ParaPieces(sec.paras);
      if sec.heading != "" {
        HeadRises(n, Piece(sec.line, Title(sec.heading)), rest, head, lo, mid, hi);
      } else {
        assert Pieces(sec) == [] + rest == rest;
        RisesBelow(JobLines(JobsFor(n, rest)), lo, mid, hi);
      }
    }
  }

  lemma {:induction false} RisesBelow(xs: seq<nat>, lo: int, mid: int, hi: int)
    requires Rising(xs, mid, hi) && lo <= mid
    ensures Rising(xs, lo, hi)
  {
  }

  lemma {:induction false} WholeRises(n: nat, sec: Section, lo: int, hi: int)
    requires sec.paras == [] && lo <= hi
    ensures Rising(JobLines(JobsFor(n, Pieces(sec))), lo, hi)
  {
    hide JobLines;
    var pieces := Pieces(sec);
    if pieces == [] {
      NoneRise(n, lo, hi);
    } else {
      assert JobsFor(n, pieces) == [Job(n, pieces[0])];
      OneJobLine(Job(n, pieces[0]));
    }
  }

  lemma {:induction false} HeadRises(n: nat, first: Piece, rest: seq<Piece>, head: seq<nat>, lo: int, mid: int, hi: int)
    requires Rising(head, lo, mid) && Rising(JobLines(JobsFor(n, rest)), mid, hi) && lo <= mid <= hi
    requires head == match first.line case None => [] case Some(line) => [line]
    ensures Rising(JobLines(JobsFor(n, [first] + rest)), lo, hi)
  {
    hide Rising, JobLines;
    var job := Job(n, first);
    assert JobsFor(n, [first] + rest) == [job] + JobsFor(n, rest);
    JobLinesAppend([job], JobsFor(n, rest));
    OneJobLine(job);
    RisingAppend(head, JobLines(JobsFor(n, rest)), lo, mid, hi);
  }

  lemma {:induction false} JobsRise(sections: seq<Section>, n: nat, lo: int, hi: int)
    requires n <= |sections| && lo <= hi && Rising(SourceLines(sections[..n]), lo, hi)
    ensures Rising(JobLines(Jobs(sections, n)), lo, hi)
    decreases n
  {
    hide Rising, Pieces, SectionLines;
    if n == 0 {
      NoneRise(0, lo, hi);
    } else {
      assert sections[..n][..n - 1] == sections[..n - 1] && sections[..n][n - 1] == sections[n - 1];
      var mid := RisingHalves(SourceLines(sections[..n - 1]), SectionLines(sections[n - 1]), lo, hi);
      JobsRise(sections, n - 1, lo, mid);
      PiecesRise(n - 1, sections[n - 1], mid, hi);
      JobLinesAppend(Jobs(sections, n - 1), JobsFor(n - 1, Pieces(sections[n - 1])));
      RisingAppend(JobLines(Jobs(sections, n - 1)), JobLines(JobsFor(n - 1, Pieces(sections[n - 1]))), lo, mid, hi);
    }
  }

  lemma {:induction false} TimingsRise(jobs: seq<Job>, durs: seq<real>, j: nat, lo: int, hi: int)
    requires j <= |jobs| == |durs| && Rising(JobLines(jobs[..j]), lo, hi)
    ensures Rising(TimingLines(Timings(jobs, durs, j)), lo, hi)
    decreases j
  {
    hide Rising, Clock;
    if j == 0 {
      assert TimingLines(Timings(jobs, durs, 0)) == JobLines(jobs[..0]) == [];
    } else {
      assert jobs[..j][..j - 1] == jobs[..j - 1];
      var before := Timings(jobs, durs, j - 1);
      match jobs[j - 1].piece.line
      case None =>
        assert JobLines(jobs[..j - 1]) + [] == JobLines(jobs[..j - 1]) && before + [] == before;
        TimingsRise(jobs, durs, j - 1, lo, hi);
      case Some(line) =>
        RisingSplit(JobLines(jobs[..j - 1]), line, lo, hi);
        TimingsRise(jobs, durs, j - 1, lo, line);
        RisingOn(TimingLines(before), line, lo, hi);
        if durs[j - 1] > 0.0 {
          var x := TimingOf(jobs, durs, j - 1);
          assert TimingLines(before + [x]) == TimingLines(before) + [line];
        } else {
          assert before + [] == before;
        }
    }
  }

  /**
    Whatever was spoken and however long it took: the times are ordered and disjoint, their source
    lines only go up, and the chapters tile the time from 0 to the end.
   */
  lemma {:induction false} FollowsAlong(sections: seq<Section>, durs: seq<real>, hi: nat)
    requires |durs| == First(sections, |sections|) && Rising(SourceLines(sections), 0, hi)
    ensures var jobs := Jobs(sections, |sections|);
            var t := Timings(jobs, durs, |durs|);
            InOrder(t, Clock(durs, |durs|)) && Rising(TimingLines(t), 0, hi)
    ensures Tiles(Chapters(sections, durs, |sections|), Clock(durs, |durs|))
  {
    var jobs := Jobs(sections, |sections|);
    TimingsOrdered(jobs, durs, |durs|);
    assert sections[..|sections|] == sections && jobs[..|durs|] == jobs;
    JobsRise(sections, |sections|, 0, hi);
    TimingsRise(jobs, durs, |durs|, 0, hi);
    ChaptersTile(sections, durs, |sections|);
  }

  /** So for every markdown source, and every org source, whatever its lines take to say or fail to. */
  lemma {:induction false} MarkdownFollowsAlong(lines: seq<Markdown.Line>, durs: seq<real>)
    requires var sections := Assembled(Markdown.Items(lines, 0)); |durs| == First(sections, |sections|)
    ensures var sections := Assembled(Markdown.Items(lines, 0));
            var t := Timings(Jobs(sections, |sections|), durs, |durs|);
            && InOrder(t, Clock(durs, |durs|)) && Rising(TimingLines(t), 0, |lines|)
            && Tiles(Chapters(sections, durs, |sections|), Clock(durs, |durs|))
  {
    hide *;
    Markdown.Projects(lines);
    FollowsAlong(Assembled(Markdown.Items(lines, 0)), durs, |lines|);
  }

  lemma {:induction false} OrgFollowsAlong(lines: seq<Org.Line>, durs: seq<real>)
    requires var sections := Assembled(Org.Items(lines, 0)); |durs| == First(sections, |sections|)
    ensures var sections := Assembled(Org.Items(lines, 0));
            var t := Timings(Jobs(sections, |sections|), durs, |durs|);
            && InOrder(t, Clock(durs, |durs|)) && Rising(TimingLines(t), 0, |lines|)
            && Tiles(Chapters(sections, durs, |sections|), Clock(durs, |durs|))
  {
    hide *;
    Org.Projects(lines);
    FollowsAlong(Assembled(Org.Items(lines, 0)), durs, |lines|);
  }
}
