/**
  One chapter per turn over tracks that are one per sentence (`chapters_from` in book_tracks.py).
  Rounding to milliseconds and stripping a title are functions given to it.
 */
module Chapters {
  import opened BookTracks

  datatype Track = Track(start: real, duration: real)

  datatype Chapter = Chapter(id: nat, start: real, end: real, title: string)

  datatype Style = Style(round: real -> real, strip: string -> string)

  // ---------------------------------------------------------------- titles

  /** `name.rsplit(".", 1)[0]` */
  function BeforeDot(name: string): string {
    if '.' !in name then name
    else if name[|name| - 1] == '.' then name[..|name| - 1]
    else BeforeDot(name[..|name| - 1])
  }

  /** Where the first dash is, or the length. */
  function FirstDash(name: string): nat {
    if name == "" then 0 else if |name| >= 3 && name[..3] == DASH then 0 else 1 + FirstDash(name[1..])
  }

  /** `name.split(" - ", 1)[-1]` */
  function AfterDash(name: string): string {
    if FirstDash(name) + 3 <= |name| then name[FirstDash(name) + 3..] else name
  }

  /** A manifest from before titles were kept has them in its file names. */
  function Title(style: Style, turn: Entry): string
    requires turn.files != []
  {
    var kept := style.strip(turn.title);
    var title := if kept != "" then kept else AfterDash(BeforeDot(turn.files[0]));
    if |title| > 120 then title[..120] else title
  }

  lemma {:induction false} DotBefore(x: string, c: char)
    requires '.' in x && c != '.'
    ensures '.' in x + [c] && BeforeDot(x + [c]) == BeforeDot(x)
  {
    assert (x + [c])[..|x|] == x;
  }

  lemma {:induction false} DotIsLast(x: string)
    ensures BeforeDot(x + ".mp3") == x
  {
    var dotted := x + ".";
    assert dotted[|x|] == '.' && dotted[..|x|] == x;
    DotBefore(dotted, 'm');
    DotBefore(dotted + "m", 'p');
    DotBefore(dotted + "m" + "p", '3');
    assert x + ".mp3" == dotted + "m" + "p" + "3";
  }

  lemma {:induction false} DashIsFirst(p: string, x: string)
    requires forall c :: c in p ==> IsDigit(c)
    ensures FirstDash(p + DASH + x) == |p|
  {
    var name := p + DASH + x;
    if p == "" {
      assert name[..3] == DASH;
    } else {
      assert p[0] in p && name[0] == p[0];
      assert forall c :: c in p[1..] ==> c in p;
      DashIsFirst(p[1..], x);
      assert name[1..] == p[1..] + DASH + x;
    }
  }

  /** The title read from a track's name is what the track says. */
  lemma {:induction false} NameHoldsTitle(w: World, n: nat, said: string, fallback: string)
    ensures AfterDash(BeforeDot(TrackName(w, n, said, fallback))) == w.safe(if said != "" then said else fallback)
  {
    hide Padded;
    var x := w.safe(if said != "" then said else fallback);
    PaddedDigits(n);
    DotIsLast(Padded(n) + DASH + x);
    DashIsFirst(Padded(n), x);
    assert TrackName(w, n, said, fallback) == Padded(n) + DASH + x + ".mp3";
  }

  // ---------------------------------------------------------------- chapters

  function End(t: Track): real {
    t.start + t.duration
  }

  /** The chapter of turn n, whose first track is i. */
  function Made(style: Style, turn: Entry, n: nat, tracks: seq<Track>, i: nat): Chapter
    requires turn.files != [] && i + |turn.files| <= |tracks|
  {
    Chapter(n, style.round(tracks[i].start), style.round(End(tracks[i + |turn.files| - 1])), Title(style, turn))
  }

  /** The chapters of the turns from n on, the next track being i. */
  function From(style: Style, turns: seq<Entry>, tracks: seq<Track>, n: nat, i: nat): seq<Chapter>
    requires n <= |turns|
    decreases |turns| - n
  {
    if n == |turns| then []
    else
      var count := |turns[n].files|;
      if count == 0 || i + count > |tracks| then []
      else [Made(style, turns[n], n, tracks, i)] + From(style, turns, tracks, n + 1, i + count)
  }

  method ChaptersFrom(style: Style, turns: seq<Entry>, tracks: seq<Track>) returns (out: seq<Chapter>)
    ensures out == From(style, turns, tracks, 0, 0)
  {
    out := [];
    var i: nat, n: nat := 0, 0;
    assert out + From(style, turns, tracks, 0, 0) == From(style, turns, tracks, 0, 0);
    while n < |turns|
      invariant n <= |turns|
      invariant out + From(style, turns, tracks, n, i) == From(style, turns, tracks, 0, 0)
    {
      var count := |turns[n].files|;
      if count == 0 || i + count > |tracks| {
        break;
      }
      var c := Made(style, turns[n], n, tracks, i);
      assert out + From(style, turns, tracks, n, i) == out + [c] + From(style, turns, tracks, n + 1, i + count);
      out := out + [c];
      i, n := i + count, n + 1;
    }
    assert out + [] == out;
  }

  /** Each track begins where the one before ends, the first at 0. */
  ghost predicate Cumulative(tracks: seq<Track>) {
    && (tracks != [] ==> tracks[0].start == 0.0)
    && forall j {:trigger tracks[j]} :: 0 < j < |tracks| ==> tracks[j].start == End(tracks[j - 1])
  }

  /** How many files the first k turns have. */
  function FilesOf(turns: seq<Entry>, k: nat): nat
    requires k <= |turns|
  {
    |Flat(turns[..k])|
  }

  lemma {:induction false} FilesOfNext(turns: seq<Entry>, k: nat)
    requires k < |turns|
    ensures FilesOf(turns, k + 1) == FilesOf(turns, k) + |turns[k].files|
  {
    assert turns[..k + 1] == turns[..k] + [turns[k]];
    FlatPush(turns[..k], turns[k]);
  }

  /** Chapter k is turn k's: from where its first file's track begins to where its last one's ends. */
  ghost predicate IsOf(style: Style, turns: seq<Entry>, tracks: seq<Track>, k: nat, c: Chapter)
    requires k < |turns|
  {
    && c.id == k
    && FilesOf(turns, k) < FilesOf(turns, k + 1) <= |tracks|
    && c.start == style.round(tracks[FilesOf(turns, k)].start)
    && c.end == style.round(tracks[FilesOf(turns, k + 1) - 1].start + tracks[FilesOf(turns, k + 1) - 1].duration)
    && turns[k].files != [] && c.title == Title(style, turns[k])
  }

  lemma {:induction false} HeadIsOf(style: Style, turns: seq<Entry>, tracks: seq<Track>, n: nat)
    requires n < |turns| && turns[n].files != []
    requires FilesOf(turns, n) + |turns[n].files| <= |tracks|
    ensures var i := FilesOf(turns, n);
            IsOf(style, turns, tracks, n, Made(style, turns[n], n, tracks, i))
  {
    FilesOfNext(turns, n);
  }

  ghost predicate AreOf(style: Style, turns: seq<Entry>, tracks: seq<Track>, n: nat, out: seq<Chapter>) {
    n + |out| <= |turns| && forall k: nat :: k < |out| ==> IsOf(style, turns, tracks, n + k, out[k])
  }

  lemma {:induction false} OneMoreOf(style: Style, turns: seq<Entry>, tracks: seq<Track>, n: nat, c: Chapter,
                                     rest: seq<Chapter>)
    requires n < |turns| && IsOf(style, turns, tracks, n, c) && AreOf(style, turns, tracks, n + 1, rest)
    ensures AreOf(style, turns, tracks, n, [c] + rest)
  {
    hide IsOf;
    var out := [c] + rest;
    forall k: nat | k < |out| ensures IsOf(style, turns, tracks, n + k, out[k]) {
      if k > 0 {
        var j: nat := k - 1;
        assert IsOf(style, turns, tracks, n + 1 + j, rest[j]);
      }
    }
  }

  /** Why the chapters end: there is no turn left, it has no files, or the server lacks some. */
  predicate Over(turns: seq<Entry>, tracks: seq<Track>, n: nat) {
    n < |turns| ==> turns[n].files == [] || FilesOf(turns, n) + |turns[n].files| > |tracks|
  }

  lemma {:induction false} FromMeans(style: Style, turns: seq<Entry>, tracks: seq<Track>, n: nat)
    requires n <= |turns| && FilesOf(turns, n) <= |tracks|
    ensures var out := From(style, turns, tracks, n, FilesOf(turns, n));
            AreOf(style, turns, tracks, n, out) && Over(turns, tracks, n + |out|)
    decreases |turns| - n
  {
    hide IsOf, FilesOf;
    if n < |turns| {
      FilesOfNext(turns, n);
      var count, i := |turns[n].files|, FilesOf(turns, n);
      if count > 0 && i + count <= |tracks| {
        hide AreOf, Over;
        HeadIsOf(style, turns, tracks, n);
        FromMeans(style, turns, tracks, n + 1);
        OneMoreOf(style, turns, tracks, n, Made(style, turns[n], n, tracks, i),
                  From(style, turns, tracks, n + 1, i + count));
      }
    }
  }

  lemma {:induction false} NoFilesYet(turns: seq<Entry>)
    ensures FilesOf(turns, 0) == 0
  {
  }

  /**
    Whatever the offsets, chapter k is turn k's, by its number, its title and its tracks' rounded times,
    and they go on to the first turn that has no files or whose files the server lacks.
   */
  lemma {:induction false} ChaptersAre(style: Style, turns: seq<Entry>, tracks: seq<Track>)
    ensures var out := From(style, turns, tracks, 0, 0);
            AreOf(style, turns, tracks, 0, out) && Over(turns, tracks, |out|)
  {
    hide From, FilesOf, AreOf;
    NoFilesYet(turns);
    FromMeans(style, turns, tracks, 0);
  }

  /** With offsets that add up, each begins where the one before it ended, the first at 0. */
  lemma {:induction false} ChaptersTile(style: Style, turns: seq<Entry>, tracks: seq<Track>)
    requires Cumulative(tracks)
    ensures var out := From(style, turns, tracks, 0, 0);
            && (out != [] ==> out[0].start == style.round(0.0))
            && (forall k: nat {:trigger out[k]} :: 0 < k < |out| ==> out[k].start == out[k - 1].end)
  {
    hide From, FilesOf, IsOf, Cumulative;
    ChaptersAre(style, turns, tracks);
    var out := From(style, turns, tracks, 0, 0);
    forall k: nat {:trigger out[k]} | 0 < k < |out| ensures out[k].start == out[k - 1].end {
      var j: nat := k - 1;
      assert IsOf(style, turns, tracks, 0 + j, out[j]) && IsOf(style, turns, tracks, 0 + k, out[k]);
      NextTile(style, turns, tracks, j, out[j], out[k]);
    }
    if out != [] {
      assert IsOf(style, turns, tracks, 0 + 0, out[0]);
      FirstTile(style, turns, tracks, out[0]);
    }
  }

  lemma {:induction false} NextTile(style: Style, turns: seq<Entry>, tracks: seq<Track>, j: nat, c: Chapter, d: Chapter)
    requires Cumulative(tracks) && j + 1 < |turns|
    requires IsOf(style, turns, tracks, j, c) && IsOf(style, turns, tracks, j + 1, d)
    ensures d.start == c.end
  {
    hide FilesOf;
    var f := FilesOf(turns, j + 1);
    assert tracks[f].start == End(tracks[f - 1]);
  }

  lemma {:induction false} FirstTile(style: Style, turns: seq<Entry>, tracks: seq<Track>, c: Chapter)
    requires Cumulative(tracks) && turns != [] && IsOf(style, turns, tracks, 0, c)
    ensures c.start == style.round(0.0)
  {
    NoFilesYet(turns);
  }

  /** The first 120 characters, or all of fewer. */
  ghost predicate Opening(text: string, title: string) {
    title <= text && |title| <= 120 && (|title| < 120 ==> title == text)
  }

  /** A title is what the manifest keeps, stripped; else the sentence that the first file is named for. */
  lemma {:induction false} TitleMeaning(style: Style, turn: Entry, w: World, n: nat, said: string, fallback: string)
    requires turn.files != []
    ensures style.strip(turn.title) != "" ==> Opening(style.strip(turn.title), Title(style, turn))
    ensures style.strip(turn.title) == "" && turn.files[0] == TrackName(w, n, said, fallback) ==>
              Opening(w.safe(if said != "" then said else fallback), Title(style, turn))
  {
    hide AfterDash, BeforeDot, TrackName, Opening;
    NameHoldsTitle(w, n, said, fallback);
    OpeningOf(style.strip(turn.title));
    OpeningOf(AfterDash(BeforeDot(turn.files[0])));
  }

  lemma {:induction false} OpeningOf(text: string)
    ensures Opening(text, if |text| > 120 then text[..120] else text)
  {
  }
}
