/**
  What one run of the export writes, by its turns: which of them get an entry, in what order, and what
  each entry holds.
 */
module Exported {
  import opened Wrappers
  import opened BookTracks

  /** A turn there is something to write for: not written yet, with clips, and none that only a device can say. */
  ghost predicate HasAudio(w: World, done: set<real>, turn: Turn) {
    turn.at !in done && turn.clips != [] && forall i :: 0 <= i < |turn.clips| ==> !w.device(turn.clips[i])
  }

  lemma {:induction false} SkipsMeans(w: World, done: set<real>, turn: Turn)
    ensures Skips(w, done, turn) <==> !HasAudio(w, done, turn)
  {
    if !HasAudio(w, done, turn) && turn.at !in done && turn.clips != [] {
      var i :| 0 <= i < |turn.clips| && w.device(turn.clips[i]);
      assert turn.clips[i] in turn.clips;
    }
  }

  /** The turns there is something to write for, in their order. */
  ghost predicate AudioTurns(w: World, done: set<real>, turns: seq<Turn>, k: nat, a: seq<nat>) {
    && (forall x :: 0 <= x < |a| ==> k <= a[x] < |turns| && HasAudio(w, done, turns[a[x]]))
    && (forall x, y :: 0 <= x < y < |a| ==> a[x] < a[y])
    && (forall i: nat :: k <= i < |turns| && HasAudio(w, done, turns[i]) ==> i in a)
  }

  function Sentence(turn: Turn, i: nat): string {
    if i < |turn.sentences| then turn.sentences[i] else ""
  }

  /**
    An entry is a turn's: its time, its title and its first clips, each under the number that follows and
    its own sentence, up to one that cannot be placed.
   */
  ghost predicate EntryIs(w: World, turn: Turn, e: Entry, index: nat) {
    && e.at == turn.at && e.title == turn.title && 0 < |e.files| <= |turn.clips|
    && (forall j: nat :: j < |e.files| ==> e.files[j] == TrackName(w, index + j + 1, Sentence(turn, j), turn.title))
    && (|e.files| < |turn.clips| ==>
          !w.place(turn.clips[|e.files|],
                   TrackName(w, index + |e.files| + 1, Sentence(turn, |e.files|), turn.title)))
  }

  /** Entries b and on are those of the first of these turns, each behind the ones before it. */
  ghost predicate EntriesAre(w: World, turns: seq<Turn>, a: seq<nat>, written: seq<Entry>, b: nat) {
    && b <= |written| <= b + |a|
    && forall x: nat :: x < |written| - b ==>
         a[x] < |turns| && EntryIs(w, turns[a[x]], written[b + x], |Flat(written[..b + x])|)
  }

  lemma {:induction false} WrittenIs(w: World, turn: Turn, s: Walked)
    requires Placed(w, turn, 0, |Flat(s.written)|, s.disk).0 != []
    ensures var t := Writes(w, turn, s);
            |t.written| == |s.written| + 1 && s.written <= t.written
            && EntryIs(w, turn, t.written[|s.written|], |Flat(s.written)|)
  {
    hide Flat, TrackName;
    PlacedNames(w, turn, 0, |Flat(s.written)|, s.disk);
  }

  /** What a walk from turn k on writes, when these are the turns there is something to write for. */
  ghost predicate Follows(w: World, done: set<real>, turns: seq<Turn>, k: nat, s: Walked, a: seq<nat>)
    requires k <= |turns|
  {
    var r, b := Walk(w, done, turns, k, s), |s.written|;
    && AudioTurns(w, done, turns, k, a) && s.written <= r.written && EntriesAre(w, turns, a, r.written, b)
    && (r.stop.None? ==> |r.written| == b + |a|)
    && (r.stop.Some? ==>
          && |r.written| < b + |a| && a[|r.written| - b] == r.stop.value
          && r.stop.value < |turns| && turns[r.stop.value].clips != []
          && !Goes(w, turns[r.stop.value], 0, |Flat(r.written)|, 0, r.disk))
  }

  lemma {:induction false} WalkIs(w: World, done: set<real>, turns: seq<Turn>, k: nat, s: Walked)
    returns (a: seq<nat>)
    requires k <= |turns| && s.stop.None?
    ensures Follows(w, done, turns, k, s, a)
    decreases |turns| - k
  {
    hide Placed, Flat, Skips, HasAudio, Follows, AudioTurns;
    if k == |turns| {
      a := [];
      WalkIsOver(w, done, turns, s);
    } else {
      SkipsMeans(w, done, turns[k]);
      if Skips(w, done, turns[k]) {
        a := WalkIs(w, done, turns, k + 1, s);
        WalkSkips(w, done, turns, k, s, a);
      } else if Placed(w, turns[k], 0, |Flat(s.written)|, s.disk).0 == [] {
        a := RestOf(w, done, turns, k + 1);
        WalkStopsHere(w, done, turns, k, s, a);
        a := [k] + a;
      } else {
        a := WalkIs(w, done, turns, k + 1, Writes(w, turns[k], s));
        WalkWrites(w, done, turns, k, s, a);
        a := [k] + a;
      }
    }
  }

  lemma {:induction false} WalkIsOver(w: World, done: set<real>, turns: seq<Turn>, s: Walked)
    requires s.stop.None?
    ensures Follows(w, done, turns, |turns|, s, [])
  {
  }

  lemma {:induction false} WalkSkips(w: World, done: set<real>, turns: seq<Turn>, k: nat, s: Walked, a: seq<nat>)
    requires k < |turns| && Skips(w, done, turns[k]) && Follows(w, done, turns, k + 1, s, a)
    ensures Follows(w, done, turns, k, s, a)
  {
    hide AudioTurns, EntriesAre, Flat, Goes, HasAudio;
    SkipsMeans(w, done, turns[k]);
    AudioSkips(w, done, turns, k, a);
  }

  lemma {:induction false} WalkStopsHere(w: World, done: set<real>, turns: seq<Turn>, k: nat, s: Walked, a: seq<nat>)
    requires k < |turns| && !Skips(w, done, turns[k]) && AudioTurns(w, done, turns, k + 1, a) && s.stop.None?
    requires Placed(w, turns[k], 0, |Flat(s.written)|, s.disk).0 == []
    ensures Follows(w, done, turns, k, s, [k] + a)
  {
    hide AudioTurns, Placed, Flat, Goes, HasAudio, EntryIs;
    SkipsMeans(w, done, turns[k]);
    HasClips(w, done, turns[k]);
    FirstWillNotGo(w, turns[k], |Flat(s.written)|, s.disk);
    AudioPush(w, done, turns, k, a);
    assert Walk(w, done, turns, k, s) == s.(stop := Some(k));
  }

  lemma {:induction false} WalkWrites(w: World, done: set<real>, turns: seq<Turn>, k: nat, s: Walked, a: seq<nat>)
    requires k < |turns| && !Skips(w, done, turns[k]) && s.stop.None?
    requires Placed(w, turns[k], 0, |Flat(s.written)|, s.disk).0 != []
    requires Follows(w, done, turns, k + 1, Writes(w, turns[k], s), a)
    ensures Follows(w, done, turns, k, s, [k] + a)
  {
    hide AudioTurns, EntriesAre, Placed, Flat, Goes, HasAudio, EntryIs;
    var t := Writes(w, turns[k], s);
    SkipsMeans(w, done, turns[k]);
    WrittenIs(w, turns[k], s);
    AudioPush(w, done, turns, k, a);
    var r := Walk(w, done, turns, k + 1, t);
    assert Walk(w, done, turns, k, s) == r;
    EntriesPush(w, turns, k, a, s.written, t.written, r.written);
  }

  lemma {:induction false} HasClips(w: World, done: set<real>, turn: Turn)
    requires HasAudio(w, done, turn)
    ensures turn.clips != []
  {
  }

  lemma {:induction false} RestOf(w: World, done: set<real>, turns: seq<Turn>, k: nat) returns (a: seq<nat>)
    requires k <= |turns|
    ensures AudioTurns(w, done, turns, k, a)
    decreases |turns| - k
  {
    hide HasAudio;
    if k == |turns| {
      a := [];
    } else {
      a := RestOf(w, done, turns, k + 1);
      if HasAudio(w, done, turns[k]) {
        AudioPush(w, done, turns, k, a);
        a := [k] + a;
      } else {
        AudioSkips(w, done, turns, k, a);
      }
    }
  }

  lemma {:induction false} AudioSkips(w: World, done: set<real>, turns: seq<Turn>, k: nat, a: seq<nat>)
    requires k < |turns| && AudioTurns(w, done, turns, k + 1, a) && !HasAudio(w, done, turns[k])
    ensures AudioTurns(w, done, turns, k, a)
  {
    hide HasAudio;
  }

  lemma {:induction false} AudioPush(w: World, done: set<real>, turns: seq<Turn>, k: nat, a: seq<nat>)
    requires k < |turns| && AudioTurns(w, done, turns, k + 1, a) && HasAudio(w, done, turns[k])
    ensures AudioTurns(w, done, turns, k, [k] + a)
  {
    hide HasAudio;
    var all := [k] + a;
    forall i: nat | k <= i < |turns| && HasAudio(w, done, turns[i]) ensures i in all {
      if i == k {
        assert all[0] == k;
      } else {
        var x :| 0 <= x < |a| && a[x] == i;
        assert all[x + 1] == i;
      }
    }
  }

  lemma {:induction false} EntriesPush(w: World, turns: seq<Turn>, k: nat, a: seq<nat>, before: seq<Entry>,
                                       then': seq<Entry>, written: seq<Entry>)
    requires k < |turns| && |then'| == |before| + 1 && before <= then' <= written
    requires EntryIs(w, turns[k], then'[|before|], |Flat(before)|) && EntriesAre(w, turns, a, written, |then'|)
    ensures EntriesAre(w, turns, [k] + a, written, |before|)
  {
    hide EntryIs, Flat;
    var b, all := |before|, [k] + a;
    forall x: nat | x < |written| - b
      ensures all[x] < |turns| && EntryIs(w, turns[all[x]], written[b + x], |Flat(written[..b + x])|)
    {
      if x == 0 {
        assert written[..b] == before && written[b] == then'[b];
      } else {
        var y: nat := x - 1;
        assert all[x] == a[y] && b + x == |then'| + y;
        assert EntryIs(w, turns[a[y]], written[|then'| + y], |Flat(written[..|then'| + y])|);
      }
    }
  }

  /**
    A run keeps the entries there were and adds one for each of the first turns that there is something
    to write for, in their order; if it is not all of them, the first clip of the next could not be placed.
   */
  lemma {:induction false} ExportMeaning(w: World, turns: seq<Turn>, shelf: Shelf) returns (a: seq<nat>)
    ensures AudioTurns(w, Times(Entries(shelf)), turns, 0, a)
    ensures var written, b := Whole(w, turns, shelf).written, |Entries(shelf)|;
            && Entries(shelf) <= written && EntriesAre(w, turns, a, written, b)
            && (|written| < b + |a| ==>
                  && a[|written| - b] < |turns|
                  && var turn := turns[a[|written| - b]];
                  && turn.clips != []
                  && !w.place(turn.clips[0], TrackName(w, |Flat(written)| + 1, Sentence(turn, 0), turn.title)))
    ensures var (after, added) := Export(w, turns, shelf);
            after.manifest == if added == 0 && shelf.manifest.Some? then shelf.manifest
                              else Some(Whole(w, turns, shelf).written)
  {
    hide Walk, Times, TrackName, Flat, EntriesAre, AudioTurns;
    a := WalkIs(w, Times(Entries(shelf)), turns, 0, Walked(Entries(shelf), 0, shelf.disk, None));
  }
}
