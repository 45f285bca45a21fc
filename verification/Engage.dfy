/**
  What a tick that wants the hold does to the sockets of both lists: everything on the first tick of
  an episode, and again whenever a poll is due while it lasts.
 */
module Engage {
  import opened Wrappers
  import opened CallGuard
  import opened Episodes

  /** The first tick of an episode, or one of its polls. */
  ghost predicate Grips(cfg: Config, ws: seq<Input>, k: nat)
    requires k < |ws|
  {
    Want(cfg, ws, k) && (Begin(cfg, ws, k) == k || Due(cfg, ws, k))
  }

  /** Event e is done, and `before`, if there is one, is done just before it. */
  ghost predicate DoneAfter(did: seq<Event>, before: Option<Event>, e: Event) {
    exists q :: 0 <= q < |did| && did[q] == e && (before.Some? ==> q > 0 && did[q - 1] == before.value)
  }

  lemma {:induction false} DoneWithin(a: seq<Event>, b: seq<Event>, c: seq<Event>, before: Option<Event>, e: Event)
    requires DoneAfter(b, before, e)
    ensures DoneAfter(a + b + c, before, e)
  {
    var q :| 0 <= q < |b| && b[q] == e && (before.Some? ==> q > 0 && b[q - 1] == before.value);
    var all := a + b + c;
    assert all[|a| + q] == e;
    if before.Some? {
      assert all[|a| + q - 1] == b[q - 1];
    }
  }

  // ---------------------------------------------------------------- the pause list

  /** What is read just before a socket is paused, on the first tick. */
  function ReadFirst(sock: Sock, quiet: bool, view: View): Option<Event> {
    if quiet || view.paused.None? then None else Some(ReadPause(sock, view.paused.value))
  }

  lemma {:induction false} PauseDoes(cfg: Config, already: set<Sock>, quiet: bool, view: nat -> View, n: nat, j: nat)
    requires j < n <= |cfg.pauseList| && view(j).present && !cfg.dryRun
    ensures var did := Pause(cfg, already, quiet, view, n).1;
            DoneAfter(did, ReadFirst(cfg.pauseList[j], quiet, view(j)),
                      SetPause(cfg.pauseList[j], true, view(j).pauseSet))
  {
    var (before, did) := Pause(cfg, already, quiet, view, n - 1);
    var (_, more) := PauseOne(cfg, before, quiet, cfg.pauseList[n - 1], view(n - 1));
    var read, e := ReadFirst(cfg.pauseList[j], quiet, view(j)), SetPause(cfg.pauseList[j], true, view(j).pauseSet);
    if j < n - 1 {
      PauseDoes(cfg, already, quiet, view, n - 1, j);
      DoneWithin([], did, more, read, e);
      assert [] + did + more == did + more;
    } else {
      assert more[|more| - 1] == e && (read.Some? ==> more[0] == read.value && |more| == 2);
      assert DoneAfter(more, read, e);
      DoneWithin(did, more, [], read, e);
      assert did + more + [] == did + more;
    }
  }

  predicate PlacePauses(cfg: Config, quiet: bool, view: View, j: nat, e: Event)
    requires j < |cfg.pauseList|
  {
    e == SetPause(cfg.pauseList[j], true, view.pauseSet) || Some(e) == ReadFirst(cfg.pauseList[j], quiet, view)
  }

  predicate PlaceLowers(cfg: Config, view: View, j: nat, e: Event)
    requires j < |cfg.duckList|
  {
    || e == SetVolume(cfg.duckList[j], cfg.duckVolume, view.volumeSet)
    || (view.volume.Number? && e == ReadVolume(cfg.duckList[j], view.volume.v))
  }

  /** Nothing is paused, and nothing read, but what the list says. */
  lemma {:induction false} PauseDid(cfg: Config, already: set<Sock>, quiet: bool, view: nat -> View, n: nat, e: Event)
    requires n <= |cfg.pauseList| && e in Pause(cfg, already, quiet, view, n).1
    ensures !cfg.dryRun && exists j: nat :: j < n && view(j).present && PlacePauses(cfg, quiet, view(j), j, e)
  {
    var (before, did) := Pause(cfg, already, quiet, view, n - 1);
    if e in did {
      PauseDid(cfg, already, quiet, view, n - 1, e);
    }
  }

  // ---------------------------------------------------------------- the duck list

  lemma {:induction false} DuckSaves(cfg: Config, saved: seq<Saved>, view: nat -> View, n: nat, sock: Sock)
    requires n <= |cfg.duckList| && IsSaved(saved, sock)
    ensures IsSaved(Duck(cfg, saved, view, n).0, sock)
  {
    if n > 0 {
      DuckSaves(cfg, saved, view, n - 1, sock);
      var before := Duck(cfg, saved, view, n - 1).0;
      var after := Duck(cfg, saved, view, n).0;
      var k :| 0 <= k < |before| && before[k].sock == sock;
      assert after[k].sock == sock;
    }
  }

  /** A present socket whose volume is known, or can be read, is lowered. */
  lemma {:induction false} DuckDoes(cfg: Config, saved: seq<Saved>, view: nat -> View, n: nat, j: nat)
    requires j < n <= |cfg.duckList| && view(j).present && !cfg.dryRun
    requires IsSaved(saved, cfg.duckList[j]) || view(j).volume.Number?
    ensures SetVolume(cfg.duckList[j], cfg.duckVolume, view(j).volumeSet) in Duck(cfg, saved, view, n).1
  {
    if j < n - 1 {
      DuckDoes(cfg, saved, view, n - 1, j);
    } else if IsSaved(saved, cfg.duckList[j]) {
      DuckSaves(cfg, saved, view, n - 1, cfg.duckList[j]);
    }
  }

  lemma {:induction false} DuckDid(cfg: Config, saved: seq<Saved>, view: nat -> View, n: nat, e: Event)
    requires n <= |cfg.duckList| && e in Duck(cfg, saved, view, n).1
    ensures !cfg.dryRun && exists j: nat :: j < n && view(j).present && PlaceLowers(cfg, view(j), j, e)
  {
    if e in Duck(cfg, saved, view, n - 1).1 {
      DuckDid(cfg, saved, view, n - 1, e);
    }
  }

  // ---------------------------------------------------------------- a tick that wants the hold

  /** What such a tick does, in its order. */
  lemma {:induction false} WantDid(cfg: Config, ws: seq<Input>, k: nat)
    returns (edge: seq<Event>, on: seq<Event>, paused: seq<Event>, lowered: seq<Event>)
    requires k < |ws| && Want(cfg, ws, k)
    ensures Did(cfg, ws, k) == edge + (on + paused + lowered)
    ensures edge == [] || edge == [ClaimOn] || edge == [ClaimOff]
    ensures var c, w, first := After(cfg, ws, k).core, ws[k], Begin(cfg, ws, k) == k;
            && on == (if first && !cfg.dryRun then [HoldOn] else [])
            && (Grips(cfg, ws, k) ==>
                  && paused == Pause(cfg, c.held, !first, w.pauseView, |cfg.pauseList|).1
                  && lowered == Duck(cfg, c.ducked, w.duckView, |cfg.duckList|).1)
            && (!Grips(cfg, ws, k) ==> paused == [] && lowered == [])
  {
    hide Pause, Duck, FlagNow, Debounced, CallNow;
    var s, w := After(cfg, ws, k), ws[k];
    var c := s.core;
    TicksCount(cfg, ws, k);
    FirstIsNew(cfg, ws, k);
    edge := ClaimEdge(cfg, c.prevFlag, FlagNow(cfg, s, w));
    on, paused, lowered := [], [], [];
    if !c.prevWant || c.i >= c.next {
      on := if !c.prevWant && !cfg.dryRun then [HoldOn] else [];
      paused := Pause(cfg, c.held, c.prevWant, w.pauseView, |cfg.pauseList|).1;
      lowered := Duck(cfg, c.ducked, w.duckView, |cfg.duckList|).1;
    }
    assert on + [] + [] == on && edge + [] == edge;
  }

  lemma {:induction false} FirstIsNew(cfg: Config, ws: seq<Input>, k: nat)
    requires k < |ws|
    ensures Begin(cfg, ws, k) == k <==> !After(cfg, ws, k).core.prevWant
  {
    hide Tick;
    if k > 0 && Want(cfg, ws, k - 1) {
      assert Begin(cfg, ws, k) == Begin(cfg, ws, k - 1) <= k - 1;
    }
  }

  /**
    At the first tick of an episode and at each of its polls every socket of the pause list that is
    there is paused; on the first tick whether it was already is read, if it can be, just before.
   */
  lemma {:induction false} AllPaused(cfg: Config, ws: seq<Input>, k: nat, j: nat)
    requires k < |ws| && Grips(cfg, ws, k) && !cfg.dryRun && j < |cfg.pauseList| && ws[k].pauseView(j).present
    ensures var sock, view := cfg.pauseList[j], ws[k].pauseView(j);
            DoneAfter(Did(cfg, ws, k), ReadFirst(sock, Begin(cfg, ws, k) != k, view),
                      SetPause(sock, true, view.pauseSet))
  {
    hide Pause, Duck, Did, DoneAfter, Begin, Due, After, Want, ReadFirst;
    var edge, on, paused, lowered := WantDid(cfg, ws, k);
    var c, w, quiet := After(cfg, ws, k).core, ws[k], Begin(cfg, ws, k) != k;
    var sock, view := cfg.pauseList[j], w.pauseView(j);
    PauseDoes(cfg, c.held, quiet, w.pauseView, |cfg.pauseList|, j);
    DoneAmong(edge, on, paused, lowered, ReadFirst(sock, quiet, view), SetPause(sock, true, view.pauseSet));
  }

  lemma {:induction false} DoneAmong(
      edge: seq<Event>, on: seq<Event>, b: seq<Event>, c: seq<Event>, before: Option<Event>, e: Event)
    requires DoneAfter(b, before, e)
    ensures DoneAfter(edge + (on + b + c), before, e)
  {
    hide DoneAfter;
    DoneWithin(edge + on, b, c, before, e);
    assert edge + (on + b + c) == edge + on + b + c;
  }

  /**
    And every socket of the duck list that is there is lowered, if its volume was read in this episode
    or can be now; one whose volume cannot be read is left alone, and tried again at the next poll.
   */
  lemma {:induction false} AllLowered(cfg: Config, ws: seq<Input>, k: nat, j: nat)
    requires k < |ws| && Grips(cfg, ws, k) && !cfg.dryRun && j < |cfg.duckList| && ws[k].duckView(j).present
    requires FirstVolume(Log(cfg, ws, k), cfg.duckList[j]).Read? || ws[k].duckView(j).volume.Number?
    ensures SetVolume(cfg.duckList[j], cfg.duckVolume, ws[k].duckView(j).volumeSet) in Did(cfg, ws, k)
  {
    hide Pause, Duck, Did, Begin, Due;
    var edge, on, paused, lowered := WantDid(cfg, ws, k);
    var c, w := After(cfg, ws, k).core, ws[k];
    RunKeeps(cfg, ws, k);
    RecordedIsSaved(c.ducked, cfg.duckList[j]);
    DuckDoes(cfg, c.ducked, w.duckView, |cfg.duckList|, j);
  }

  /** The event hold is begun on the first tick of an episode and on no other, before anything is read or set. */
  lemma {:induction false} HoldBegins(cfg: Config, ws: seq<Input>, k: nat)
    requires k < |ws|
    ensures HoldOn in Did(cfg, ws, k) <==> Want(cfg, ws, k) && Begin(cfg, ws, k) == k && !cfg.dryRun
    ensures HoldOn in Did(cfg, ws, k) ==>
              exists q :: 0 <= q < |Did(cfg, ws, k)| && Did(cfg, ws, k)[q] == HoldOn
                          && forall p :: 0 <= p < q ==> Did(cfg, ws, k)[p] == ClaimOn || Did(cfg, ws, k)[p] == ClaimOff
  {
    hide Pause, Duck, Did, Grips;
    if Want(cfg, ws, k) {
      var edge, on, paused, lowered := WantDid(cfg, ws, k);
      var c, w, first := After(cfg, ws, k).core, ws[k], Begin(cfg, ws, k) == k;
      if HoldOn in paused {
        PauseDid(cfg, c.held, !first, w.pauseView, |cfg.pauseList|, HoldOn);
        assert false;
      }
      if HoldOn in lowered {
        DuckDid(cfg, c.ducked, w.duckView, |cfg.duckList|, HoldOn);
        assert false;
      }
      if first && !cfg.dryRun {
        assert Did(cfg, ws, k)[|edge|] == HoldOn;
      }
    } else {
      NoHoldOn(cfg, ws, k);
    }
  }

  lemma {:induction false} NoHoldOn(cfg: Config, ws: seq<Input>, k: nat)
    requires k < |ws| && !Want(cfg, ws, k)
    ensures HoldOn !in Did(cfg, ws, k)
    ensures HoldOff in Did(cfg, ws, k) <==> k > 0 && Want(cfg, ws, k - 1)
  {
    if k > 0 && Want(cfg, ws, k - 1) {
      var edge := ReleaseDid(cfg, ws, k);
      var c, w := After(cfg, ws, k).core, ws[k];
      UnduckSets(cfg, c.ducked, w.restoreView, |c.ducked|, HoldOn);
      ResumeSets(cfg, c.held, w.pauseView, |cfg.pauseList|, HoldOn);
      assert Did(cfg, ws, k)[|edge|] == HoldOff;
    } else {
      IdleDid(cfg, ws, k);
    }
  }

  /** It ends with the episode, and not before. */
  lemma {:induction false} HoldEnds(cfg: Config, ws: seq<Input>, k: nat)
    requires k < |ws|
    ensures HoldOff in Did(cfg, ws, k) <==> !Want(cfg, ws, k) && k > 0 && Want(cfg, ws, k - 1)
  {
    if Want(cfg, ws, k) {
      if HoldOff in Did(cfg, ws, k) {
        HoldingDid(cfg, ws, k, HoldOff);
      }
    } else {
      NoHoldOn(cfg, ws, k);
    }
  }

  /** While the hold lasts nothing else is done: each event is the claim's, the hold's, or of a place in a list. */
  ghost predicate Listed(cfg: Config, ws: seq<Input>, k: nat, e: Event)
    requires k < |ws|
  {
    match e
    case SetPause(sock, on, ok) =>
      on && exists j: nat :: j < |cfg.pauseList| && cfg.pauseList[j] == sock && ws[k].pauseView(j).present
                             && ok == ws[k].pauseView(j).pauseSet
    case ReadPause(sock, paused) =>
      exists j: nat :: j < |cfg.pauseList| && cfg.pauseList[j] == sock && ws[k].pauseView(j).present
                       && ws[k].pauseView(j).paused == Some(paused)
    case SetVolume(sock, v, ok) =>
      v == cfg.duckVolume && exists j: nat :: j < |cfg.duckList| && cfg.duckList[j] == sock
                                              && ws[k].duckView(j).present && ok == ws[k].duckView(j).volumeSet
    case ReadVolume(sock, v) =>
      exists j: nat :: j < |cfg.duckList| && cfg.duckList[j] == sock && ws[k].duckView(j).present
                       && ws[k].duckView(j).volume == Number(v)
    case _ => true
  }

  lemma {:induction false} PausedIsListed(cfg: Config, ws: seq<Input>, k: nat, already: set<Sock>, quiet: bool,
                                          e: Event)
    requires k < |ws| && e in Pause(cfg, already, quiet, ws[k].pauseView, |cfg.pauseList|).1
    ensures Listed(cfg, ws, k, e) && !cfg.dryRun
  {
    PauseDid(cfg, already, quiet, ws[k].pauseView, |cfg.pauseList|, e);
  }

  lemma {:induction false} LoweredIsListed(cfg: Config, ws: seq<Input>, k: nat, saved: seq<Saved>, e: Event)
    requires k < |ws| && e in Duck(cfg, saved, ws[k].duckView, |cfg.duckList|).1
    ensures Listed(cfg, ws, k, e) && !cfg.dryRun
  {
    DuckDid(cfg, saved, ws[k].duckView, |cfg.duckList|, e);
  }

  lemma {:induction false} ClaimIsListed(cfg: Config, ws: seq<Input>, k: nat, e: Event)
    requires k < |ws| && e in {HoldOn, ClaimOn, ClaimOff}
    ensures Listed(cfg, ws, k, e) && !e.SetPause? && !e.ReadPause? && !e.SetVolume? && !e.ReadVolume?
  {
  }

  lemma {:induction false} NothingElse(cfg: Config, ws: seq<Input>, k: nat, e: Event)
    requires k < |ws| && Want(cfg, ws, k) && e in Did(cfg, ws, k)
    ensures Listed(cfg, ws, k, e)
    ensures e.SetPause? || e.ReadPause? || e.SetVolume? || e.ReadVolume? ==> Grips(cfg, ws, k) && !cfg.dryRun
  {
    hide Pause, Duck, Did, Grips, Listed, Want, Begin, After;
    var edge, on, paused, lowered := WantDid(cfg, ws, k);
    var c, w, first := After(cfg, ws, k).core, ws[k], Begin(cfg, ws, k) == k;
    if e in paused {
      PausedIsListed(cfg, ws, k, c.held, !first, e);
    } else if e in lowered {
      LoweredIsListed(cfg, ws, k, c.ducked, e);
    } else {
      assert e in edge || e in on;
      ClaimIsListed(cfg, ws, k, e);
    }
  }

  /** On the way out the event hold ends, and so does a claim that was made. */
  lemma {:induction false} LeavingDid(cfg: Config, ws: seq<Input>, view: Sock -> View)
    ensures var did := Leaving(cfg, After(cfg, ws, |ws|).core, view);
            && HoldOff in did && HoldOn !in did && ClaimOn !in did
            && (ClaimOff in did <==> cfg.claims && !cfg.dryRun && |ws| > 0 && FlagHeld(cfg, ws, |ws| - 1))
  {
    hide FlagHeld, After, Unduck;
    var c := After(cfg, ws, |ws|).core;
    FlagLast(cfg, ws);
    UnduckOnlySets(cfg, c, view);
    assert Leaving(cfg, c, view)[0] == HoldOff;
  }

  lemma {:induction false} UnduckOnlySets(cfg: Config, c: Core, view: Sock -> View)
    ensures forall e: Event :: e.ClaimOff? || e.ClaimOn? || e.HoldOn? ==> e !in Unduck(cfg, c.ducked, view, |c.ducked|)
  {
    hide Unduck;
    forall e: Event | e.ClaimOff? || e.ClaimOn? || e.HoldOn? ensures e !in Unduck(cfg, c.ducked, view, |c.ducked|) {
      UnduckSets(cfg, c.ducked, view, |c.ducked|, e);
    }
  }

  lemma {:induction false} FlagLast(cfg: Config, ws: seq<Input>)
    ensures After(cfg, ws, |ws|).core.prevFlag <==> |ws| > 0 && FlagHeld(cfg, ws, |ws| - 1)
  {
    hide FlagNow, FlagHeld, Episode, Debounced, CallNow;
    if |ws| > 0 {
      FlagMeaning(cfg, ws, |ws| - 1);
    }
  }
}
