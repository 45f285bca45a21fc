/**
  What the call guard's loop keeps over every run, and what it owes the listener at the end of an
  episode, said by the log of what it did.
 */
module Episodes {
  import opened CallGuard
  import opened Debounce

  ghost predicate Want(cfg: Config, ws: seq<Input>, k: nat)
    requires k < |ws|
  {
    var n := k + 1;
    After(cfg, ws, n).core.prevWant
  }

  /** The last answer of the notifications as of tick k. */
  ghost predicate Call(cfg: Config, ws: seq<Input>, k: nat)
    requires k < |ws|
  {
    var n := k + 1;
    After(cfg, ws, n).core.lastCall
  }

  /** The first tick of the unbroken stretch of wanting that k is in. */
  ghost function Begin(cfg: Config, ws: seq<Input>, k: nat): (b: nat)
    requires k < |ws|
    ensures b <= k
  {
    if k == 0 || !Want(cfg, ws, k - 1) then k else Begin(cfg, ws, k - 1)
  }

  lemma {:induction false} BeginMeans(cfg: Config, ws: seq<Input>, k: nat)
    requires k < |ws|
    ensures var b := Begin(cfg, ws, k);
            (forall j: nat :: b <= j < k ==> Want(cfg, ws, j)) && (b > 0 ==> !Want(cfg, ws, b - 1))
  {
    hide Want;
    if k > 0 && Want(cfg, ws, k - 1) {
      BeginMeans(cfg, ws, k - 1);
    }
  }

  /** Everything done since the episode that is on after n ticks began. */
  ghost function Log(cfg: Config, ws: seq<Input>, n: nat): seq<Event>
    requires n <= |ws|
  {
    if n == 0 || !Want(cfg, ws, n - 1) then [] else Log(cfg, ws, n - 1) + Did(cfg, ws, n - 1)
  }

  // ---------------------------------------------------------------- the first thing done to a volume

  datatype First = Untouched | Read(v: real) | Written

  function FirstVolume(log: seq<Event>, sock: Sock): First {
    if log == [] then Untouched
    else
      var before := FirstVolume(log[..|log| - 1], sock);
      if before != Untouched then before
      else
        match log[|log| - 1]
        case ReadVolume(s, v) => if s == sock then Read(v) else Untouched
        case SetVolume(s, _, _) => if s == sock then Written else Untouched
        case _ => Untouched
  }

  lemma {:induction false} FirstAppend(a: seq<Event>, b: seq<Event>, sock: Sock)
    ensures FirstVolume(a + b, sock)
            == if FirstVolume(a, sock) != Untouched then FirstVolume(a, sock) else FirstVolume(b, sock)
  {
    if b == [] {
      assert a + b == a;
    } else {
      var k := |b| - 1;
      FirstAppend(a, b[..k], sock);
      assert (a + b)[..|a + b| - 1] == a + b[..k];
    }
  }

  lemma {:induction false} FirstOfOne(e: Event, sock: Sock)
    ensures FirstVolume([e], sock) == match e
              case ReadVolume(s, v) => if s == sock then Read(v) else Untouched
              case SetVolume(s, _, _) => if s == sock then Written else Untouched
              case _ => Untouched
  {
    assert [e][..0] == [];
  }

  /** No volume is read or written. */
  ghost predicate NoVolumes(did: seq<Event>) {
    forall e :: e in did ==> !e.ReadVolume? && !e.SetVolume?
  }

  lemma {:induction false} NoVolumesFirst(did: seq<Event>, sock: Sock)
    requires NoVolumes(did)
    ensures FirstVolume(did, sock) == Untouched
  {
    if did != [] {
      assert forall e :: e in did[..|did| - 1] ==> e in did;
      NoVolumesFirst(did[..|did| - 1], sock);
      assert did[|did| - 1] in did;
    }
  }

  /** What the record says of a socket. */
  function Recorded(saved: seq<Saved>, sock: Sock): First {
    if saved == [] then Untouched
    else if saved[|saved| - 1].sock == sock then Read(saved[|saved| - 1].v)
    else Recorded(saved[..|saved| - 1], sock)
  }

  lemma {:induction false} RecordedIsSaved(saved: seq<Saved>, sock: Sock)
    ensures Recorded(saved, sock) == Untouched <==> !IsSaved(saved, sock)
    ensures Recorded(saved, sock) != Written
    ensures Recorded(saved, sock).Read? ==> Saved(sock, Recorded(saved, sock).v) in saved
  {
    if saved != [] {
      RecordedIsSaved(saved[..|saved| - 1], sock);
      assert saved == saved[..|saved| - 1] + [saved[|saved| - 1]];
    }
  }

  ghost predicate Distinct(saved: seq<Saved>) {
    forall i, j :: 0 <= i < j < |saved| ==> saved[i].sock != saved[j].sock
  }

  lemma {:induction false} RecordedOf(saved: seq<Saved>, s: Saved)
    requires Distinct(saved) && s in saved
    ensures Recorded(saved, s.sock) == Read(s.v)
  {
    var k := |saved| - 1;
    if saved[k] != s {
      assert s in saved[..k];
      RecordedOf(saved[..k], s);
    }
  }

  /** The record is exactly the first reads of the log. */
  ghost predicate Tracks(saved: seq<Saved>, log: seq<Event>) {
    Distinct(saved) && forall sock :: FirstVolume(log, sock) == Recorded(saved, sock)
  }

  lemma {:induction false} DuckOneTracks(cfg: Config, saved: seq<Saved>, log: seq<Event>, sock: Sock, view: View)
    requires Tracks(saved, log)
    ensures var (after, did) := DuckOne(cfg, saved, sock, view); Tracks(after, log + did)
  {
    var (after, did) := DuckOne(cfg, saved, sock, view);
    RecordedIsSaved(saved, sock);
    forall x ensures FirstVolume(log + did, x) == Recorded(after, x) {
      FirstAppend(log, did, x);
      if |after| > |saved| {
        assert after[..|after| - 1] == saved;
        assert did == [did[0]] + [did[1]];
        FirstAppend([did[0]], [did[1]], x);
        FirstOfOne(did[0], x);
        FirstOfOne(did[1], x);
      } else if did != [] {
        assert did == [did[0]];
        FirstOfOne(did[0], x);
      }
    }
  }

  lemma {:induction false} DuckTracks(cfg: Config, saved: seq<Saved>, log: seq<Event>, view: nat -> View, n: nat)
    requires Tracks(saved, log) && n <= |cfg.duckList|
    ensures var (after, did) := Duck(cfg, saved, view, n); Tracks(after, log + did)
  {
    if n == 0 {
      assert log + [] == log;
    } else {
      DuckTracks(cfg, saved, log, view, n - 1);
      var (before, did) := Duck(cfg, saved, view, n - 1);
      DuckOneTracks(cfg, before, log + did, cfg.duckList[n - 1], view(n - 1));
      var (after, more) := DuckOne(cfg, before, cfg.duckList[n - 1], view(n - 1));
      assert log + (did + more) == (log + did) + more;
    }
  }

  /** While the hold lasts a volume is only ever set to the ducked one. */
  lemma {:induction false} DuckLowers(cfg: Config, saved: seq<Saved>, view: nat -> View, n: nat)
    requires n <= |cfg.duckList|
    ensures forall e :: e in Duck(cfg, saved, view, n).1 ==>
              (e.SetVolume? && e.v == cfg.duckVolume && !cfg.dryRun) || (e.ReadVolume? && !cfg.dryRun)
  {
    if n > 0 {
      DuckLowers(cfg, saved, view, n - 1);
    }
  }

  // ---------------------------------------------------------------- what was read as paused

  /** The record of paused sockets grows by exactly what was read. */
  lemma {:induction false} PauseReads(cfg: Config, already: set<Sock>, quiet: bool, view: nat -> View, n: nat)
    requires n <= |cfg.pauseList|
    ensures var (after, did) := Pause(cfg, already, quiet, view, n);
            && (forall s :: s in after <==> s in already || ReadPause(s, true) in did)
            && (forall e :: e in did ==> !cfg.dryRun && ((e.ReadPause? && !quiet) || (e.SetPause? && e.on)))
  {
    if n > 0 {
      PauseReads(cfg, already, quiet, view, n - 1);
    }
  }

  lemma {:induction false} GripReads(cfg: Config, first: bool, due: bool, held: set<Sock>, ducked: seq<Saved>, w: Input)
    ensures var (held', _, did) := Grip(cfg, first, due, held, ducked, w);
            && (forall s :: s in held' <==> s in held || ReadPause(s, true) in did)
            && (forall e :: e in did ==> !cfg.dryRun && match e
                  case ReadPause(_, _) => first
                  case SetPause(_, on, _) => on
                  case SetVolume(_, v, _) => v == cfg.duckVolume
                  case ReadVolume(_, _) => true
                  case HoldOn => first
                  case _ => false)
  {
    PauseReads(cfg, held, !first, w.pauseView, |cfg.pauseList|);
    DuckLowers(cfg, ducked, w.duckView, |cfg.duckList|);
    if first || due {
      var (held', paused) := Pause(cfg, held, !first, w.pauseView, |cfg.pauseList|);
      var (_, lowered) := Duck(cfg, ducked, w.duckView, |cfg.duckList|);
      var on := if first && !cfg.dryRun then [HoldOn] else [];
      assert forall s :: ReadPause(s, true) in on + paused + lowered <==> ReadPause(s, true) in paused;
    }
  }

  lemma {:induction false} GripTracks(cfg: Config, first: bool, due: bool, held: set<Sock>, ducked: seq<Saved>,
                                      w: Input, log: seq<Event>)
    requires Tracks(ducked, log)
    ensures var (_, ducked', did) := Grip(cfg, first, due, held, ducked, w); Tracks(ducked', log + did)
  {
    hide Pause, Duck, Tracks, NoVolumes;
    assert log + [] == log;
    if first || due {
      var (_, paused) := Pause(cfg, held, !first, w.pauseView, |cfg.pauseList|);
      var (_, lowered) := Duck(cfg, ducked, w.duckView, |cfg.duckList|);
      var on := if first && !cfg.dryRun then [HoldOn] else [];
      PauseIsQuiet(cfg, held, !first, w.pauseView, on);
      QuietKeepsTracks(ducked, log, on + paused);
      DuckTracks(cfg, ducked, log + (on + paused), w.duckView, |cfg.duckList|);
      assert log + (on + paused + lowered) == log + (on + paused) + lowered;
    }
  }

  lemma {:induction false} PauseIsQuiet(
      cfg: Config, held: set<Sock>, quiet: bool, view: nat -> View, on: seq<Event>)
    requires on == [HoldOn] || on == []
    ensures NoVolumes(on + Pause(cfg, held, quiet, view, |cfg.pauseList|).1)
  {
    hide Pause;
    PauseReads(cfg, held, quiet, view, |cfg.pauseList|);
  }

  lemma {:induction false} QuietKeepsTracks(saved: seq<Saved>, log: seq<Event>, did: seq<Event>)
    requires Tracks(saved, log) && NoVolumes(did)
    ensures Tracks(saved, log + did)
  {
    forall sock ensures FirstVolume(log + did, sock) == Recorded(saved, sock) {
      FirstAppend(log, did, sock);
      NoVolumesFirst(did, sock);
    }
  }

  // ---------------------------------------------------------------- what every tick keeps

  ghost predicate Kept(c: Core, log: seq<Event>) {
    && (!c.prevWant ==> c.ducked == [] && c.held == {} && !c.callInEpisode && log == [])
    && (forall s :: s in c.held <==> ReadPause(s, true) in log)
    && Tracks(c.ducked, log)
  }

  lemma {:induction false} ActKeeps(cfg: Config, c: Core, flag: bool, w: Input, log: seq<Event>)
    requires Kept(c, log)
    ensures var (after, did) := Acted(cfg, c, flag, w); Kept(after, if after.prevWant then log + did else [])
  {
    hide Tracks, Grip, LetGo, CallNow;
    var (after, did) := Acted(cfg, c, flag, w);
    if after.prevWant {
      var edge := ClaimEdge(cfg, c.prevFlag, flag);
      var (held, ducked, gripped) := Grip(cfg, !c.prevWant, c.i >= c.next, c.held, c.ducked, w);
      GripReads(cfg, !c.prevWant, c.i >= c.next, c.held, c.ducked, w);
      QuietKeepsTracks(c.ducked, log, edge);
      GripTracks(cfg, !c.prevWant, c.i >= c.next, c.held, c.ducked, w, log + edge);
      assert log + did == log + edge + gripped;
      forall s ensures s in after.held <==> ReadPause(s, true) in log + did {
        assert ReadPause(s, true) !in edge;
      }
    } else {
      NothingTracks();
    }
  }

  lemma {:induction false} NothingTracks()
    ensures Tracks([], [])
  {
  }

  lemma {:induction false} RunKeeps(cfg: Config, ws: seq<Input>, n: nat)
    requires n <= |ws|
    ensures Kept(After(cfg, ws, n).core, Log(cfg, ws, n))
  {
    hide Kept;
    if n == 0 {
      NothingKept();
    } else {
      RunKeeps(cfg, ws, n - 1);
      var s := After(cfg, ws, n - 1);
      ActKeeps(cfg, s.core, FlagNow(cfg, s, ws[n - 1]), ws[n - 1], Log(cfg, ws, n - 1));
    }
  }

  lemma {:induction false} NothingKept()
    ensures Kept(START.core, [])
  {
  }

  /** Between episodes nothing is remembered of any. */
  lemma {:induction false} OutsideEpisodes(cfg: Config, ws: seq<Input>, n: nat)
    requires n <= |ws| && (n > 0 ==> !Want(cfg, ws, n - 1))
    ensures var c := After(cfg, ws, n).core; c.ducked == [] && c.held == {} && !c.callInEpisode
  {
    RunKeeps(cfg, ws, n);
  }

  // ---------------------------------------------------------------- the volumes

  lemma {:induction false} UnduckSets(cfg: Config, saved: seq<Saved>, view: Sock -> View, n: nat, e: Event)
    requires n <= |saved|
    ensures e in Unduck(cfg, saved, view, n) <==>
            !cfg.dryRun && exists j :: 0 <= j < n && view(saved[j].sock).present
                                       && e == SetVolume(saved[j].sock, saved[j].v, view(saved[j].sock).volumeSet)
  {
    if n > 0 {
      UnduckSets(cfg, saved, view, n - 1, e);
    }
  }

  lemma {:induction false} TouchedIsRead(log: seq<Event>, sock: Sock, v: real, ok: bool)
    requires SetVolume(sock, v, ok) in log
    ensures FirstVolume(log, sock) != Untouched
  {
    var k := |log| - 1;
    if log[k] != SetVolume(sock, v, ok) {
      assert SetVolume(sock, v, ok) in log[..k];
      TouchedIsRead(log[..k], sock, v, ok);
    }
  }

  /** What un-ducking owes, by the log alone. */
  ghost predicate Restores(cfg: Config, log: seq<Event>, did: seq<Event>, sock: Sock, view: Sock -> View) {
    && FirstVolume(log, sock) != Written
    && (forall v, ok :: SetVolume(sock, v, ok) in log ==> FirstVolume(log, sock).Read?)
    && (forall v, ok :: SetVolume(sock, v, ok) in did
                        <==> FirstVolume(log, sock) == Read(v) && !cfg.dryRun
                             && view(sock).present && ok == view(sock).volumeSet)
  }

  lemma {:induction false} UnduckRestores(cfg: Config, saved: seq<Saved>, log: seq<Event>, view: Sock -> View,
                                          sock: Sock)
    requires Tracks(saved, log)
    ensures Restores(cfg, log, Unduck(cfg, saved, view, |saved|), sock, view)
  {
    var did, first := Unduck(cfg, saved, view, |saved|), FirstVolume(log, sock);
    RecordedIsSaved(saved, sock);
    forall v, ok | SetVolume(sock, v, ok) in log ensures first.Read? {
      TouchedIsRead(log, sock, v, ok);
    }
    forall v, ok
      ensures SetVolume(sock, v, ok) in did
              <==> first == Read(v) && !cfg.dryRun && view(sock).present && ok == view(sock).volumeSet
    {
      UnduckSets(cfg, saved, view, |saved|, SetVolume(sock, v, ok));
      if SetVolume(sock, v, ok) in did {
        assert Saved(sock, v) in saved;
        RecordedOf(saved, Saved(sock, v));
      }
    }
  }

  lemma {:induction false} ResumeSets(cfg: Config, already: set<Sock>, view: nat -> View, n: nat, e: Event)
    requires n <= |cfg.pauseList|
    ensures e in Resume(cfg, already, view, n) <==>
            !cfg.dryRun && exists j: nat :: j < n && view(j).present && cfg.pauseList[j] !in already
                                            && e == SetPause(cfg.pauseList[j], false, view(j).pauseSet)
  {
    if n > 0 {
      ResumeSets(cfg, already, view, n - 1, e);
    }
  }

  /** What a tick that ends an episode does, in order. */
  lemma {:induction false} ReleaseDid(cfg: Config, ws: seq<Input>, k: nat) returns (edge: seq<Event>)
    requires 0 < k < |ws| && Want(cfg, ws, k - 1) && !Want(cfg, ws, k)
    ensures edge == [] || edge == [ClaimOn] || edge == [ClaimOff]
    ensures var c, w := After(cfg, ws, k).core, ws[k];
            Did(cfg, ws, k) == edge + ([HoldOff] + Unduck(cfg, c.ducked, w.restoreView, |c.ducked|)
              + if c.callInEpisode then [] else Resume(cfg, c.held, w.pauseView, |cfg.pauseList|))
  {
    var s := After(cfg, ws, k);
    assert s.core.prevWant;
    edge := ClaimEdge(cfg, s.core.prevFlag, FlagNow(cfg, s, ws[k]));
  }

  /** Between episodes nothing is done. */
  lemma {:induction false} IdleDid(cfg: Config, ws: seq<Input>, k: nat)
    requires k < |ws| && !Want(cfg, ws, k) && (k > 0 ==> !Want(cfg, ws, k - 1))
    ensures Did(cfg, ws, k) == []
  {
    if After(cfg, ws, k).core.prevFlag {
      FlagIsWanted(cfg, ws, k);
    }
  }

  lemma {:induction false} FlagIsWanted(cfg: Config, ws: seq<Input>, n: nat)
    requires n <= |ws| && After(cfg, ws, n).core.prevFlag
    ensures After(cfg, ws, n).core.prevWant
  {
  }

  /**
    Of every socket whose volume an episode touched, the first thing the guard did to it was to read
    it; when the episode ends it is that reading that is put back, if the socket is there and takes
    it, and nothing else is set.
   */
  lemma {:induction false} VolumesRestored(cfg: Config, ws: seq<Input>, k: nat, sock: Sock)
    requires 0 < k < |ws| && Want(cfg, ws, k - 1) && !Want(cfg, ws, k)
    ensures Restores(cfg, Log(cfg, ws, k), Did(cfg, ws, k), sock, ws[k].restoreView)
  {
    var c, w := After(cfg, ws, k).core, ws[k];
    RunKeeps(cfg, ws, k);
    var edge := ReleaseDid(cfg, ws, k);
    UnduckRestores(cfg, c.ducked, Log(cfg, ws, k), w.restoreView, sock);
    var raised := Unduck(cfg, c.ducked, w.restoreView, |c.ducked|);
    forall e: Event | e.SetVolume? ensures e in Did(cfg, ws, k) <==> e in raised {
      ResumeSets(cfg, c.held, w.pauseView, |cfg.pauseList|, e);
    }
  }

  /** So on the way out, whenever that is. */
  lemma {:induction false} VolumesRestoredLeaving(cfg: Config, ws: seq<Input>, sock: Sock, view: Sock -> View)
    ensures Restores(cfg, Log(cfg, ws, |ws|), Leaving(cfg, After(cfg, ws, |ws|).core, view), sock, view)
  {
    var c := After(cfg, ws, |ws|).core;
    RunKeeps(cfg, ws, |ws|);
    UnduckRestores(cfg, c.ducked, Log(cfg, ws, |ws|), view, sock);
    var raised := Unduck(cfg, c.ducked, view, |c.ducked|);
    forall e: Event | e.SetVolume? ensures e in Leaving(cfg, c, view) <==> e in raised {
    }
  }

  /** A tick inside an episode lowers, pauses and reads, and never the other way. */
  lemma {:induction false} HoldingDid(cfg: Config, ws: seq<Input>, k: nat, e: Event)
    requires k < |ws| && Want(cfg, ws, k) && e in Did(cfg, ws, k)
    ensures e.SetVolume? ==> e.v == cfg.duckVolume && !cfg.dryRun
    ensures e.SetPause? ==> e.on && !cfg.dryRun
    ensures e.ReadPause? ==> Begin(cfg, ws, k) == k
    ensures e != HoldOff
  {
    var c := After(cfg, ws, k).core;
    GripReads(cfg, !c.prevWant, c.i >= c.next, c.held, c.ducked, ws[k]);
  }

  // ---------------------------------------------------------------- the pauses

  lemma {:induction false} LogReads(cfg: Config, ws: seq<Input>, n: nat, e: Event)
    requires 0 < n <= |ws| && Want(cfg, ws, n - 1) && e.ReadPause?
    ensures e in Log(cfg, ws, n) <==> e in Did(cfg, ws, Begin(cfg, ws, n - 1))
  {
    if n > 1 && Want(cfg, ws, n - 2) {
      LogReads(cfg, ws, n - 1, e);
      if e in Did(cfg, ws, n - 1) {
        HoldingDid(cfg, ws, n - 1, e);
      }
    } else {
      assert Log(cfg, ws, n - 1) == [];
    }
  }

  /** Some tick of the episode that is on after n ticks saw a call. */
  ghost predicate Called(cfg: Config, ws: seq<Input>, n: nat)
    requires 0 < n <= |ws|
  {
    exists j: nat :: Begin(cfg, ws, n - 1) <= j < n && Call(cfg, ws, j)
  }

  lemma {:induction false} CallRemembered(cfg: Config, ws: seq<Input>, n: nat)
    requires 0 < n <= |ws| && Want(cfg, ws, n - 1)
    ensures After(cfg, ws, n).core.callInEpisode <==> Called(cfg, ws, n)
  {
    hide Grip, LetGo, Debounced, FlagNow, ClaimEdge, CallNow;
    var c, a := After(cfg, ws, n - 1).core, After(cfg, ws, n).core;
    assert a.callInEpisode == (c.callInEpisode || Call(cfg, ws, n - 1));
    if n > 1 && Want(cfg, ws, n - 2) {
      CallRemembered(cfg, ws, n - 1);
    } else {
      RunKeeps(cfg, ws, n - 1);
    }
  }

  /** When the guard un-pauses a socket. */
  ghost predicate MayResume(cfg: Config, ws: seq<Input>, k: nat, sock: Sock)
    requires k < |ws|
  {
    && k > 0 && Want(cfg, ws, k - 1) && !Want(cfg, ws, k)
    && !Called(cfg, ws, k)
    && ReadPause(sock, true) !in Did(cfg, ws, Begin(cfg, ws, k - 1))
  }

  /**
    The guard un-pauses only at the end of an episode in which no tick saw a call, only sockets it
    did not read as paused when the episode began, and only after letting the event hold go.
   */
  lemma {:induction false} UnpauseMeaning(cfg: Config, ws: seq<Input>, k: nat, p: nat, sock: Sock, ok: bool)
    requires k < |ws| && p < |Did(cfg, ws, k)| && Did(cfg, ws, k)[p] == SetPause(sock, false, ok)
    ensures MayResume(cfg, ws, k, sock)
    ensures exists q :: 0 <= q < p && Did(cfg, ws, k)[q] == HoldOff
  {
    var e := SetPause(sock, false, ok);
    assert e in Did(cfg, ws, k);
    if Want(cfg, ws, k) {
      HoldingDid(cfg, ws, k, e);
    } else if k == 0 || !Want(cfg, ws, k - 1) {
      IdleDid(cfg, ws, k);
    }
    var c, w := After(cfg, ws, k).core, ws[k];
    RunKeeps(cfg, ws, k);
    var edge := ReleaseDid(cfg, ws, k);
    CallRemembered(cfg, ws, k);
    UnduckSets(cfg, c.ducked, w.restoreView, |c.ducked|, e);
    ResumeSets(cfg, c.held, w.pauseView, |cfg.pauseList|, e);
    LogReads(cfg, ws, k, ReadPause(sock, true));
    assert Did(cfg, ws, k)[|edge|] == HoldOff;
  }

  /** And then it does un-pause every such socket that is there. */
  lemma {:induction false} Resumed(cfg: Config, ws: seq<Input>, k: nat, j: nat)
    requires k < |ws| && j < |cfg.pauseList| && MayResume(cfg, ws, k, cfg.pauseList[j])
    requires ws[k].pauseView(j).present && !cfg.dryRun
    ensures SetPause(cfg.pauseList[j], false, ws[k].pauseView(j).pauseSet) in Did(cfg, ws, k)
  {
    var c, w := After(cfg, ws, k).core, ws[k];
    RunKeeps(cfg, ws, k);
    var edge := ReleaseDid(cfg, ws, k);
    CallRemembered(cfg, ws, k);
    LogReads(cfg, ws, k, ReadPause(cfg.pauseList[j], true));
    ResumeSets(cfg, c.held, w.pauseView, |cfg.pauseList|, SetPause(cfg.pauseList[j], false, w.pauseView(j).pauseSet));
  }

  /** A dry run reads, writes and claims nothing. */
  lemma {:induction false} DryRunTouchesNothing(cfg: Config, ws: seq<Input>, k: nat, e: Event)
    requires cfg.dryRun && k < |ws| && e in Did(cfg, ws, k)
    ensures e == HoldOff
  {
    var c, w := After(cfg, ws, k).core, ws[k];
    if Want(cfg, ws, k) {
      GripReads(cfg, !c.prevWant, c.i >= c.next, c.held, c.ducked, w);
    } else if c.prevWant {
      UnduckSets(cfg, c.ducked, w.restoreView, |c.ducked|, e);
      ResumeSets(cfg, c.held, w.pauseView, |cfg.pauseList|, e);
    }
  }

  // ---------------------------------------------------------------- what is wanted

  function FlagTrace(ws: seq<Input>): (r: seq<Sample>)
    ensures |r| == |ws|
  {
    seq(|ws|, k requires 0 <= k < |ws| => Sample(ws[k].flag, ws[k].now))
  }

  function MicTrace(ws: seq<Input>): (r: seq<Sample>)
    ensures |r| == |ws|
  {
    seq(|ws|, k requires 0 <= k < |ws| => Sample(ws[k].mic, ws[k].now))
  }

  lemma {:induction false} Debounces(cfg: Config, ws: seq<Input>, n: nat)
    requires n <= |ws|
    ensures After(cfg, ws, n).flagHold == HoldAfter(cfg.engageS, cfg.releaseS, FlagTrace(ws), n)
    ensures After(cfg, ws, n).sustained == MicAfter(cfg.micMaxS, MicTrace(ws), n)
    ensures After(cfg, ws, n).micHold
            == HoldAfter(cfg.micEngageS, cfg.releaseS, BargeTrace(cfg.micMaxS, MicTrace(ws)), n)
  {
    hide HoldUpdate, MicUpdate, Acted, FlagNow;
    if n > 0 {
      Debounces(cfg, ws, n - 1);
      var s, w := After(cfg, ws, n - 1), ws[n - 1];
      var (flagHold, micHold, mic) := Debounced(cfg, s, w);
      assert MicTrace(ws)[n - 1] == Sample(w.mic, w.now) && FlagTrace(ws)[n - 1] == Sample(w.flag, w.now);
      assert BargeTrace(cfg.micMaxS, MicTrace(ws))[n - 1]
             == Sample(MicUpdate(cfg.micMaxS, s.sustained, w.mic, w.now).1, w.now);
    }
  }

  /** The flag or the mic is held, each debounced from every tick of the run. */
  ghost predicate FlagHeld(cfg: Config, ws: seq<Input>, k: nat)
    requires k < |ws|
  {
    || Held(cfg.engageS, cfg.releaseS, FlagTrace(ws), k)
    || Held(cfg.micEngageS, cfg.releaseS, BargeTrace(cfg.micMaxS, MicTrace(ws)), k)
  }

  lemma {:induction false} FlagMeaning(cfg: Config, ws: seq<Input>, k: nat)
    requires k < |ws|
    ensures FlagNow(cfg, After(cfg, ws, k), ws[k]) == FlagHeld(cfg, ws, k)
  {
    hide HoldUpdate, MicUpdate;
    Debounces(cfg, ws, k);
  }

  /** A tick wants the hold for a call, a flag or a barge-in, and for nothing else. */
  lemma {:induction false} WantMeaning(cfg: Config, ws: seq<Input>, k: nat)
    requires k < |ws|
    ensures Want(cfg, ws, k) <==> Call(cfg, ws, k) || FlagHeld(cfg, ws, k)
  {
    hide FlagNow, FlagHeld;
    FlagMeaning(cfg, ws, k);
  }

  /** A recording that never stops ends the hold it began, unless a call or the flag wants it too. */
  lemma {:induction false} WedgedMicLetsGo(cfg: Config, ws: seq<Input>, w: nat, k: nat)
    requires w <= k < |ws| && cfg.micMaxS > 0.0 && Forward(MicTrace(ws))
    requires MicTrace(ws)[k].on && RunStart(MicTrace(ws), k) <= w && InRun(MicTrace(ws), w) >= cfg.micMaxS
    requires ws[k].now - ws[w].now >= cfg.releaseS
    requires !Call(cfg, ws, k) && !Held(cfg.engageS, cfg.releaseS, FlagTrace(ws), k)
    ensures !Want(cfg, ws, k)
  {
    MicHoldEnds(cfg.micMaxS, cfg.micEngageS, cfg.releaseS, MicTrace(ws), w, k);
    WantMeaning(cfg, ws, k);
  }

  /** The input claim follows the flag and the mic, and never a call. */
  lemma {:induction false} ClaimFollowsFlag(cfg: Config, ws: seq<Input>, k: nat)
    requires k < |ws|
    ensures ClaimOn in Did(cfg, ws, k) <==>
            cfg.claims && !cfg.dryRun && FlagHeld(cfg, ws, k) && !(k > 0 && FlagHeld(cfg, ws, k - 1))
    ensures ClaimOff in Did(cfg, ws, k) <==>
            cfg.claims && !cfg.dryRun && !FlagHeld(cfg, ws, k) && k > 0 && FlagHeld(cfg, ws, k - 1)
  {
    hide FlagNow, FlagHeld, Episode, Debounced, CallNow;
    var s, w := After(cfg, ws, k), ws[k];
    FlagMeaning(cfg, ws, k);
    PrevFlag(cfg, ws, k);
    var call := CallNow(s.core, w);
    EpisodeClaims(cfg, s.core, call, call || FlagNow(cfg, s, w), w);
  }

  lemma {:induction false} PrevFlag(cfg: Config, ws: seq<Input>, k: nat)
    requires k < |ws|
    ensures After(cfg, ws, k).core.prevFlag <==> k > 0 && FlagHeld(cfg, ws, k - 1)
  {
    hide FlagNow, FlagHeld, Episode, Debounced, CallNow;
    if k > 0 {
      FlagMeaning(cfg, ws, k - 1);
    }
  }

  /** What an episode does is never a claim. */
  lemma {:induction false} EpisodeClaims(cfg: Config, s: Core, call: bool, want: bool, w: Input)
    ensures ClaimOn !in Episode(cfg, s, call, want, w).3 && ClaimOff !in Episode(cfg, s, call, want, w).3
  {
    hide Grip;
    GripReads(cfg, !s.prevWant, s.i >= s.next, s.held, s.ducked, w);
    forall e: Event | e.ClaimOn? || e.ClaimOff? ensures e !in LetGo(cfg, s.callInEpisode, s.held, s.ducked, w) {
      UnduckSets(cfg, s.ducked, w.restoreView, |s.ducked|, e);
      ResumeSets(cfg, s.held, w.pauseView, |cfg.pauseList|, e);
    }
  }

  // ---------------------------------------------------------------- when the notifications are asked

  ghost predicate Due(cfg: Config, ws: seq<Input>, k: nat)
    requires k < |ws|
  {
    After(cfg, ws, k).core.next <= k
  }

  ghost function Gap(cfg: Config, ws: seq<Input>, k: nat): nat
    requires k < |ws|
  {
    if Want(cfg, ws, k) || ws[k].audible then cfg.notifEvery else cfg.idleEvery
  }

  lemma {:induction false} TicksCount(cfg: Config, ws: seq<Input>, n: nat)
    requires n <= |ws|
    ensures After(cfg, ws, n).core.i == n
  {
    hide Episode, Debounced, CallNow, FlagNow, ClaimEdge;
    if n > 0 {
      TicksCount(cfg, ws, n - 1);
    }
  }

  lemma {:induction false} NextStays(cfg: Config, ws: seq<Input>, k: nat, n: nat)
    requires k < n <= |ws| && n <= k + Gap(cfg, ws, k) && Due(cfg, ws, k)
    ensures After(cfg, ws, n).core.next == k + Gap(cfg, ws, k)
    ensures After(cfg, ws, n).core.lastCall == Call(cfg, ws, k)
  {
    hide Episode;
    TicksCount(cfg, ws, n - 1);
    if n - 1 > k {
      NextStays(cfg, ws, k, n - 1);
    }
  }

  /**
    After a poll the next comes exactly `notifEvery` ticks later when something is held or audible
    and `idleEvery` later when not; in between the answer stands.
   */
  lemma {:induction false} PollCadence(cfg: Config, ws: seq<Input>, k: nat, j: nat)
    requires k < j < |ws| && Due(cfg, ws, k) && j <= k + Gap(cfg, ws, k)
    ensures Due(cfg, ws, j) <==> j == k + Gap(cfg, ws, k)
    ensures j < k + Gap(cfg, ws, k) ==> Call(cfg, ws, j) == Call(cfg, ws, k)
  {
    hide After, Gap;
    NextStays(cfg, ws, k, j);
    var n := j + 1;
    if j < k + Gap(cfg, ws, k) {
      NextStays(cfg, ws, k, n);
    }
  }

  /** A poll that fails leaves the last answer; one that answers is believed. */
  lemma {:induction false} PollAnswers(cfg: Config, ws: seq<Input>, k: nat)
    requires k < |ws| && Due(cfg, ws, k)
    ensures Call(cfg, ws, k) == if ws[k].notifs.Some? then ws[k].notifs.value else k > 0 && Call(cfg, ws, k - 1)
  {
    hide Episode;
    TicksCount(cfg, ws, k);
  }
}
