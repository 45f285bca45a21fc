/**
  What the guard's episodes leave of a socket's volume, when nobody else changes it: each read gives
  the volume as it is, each write that succeeds sets it. An episode whose restore is refused, or whose
  socket is gone by then, leaves the lowered volume, which every later episode takes for the original.
 */
module Volumes {
  import opened Wrappers
  import opened CallGuard
  import opened Episodes

  /** The volume after these events. */
  function Heard(v: real, did: seq<Event>, sock: Sock): real {
    if did == [] then v
    else
      var e := did[|did| - 1];
      if e.SetVolume? && e.sock == sock && e.ok then e.v else Heard(v, did[..|did| - 1], sock)
  }

  /** Every reading of the volume is what it was then. */
  ghost predicate Honest(v: real, did: seq<Event>, sock: Sock) {
    did == []
    || (var before, e := did[..|did| - 1], did[|did| - 1];
        Honest(v, before, sock) && (e.ReadVolume? && e.sock == sock ==> e.v == Heard(v, before, sock)))
  }

  /** Everything done in the first n ticks. */
  ghost function AllDid(cfg: Config, ws: seq<Input>, n: nat): seq<Event>
    requires n <= |ws|
  {
    if n == 0 then [] else AllDid(cfg, ws, n - 1) + Did(cfg, ws, n - 1)
  }

  ghost function Volume(cfg: Config, ws: seq<Input>, n: nat, v: real, sock: Sock): real
    requires n <= |ws|
  {
    Heard(v, AllDid(cfg, ws, n), sock)
  }

  lemma {:induction false} HeardAppend(v: real, a: seq<Event>, b: seq<Event>, sock: Sock)
    ensures Heard(v, a + b, sock) == Heard(Heard(v, a, sock), b, sock)
  {
    if b == [] {
      assert a + b == a;
    } else {
      var k := |b| - 1;
      HeardAppend(v, a, b[..k], sock);
      assert (a + b)[..|a + b| - 1] == a + b[..k];
    }
  }

  lemma {:induction false} HonestAppend(v: real, a: seq<Event>, b: seq<Event>, sock: Sock)
    ensures Honest(v, a + b, sock) <==> Honest(v, a, sock) && Honest(Heard(v, a, sock), b, sock)
  {
    if b == [] {
      assert a + b == a;
    } else {
      var k := |b| - 1;
      HonestAppend(v, a, b[..k], sock);
      HeardAppend(v, a, b[..k], sock);
      assert (a + b)[..|a + b| - 1] == a + b[..k];
    }
  }

  /** Every write that succeeds writes x, so the volume is x from the first one on. */
  lemma {:induction false} HeardSet(v: real, did: seq<Event>, sock: Sock, x: real)
    requires forall y :: SetVolume(sock, y, true) in did ==> y == x
    ensures Heard(v, did, sock) == if SetVolume(sock, x, true) in did then x else v
  {
    if did != [] {
      var k := |did| - 1;
      assert did == did[..k] + [did[k]];
      HeardSet(v, did[..k], sock, x);
    }
  }

  /** What was read before anything was written is the volume there was. */
  lemma {:induction false} FirstIsOriginal(v: real, log: seq<Event>, sock: Sock)
    requires Honest(v, log, sock)
    ensures FirstVolume(log, sock).Read? ==> FirstVolume(log, sock).v == v
    ensures FirstVolume(log, sock) == Untouched ==> Heard(v, log, sock) == v
  {
    if log != [] {
      FirstIsOriginal(v, log[..|log| - 1], sock);
    }
  }

  /** In an episode a volume is only ever set to the ducked one. */
  lemma {:induction false} LogLowers(cfg: Config, ws: seq<Input>, n: nat, e: Event)
    requires n <= |ws| && e in Log(cfg, ws, n) && e.SetVolume?
    ensures e.v == cfg.duckVolume && !cfg.dryRun
  {
    hide Did, Want;
    if n > 0 {
      var before, did := Log(cfg, ws, n - 1), Did(cfg, ws, n - 1);
      assert Log(cfg, ws, n) == if Want(cfg, ws, n - 1) then before + did else [];
      if e in before {
        LogLowers(cfg, ws, n - 1, e);
      } else {
        HoldingDid(cfg, ws, n - 1, e);
      }
    }
  }

  /** The socket is there when the episode is over, and takes what it is given. */
  predicate Takes(view: View) {
    view.present && view.volumeSet
  }

  /** Tick k is the first after an episode. */
  ghost predicate EndsAt(cfg: Config, ws: seq<Input>, k: nat)
    requires k < |ws|
  {
    k > 0 && Want(cfg, ws, k - 1) && !Want(cfg, ws, k)
  }

  ghost predicate OnlyLowers(cfg: Config, log: seq<Event>, sock: Sock) {
    forall y :: SetVolume(sock, y, true) in log ==> y == cfg.duckVolume && !cfg.dryRun
  }

  /**
    What an episode does to a volume, from the log of it alone: until its end the volume is as it was
    or the ducked one, and after it the same, and as it was exactly when it still was or the socket
    takes the restore.
   */
  lemma {:induction false} RestoreLeaves(cfg: Config, log: seq<Event>, did: seq<Event>, v: real, sock: Sock,
                                         view: Sock -> View)
    requires Honest(v, log + did, sock) && Restores(cfg, log, did, sock, view) && OnlyLowers(cfg, log, sock)
    ensures var before, after := Heard(v, log, sock), Heard(v, log + did, sock);
            && (before == v || before == cfg.duckVolume) && (after == v || after == cfg.duckVolume)
            && (after == v <==> before == v || Takes(view(sock)))
  {
    hide Honest, Heard;
    HonestAppend(v, log, did, sock);
    HeardAppend(v, log, did, sock);
    FirstIsOriginal(v, log, sock);
    HeardSet(v, log, sock, cfg.duckVolume);
    forall y | SetVolume(sock, y, true) in did ensures y == v {
    }
    HeardSet(Heard(v, log, sock), did, sock, v);
    if Heard(v, log, sock) != v {
      assert SetVolume(sock, cfg.duckVolume, true) in log;
      assert SetVolume(sock, v, true) in did <==> Takes(view(sock));
    }
  }

  lemma {:induction false} LogOnlyLowers(cfg: Config, ws: seq<Input>, n: nat, sock: Sock)
    requires n <= |ws|
    ensures OnlyLowers(cfg, Log(cfg, ws, n), sock)
  {
    hide Log;
    forall y | SetVolume(sock, y, true) in Log(cfg, ws, n) ensures y == cfg.duckVolume && !cfg.dryRun {
      LogLowers(cfg, ws, n, SetVolume(sock, y, true));
    }
  }

  /** The log of an episode is what was done since it began, and it has been on since then. */
  lemma {:induction false} LogIsSince(cfg: Config, ws: seq<Input>, n: nat) returns (b: nat)
    requires n <= |ws|
    ensures b <= n && (b == 0 || !Want(cfg, ws, b - 1)) && AllDid(cfg, ws, n) == AllDid(cfg, ws, b) + Log(cfg, ws, n)
    ensures forall i :: b <= i < n ==> Want(cfg, ws, i)
  {
    hide Want, Did;
    if n == 0 || !Want(cfg, ws, n - 1) {
      b := n;
      assert AllDid(cfg, ws, n) + [] == AllDid(cfg, ws, n);
    } else {
      b := LogIsSince(cfg, ws, n - 1);
      var x, y, z := AllDid(cfg, ws, b), Log(cfg, ws, n - 1), Did(cfg, ws, n - 1);
      assert x + y + z == x + (y + z);
    }
  }

  /** After n ticks no episode is on. */
  ghost predicate Between(cfg: Config, ws: seq<Input>, n: nat)
    requires n <= |ws|
  {
    n == 0 || !Want(cfg, ws, n - 1)
  }

  /** The episode that tick k ends lowered the volume and does not get it back. */
  ghost predicate FailsAt(cfg: Config, ws: seq<Input>, k: nat, v: real, sock: Sock)
    requires k < |ws|
  {
    EndsAt(cfg, ws, k) && Volume(cfg, ws, k, v, sock) != v && !Takes(ws[k].restoreView(sock))
  }

  lemma {:induction false} HonestSoFar(cfg: Config, ws: seq<Input>, m: nat, n: nat, v: real, sock: Sock)
    requires m <= n <= |ws| && Honest(v, AllDid(cfg, ws, n), sock)
    ensures Honest(v, AllDid(cfg, ws, m), sock)
  {
    hide Did;
    if m < n {
      HonestAppend(v, AllDid(cfg, ws, n - 1), Did(cfg, ws, n - 1), sock);
      HonestSoFar(cfg, ws, m, n - 1, v, sock);
    }
  }

  /** The end of an episode, at a tick or on the way out, leaves the volume that it found or the ducked one. */
  lemma {:induction false} EndLeaves(cfg: Config, ws: seq<Input>, n: nat, did: seq<Event>, v: real, sock: Sock,
                                     view: Sock -> View) returns (b: nat)
    requires n <= |ws| && Honest(v, AllDid(cfg, ws, n) + did, sock)
    requires Restores(cfg, Log(cfg, ws, n), did, sock, view)
    ensures b <= n && Between(cfg, ws, b) && Honest(v, AllDid(cfg, ws, b), sock)
    ensures forall i :: b <= i < n ==> Want(cfg, ws, i)
    ensures var x, before, after := Volume(cfg, ws, b, v, sock), Volume(cfg, ws, n, v, sock),
                                    Heard(v, AllDid(cfg, ws, n) + did, sock);
            && (after == x || after == cfg.duckVolume)
            && (after == x <==> before == x || Takes(view(sock)))
  {
    hide Want, Did, Honest, Heard, Log, Restores;
    b := LogIsSince(cfg, ws, n);
    var all, log, x := AllDid(cfg, ws, b), Log(cfg, ws, n), Volume(cfg, ws, b, v, sock);
    assert all + log + did == all + (log + did);
    HonestAppend(v, all, log + did, sock);
    HeardAppend(v, all, log + did, sock);
    HeardAppend(v, all, log, sock);
    LogOnlyLowers(cfg, ws, n, sock);
    RestoreLeaves(cfg, log, did, x, sock, view);
  }

  lemma {:induction false} IdleLeaves(cfg: Config, ws: seq<Input>, k: nat, v: real, sock: Sock)
    requires k < |ws| && Between(cfg, ws, k) && !Want(cfg, ws, k)
    ensures Volume(cfg, ws, k + 1, v, sock) == Volume(cfg, ws, k, v, sock)
  {
    hide Want, Did;
    IdleDid(cfg, ws, k);
    assert AllDid(cfg, ws, k) + [] == AllDid(cfg, ws, k);
  }

  ghost predicate NoneFailed(cfg: Config, ws: seq<Input>, n: nat, v: real, sock: Sock)
    requires n <= |ws|
  {
    forall k: nat :: k < n ==> !FailsAt(cfg, ws, k, v, sock)
  }

  lemma {:induction false} NoEndInside(cfg: Config, ws: seq<Input>, b: nat, n: nat, v: real, sock: Sock)
    requires b <= n <= |ws| && forall i :: b <= i < n ==> Want(cfg, ws, i)
    ensures NoneFailed(cfg, ws, n, v, sock) <==> NoneFailed(cfg, ws, b, v, sock)
  {
    hide Want, Volume;
    forall k: nat | b <= k < n ensures !FailsAt(cfg, ws, k, v, sock) {
    }
  }

  lemma {:induction false} OneMore(cfg: Config, ws: seq<Input>, n: nat, v: real, sock: Sock)
    requires 0 < n <= |ws|
    ensures NoneFailed(cfg, ws, n, v, sock)
            <==> NoneFailed(cfg, ws, n - 1, v, sock) && !FailsAt(cfg, ws, n - 1, v, sock)
  {
    hide FailsAt;
  }

  lemma {:induction false} NothingHeard(cfg: Config, ws: seq<Input>, v: real, sock: Sock)
    ensures Volume(cfg, ws, 0, v, sock) == v && NoneFailed(cfg, ws, 0, v, sock)
  {
  }

  /**
    Between episodes the volume is the one there was before the first, exactly as long as no episode
    that lowered it ended with its socket gone or refusing; from the first that did it is the ducked
    one for good, whatever the sockets take later.
   */
  lemma {:induction false} VolumeBetween(cfg: Config, ws: seq<Input>, n: nat, v: real, sock: Sock)
    requires n <= |ws| && Between(cfg, ws, n) && Honest(v, AllDid(cfg, ws, n), sock)
    ensures Volume(cfg, ws, n, v, sock) == if NoneFailed(cfg, ws, n, v, sock) then v else cfg.duckVolume
  {
    hide Want, Honest, Heard, Did, Restores, NoneFailed, Volume, Takes;
    if n == 0 {
      NothingHeard(cfg, ws, v, sock);
    } else {
      var k := n - 1;
      OneMore(cfg, ws, n, v, sock);
      if EndsAt(cfg, ws, k) {
        VolumesRestored(cfg, ws, k, sock);
        var b := EndLeaves(cfg, ws, k, Did(cfg, ws, k), v, sock, ws[k].restoreView);
        VolumeIs(cfg, ws, n, v, sock);
        NoEndInside(cfg, ws, b, k, v, sock);
        VolumeBetween(cfg, ws, b, v, sock);
      } else {
        HonestSoFar(cfg, ws, k, n, v, sock);
        IdleLeaves(cfg, ws, k, v, sock);
        VolumeBetween(cfg, ws, k, v, sock);
      }
    }
  }

  lemma {:induction false} VolumeIs(cfg: Config, ws: seq<Input>, n: nat, v: real, sock: Sock)
    requires 0 < n <= |ws|
    ensures Volume(cfg, ws, n, v, sock) == Heard(v, AllDid(cfg, ws, n - 1) + Did(cfg, ws, n - 1), sock)
  {
    hide Did, Heard;
  }

  /** And on the way out: the volume there was is back unless some episode has failed, this one among them. */
  lemma {:induction false} VolumeLeaving(cfg: Config, ws: seq<Input>, v: real, sock: Sock, view: Sock -> View)
    requires Honest(v, AllDid(cfg, ws, |ws|) + Leaving(cfg, After(cfg, ws, |ws|).core, view), sock)
    ensures Heard(v, AllDid(cfg, ws, |ws|) + Leaving(cfg, After(cfg, ws, |ws|).core, view), sock)
            == if NoneFailed(cfg, ws, |ws|, v, sock) && (Volume(cfg, ws, |ws|, v, sock) == v || Takes(view(sock)))
               then v else cfg.duckVolume
  {
    hide Want, Honest, Heard, Did, Restores, NoneFailed, Volume, Takes, Leaving;
    var did := Leaving(cfg, After(cfg, ws, |ws|).core, view);
    VolumesRestoredLeaving(cfg, ws, sock, view);
    var b := EndLeaves(cfg, ws, |ws|, did, v, sock, view);
    NoEndInside(cfg, ws, b, |ws|, v, sock);
    VolumeBetween(cfg, ws, b, v, sock);
  }

  /** One socket to lower, and nothing debounced. */
  function OneSocket(sock: Sock): Config {
    Config([], [sock], 30.0, false, false, 1.0, 1.0, 1.0, 1.0, 1, 1)
  }

  function Tells(call: bool, now: real, view: View): Input {
    Input(Some(call), false, false, now, false, n => view, n => view, s => view)
  }

  lemma {:induction false} NothingHolds(cfg: Config, s: State, w: Input)
    requires !s.flagHold.held && !s.micHold.held && !w.flag && !w.mic
    ensures !FlagNow(cfg, s, w)
    ensures !Debounced(cfg, s, w).0.held && !Debounced(cfg, s, w).1.held
  {
  }

  lemma {:induction false} CallComes(sock: Sock, view: View)
    requires view.present && view.volume == Number(100.0) && view.volumeSet
    ensures var (c, did) := Acted(OneSocket(sock), START.core, false, Tells(true, 0.0, view));
            && did == [HoldOn, ReadVolume(sock, 100.0), SetVolume(sock, 30.0, true)]
            && c == Core(false, true, true, true, [Saved(sock, 100.0)], {}, 1, 1)
  {
    var cfg, w := OneSocket(sock), Tells(true, 0.0, view);
    assert Pause(cfg, {}, false, w.pauseView, 0) == ({}, []);
    assert Duck(cfg, [], w.duckView, 0) == ([], []);
    assert [] + [Saved(sock, 100.0)] == [Saved(sock, 100.0)];
  }

  lemma {:induction false} CallGoes(sock: Sock, view: View)
    requires !view.present
    ensures var (c, did) := Acted(OneSocket(sock), Core(false, true, true, true, [Saved(sock, 100.0)], {}, 1, 1), false,
                                  Tells(false, 1.0, view));
            did == [HoldOff] && !c.prevWant
  {
    var cfg, w, saved := OneSocket(sock), Tells(false, 1.0, view), [Saved(sock, 100.0)];
    assert Unduck(cfg, saved, w.restoreView, 0) == [];
    assert Unduck(cfg, saved, w.restoreView, 1) == [];
  }

  lemma {:induction false} HeardFirst(sock: Sock)
    ensures var first := [HoldOn, ReadVolume(sock, 100.0), SetVolume(sock, 30.0, true)];
            && Heard(100.0, first, sock) == 30.0 && Heard(100.0, first + [HoldOff], sock) == 30.0
            && Honest(100.0, first + [HoldOff], sock)
  {
    var on, read, lower := HoldOn, ReadVolume(sock, 100.0), SetVolume(sock, 30.0, true);
    assert [on][..0] == [] && [on, read][..1] == [on] && [on, read, lower][..2] == [on, read];
    assert Heard(100.0, [on], sock) == 100.0 && Honest(100.0, [on], sock);
    assert Honest(100.0, [on, read], sock);
    assert Honest(100.0, [on, read, lower], sock);
    assert ([on, read, lower] + [HoldOff])[..3] == [on, read, lower];
  }

  /** A call during which the one socket was lowered, and at whose end it is gone. */
  lemma {:induction false} BaselineIsLost(sock: Sock) returns (cfg: Config, ws: seq<Input>)
    ensures |ws| == 2 && cfg.duckVolume == 30.0 && Between(cfg, ws, 2) && Honest(100.0, AllDid(cfg, ws, 2), sock)
    ensures Volume(cfg, ws, 2, 100.0, sock) == 30.0 && FailsAt(cfg, ws, 1, 100.0, sock)
  {
    hide Acted, Debounced;
    cfg := OneSocket(sock);
    var there := View(true, None, true, Number(100.0), true);
    var gone := there.(present := false);
    ws := [Tells(true, 0.0, there), Tells(false, 1.0, gone)];
    var read, lower := ReadVolume(sock, 100.0), SetVolume(sock, 30.0, true);
    assert After(cfg, ws, 0) == START;
    NothingHolds(cfg, START, ws[0]);
    CallComes(sock, there);
    assert After(cfg, ws, 1) == Tick(cfg, START, ws[0]).0;
    NothingHolds(cfg, After(cfg, ws, 1), ws[1]);
    CallGoes(sock, gone);
    assert After(cfg, ws, 2) == Tick(cfg, After(cfg, ws, 1), ws[1]).0;
    var first := [HoldOn, read, lower];
    assert AllDid(cfg, ws, 0) == [];
    assert AllDid(cfg, ws, 1) == [] + first == first;
    assert AllDid(cfg, ws, 2) == first + [HoldOff];
    HeardFirst(sock);
  }
}
