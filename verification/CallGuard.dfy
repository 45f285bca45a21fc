/**
  The call guard's loop (`_run_loop` in call_guard.py) and what it does to the brokers' sockets.

  A tick is told the notifications' answer, the flag, the mic, the time, and how each socket behaves
  while it lasts: absent, unreadable, refusing. It leaves a new state and the list of what it did.
  An episode is an unbroken stretch of ticks that want the hold.
 */
module CallGuard {
  import opened Wrappers
  import opened Debounce

  type Sock = string

  /** A volume read: the request failed, it was no number, or it was one. */
  datatype Volume = Failed | NotANumber | Number(v: real)

  /** How a socket behaves in a tick; `paused` is None when it cannot be read. */
  datatype View = View(present: bool, paused: Option<bool>, pauseSet: bool, volume: Volume, volumeSet: bool)

  datatype Config = Config(pauseList: seq<Sock>, duckList: seq<Sock>, duckVolume: real, dryRun: bool, claims: bool,
                           engageS: real, releaseS: real, micEngageS: real, micMaxS: real,
                           notifEvery: nat, idleEvery: nat)

  /** What the guard does; a write says whether it succeeded. */
  datatype Event =
    | ReadPause(sock: Sock, paused: bool) | SetPause(sock: Sock, on: bool, ok: bool)
    | ReadVolume(sock: Sock, v: real) | SetVolume(sock: Sock, v: real, ok: bool)
    | HoldOn | HoldOff | ClaimOn | ClaimOff

  /** A tick's world: sockets by their place in their list, ducked ones by name. */
  datatype Input = Input(notifs: Option<bool>, flag: bool, mic: bool, now: real, audible: bool,
                         pauseView: nat -> View, duckView: nat -> View, restoreView: Sock -> View)

  datatype Saved = Saved(sock: Sock, v: real)

  /** The loop's own variables, and with them the debounces. */
  datatype Core = Core(prevFlag: bool, prevWant: bool, callInEpisode: bool, lastCall: bool,
                       ducked: seq<Saved>, held: set<Sock>, i: nat, next: nat)

  datatype State = State(core: Core, flagHold: Hold, micHold: Hold, sustained: Mic)

  const START := State(Core(false, false, false, false, [], {}, 0, 0),
                       Hold(false, None, None), Hold(false, None, None), Mic(None, false))

  // ---------------------------------------------------------------- the sockets

  function PauseOne(cfg: Config, already: set<Sock>, quiet: bool, sock: Sock, view: View): (set<Sock>, seq<Event>) {
    if !view.present || cfg.dryRun then (already, [])
    else
      var seen := if quiet || view.paused.None? then [] else [ReadPause(sock, view.paused.value)];
      (if !quiet && view.paused == Some(true) then already + {sock} else already,
       seen + [SetPause(sock, true, view.pauseSet)])
  }

  /** The first n sockets of the pause list. */
  function Pause(cfg: Config, already: set<Sock>, quiet: bool, view: nat -> View, n: nat): (set<Sock>, seq<Event>)
    requires n <= |cfg.pauseList|
  {
    if n == 0 then (already, [])
    else
      var (before, did) := Pause(cfg, already, quiet, view, n - 1);
      var (after, more) := PauseOne(cfg, before, quiet, cfg.pauseList[n - 1], view(n - 1));
      (after, did + more)
  }

  function ResumeOne(cfg: Config, already: set<Sock>, sock: Sock, view: View): seq<Event> {
    if !view.present || sock in already || cfg.dryRun then [] else [SetPause(sock, false, view.pauseSet)]
  }

  function Resume(cfg: Config, already: set<Sock>, view: nat -> View, n: nat): seq<Event>
    requires n <= |cfg.pauseList|
  {
    if n == 0 then []
    else Resume(cfg, already, view, n - 1) + ResumeOne(cfg, already, cfg.pauseList[n - 1], view(n - 1))
  }

  predicate IsSaved(saved: seq<Saved>, sock: Sock) {
    exists k :: 0 <= k < |saved| && saved[k].sock == sock
  }

  function DuckOne(cfg: Config, saved: seq<Saved>, sock: Sock, view: View): (seq<Saved>, seq<Event>) {
    if !view.present || cfg.dryRun then (saved, [])
    else if IsSaved(saved, sock) then (saved, [SetVolume(sock, cfg.duckVolume, view.volumeSet)])
    else
      match view.volume
      case Failed => (saved, [])
      case NotANumber => (saved, [])
      case Number(v) =>
        (saved + [Saved(sock, v)], [ReadVolume(sock, v), SetVolume(sock, cfg.duckVolume, view.volumeSet)])
  }

  function Duck(cfg: Config, saved: seq<Saved>, view: nat -> View, n: nat): (seq<Saved>, seq<Event>)
    requires n <= |cfg.duckList|
  {
    if n == 0 then (saved, [])
    else
      var (before, did) := Duck(cfg, saved, view, n - 1);
      var (after, more) := DuckOne(cfg, before, cfg.duckList[n - 1], view(n - 1));
      (after, did + more)
  }

  function UnduckOne(cfg: Config, s: Saved, view: View): seq<Event> {
    if cfg.dryRun || !view.present then [] else [SetVolume(s.sock, s.v, view.volumeSet)]
  }

  function Unduck(cfg: Config, saved: seq<Saved>, view: Sock -> View, n: nat): seq<Event>
    requires n <= |saved|
  {
    if n == 0 then [] else Unduck(cfg, saved, view, n - 1) + UnduckOne(cfg, saved[n - 1], view(saved[n - 1].sock))
  }

  // ---------------------------------------------------------------- a tick

  function CallNow(s: Core, w: Input): bool {
    if s.i >= s.next && w.notifs.Some? then w.notifs.value else s.lastCall
  }

  /** The three debounces, each told of every tick. */
  function Debounced(cfg: Config, s: State, w: Input): (Hold, Hold, Mic) {
    var (mic, barge) := MicUpdate(cfg.micMaxS, s.sustained, w.mic, w.now);
    (HoldUpdate(cfg.engageS, cfg.releaseS, s.flagHold, w.flag, w.now),
     HoldUpdate(cfg.micEngageS, cfg.releaseS, s.micHold, barge, w.now),
     mic)
  }

  function FlagNow(cfg: Config, s: State, w: Input): bool {
    Debounced(cfg, s, w).0.held || Debounced(cfg, s, w).1.held
  }

  function ClaimEdge(cfg: Config, prev: bool, flag: bool): seq<Event> {
    if cfg.dryRun || !cfg.claims || prev == flag then [] else if flag then [ClaimOn] else [ClaimOff]
  }

  /** The records of an episode and what was done, at a tick that wants the hold. */
  function Grip(cfg: Config, first: bool, due: bool, held: set<Sock>, ducked: seq<Saved>, w: Input)
    : (set<Sock>, seq<Saved>, seq<Event>)
  {
    if !first && !due then (held, ducked, [])
    else
      var (held', paused) := Pause(cfg, held, !first, w.pauseView, |cfg.pauseList|);
      var (ducked', lowered) := Duck(cfg, ducked, w.duckView, |cfg.duckList|);
      (held', ducked', (if first && !cfg.dryRun then [HoldOn] else []) + paused + lowered)
  }

  /** What is done when the last reason clears. */
  function LetGo(cfg: Config, called: bool, held: set<Sock>, ducked: seq<Saved>, w: Input): seq<Event> {
    [HoldOff] + Unduck(cfg, ducked, w.restoreView, |ducked|)
    + if called then [] else Resume(cfg, held, w.pauseView, |cfg.pauseList|)
  }

  /** The records after a tick, and what it did to the sockets. */
  function Episode(cfg: Config, s: Core, call: bool, want: bool, w: Input): (set<Sock>, seq<Saved>, bool, seq<Event>) {
    if want then
      var (held, ducked, did) := Grip(cfg, !s.prevWant, s.i >= s.next, s.held, s.ducked, w);
      (held, ducked, s.callInEpisode || call, did)
    else if s.prevWant then ({}, [], false, LetGo(cfg, s.callInEpisode, s.held, s.ducked, w))
    else (s.held, s.ducked, s.callInEpisode, [])
  }

  /** A tick with its flag settled. */
  function Acted(cfg: Config, s: Core, flag: bool, w: Input): (Core, seq<Event>) {
    var call := CallNow(s, w);
    var want := call || flag;
    var (held, ducked, inCall, did) := Episode(cfg, s, call, want, w);
    var next := if s.i < s.next then s.next else s.i + if want || w.audible then cfg.notifEvery else cfg.idleEvery;
    (Core(flag, want, inCall, call, ducked, held, s.i + 1, next), ClaimEdge(cfg, s.prevFlag, flag) + did)
  }

  function Tick(cfg: Config, s: State, w: Input): (State, seq<Event>) {
    var (flagHold, micHold, mic) := Debounced(cfg, s, w);
    var (core, did) := Acted(cfg, s.core, FlagNow(cfg, s, w), w);
    (State(core, flagHold, micHold, mic), did)
  }

  /** On the way out: nothing is left ducked, held or claimed. */
  function Leaving(cfg: Config, s: Core, view: Sock -> View): seq<Event> {
    [HoldOff] + ClaimEdge(cfg, s.prevFlag, false) + Unduck(cfg, s.ducked, view, |s.ducked|)
  }

  /** The state after the first n ticks of a run. */
  function After(cfg: Config, ws: seq<Input>, n: nat): State
    requires n <= |ws|
  {
    if n == 0 then START else Tick(cfg, After(cfg, ws, n - 1), ws[n - 1]).0
  }

  function Did(cfg: Config, ws: seq<Input>, k: nat): seq<Event>
    requires k < |ws|
  {
    Tick(cfg, After(cfg, ws, k), ws[k]).1
  }

  // ---------------------------------------------------------------- the loop

  class Guard {
    const cfg: Config
    const flaghold: FlagHold
    const michold: FlagHold
    const sustained: SustainedMic
    var prevFlag: bool
    var prevWant: bool
    var callInEpisode: bool
    var lastCall: bool
    var ducked: seq<Saved>
    var held: set<Sock>
    var i: nat
    var next: nat

    ghost predicate Valid() {
      && flaghold != michold
      && flaghold.engageS == cfg.engageS && flaghold.releaseS == cfg.releaseS
      && michold.engageS == cfg.micEngageS && michold.releaseS == cfg.releaseS
      && sustained.maxS == cfg.micMaxS
    }

    ghost function Now(): State
      reads this, flaghold, michold, sustained
    {
      State(Fields(), flaghold.Now(), michold.Now(), sustained.Now())
    }

    ghost function Fields(): Core
      reads this
    {
      Core(prevFlag, prevWant, callInEpisode, lastCall, ducked, held, i, next)
    }

    constructor (cfg: Config)
      ensures this.cfg == cfg && Valid() && Now() == START
      ensures fresh(flaghold) && fresh(michold) && fresh(sustained)
    {
      this.cfg := cfg;
      flaghold := new FlagHold(cfg.engageS, cfg.releaseS);
      michold := new FlagHold(cfg.micEngageS, cfg.releaseS);
      sustained := new SustainedMic(cfg.micMaxS);
      prevFlag, prevWant, callInEpisode, lastCall := false, false, false, false;
      ducked, held, i, next := [], {}, 0, 0;
    }

    method PauseSockets(view: nat -> View, quiet: bool) returns (did: seq<Event>)
      modifies this`held
      ensures (held, did) == Pause(cfg, old(held), quiet, view, |cfg.pauseList|)
    {
      did := [];
      for n := 0 to |cfg.pauseList|
        invariant (held, did) == Pause(cfg, old(held), quiet, view, n)
      {
        var sock, v := cfg.pauseList[n], view(n);
        assert did + [] == did;
        if !v.present || cfg.dryRun {
          continue;
        }
        var more := [];
        if !quiet && v.paused.Some? {
          more := [ReadPause(sock, v.paused.value)];
          if v.paused.value {
            held := held + {sock};
          }
        }
        more := more + [SetPause(sock, true, v.pauseSet)];
        did := did + more;
      }
    }

    method ResumeSockets(view: nat -> View) returns (did: seq<Event>)
      ensures did == Resume(cfg, held, view, |cfg.pauseList|)
    {
      did := [];
      for n := 0 to |cfg.pauseList|
        invariant did == Resume(cfg, held, view, n)
      {
        var sock := cfg.pauseList[n];
        if !view(n).present || sock in held || cfg.dryRun {
          continue;
        }
        did := did + [SetPause(sock, false, view(n).pauseSet)];
      }
    }

    method DuckSockets(view: nat -> View) returns (did: seq<Event>)
      modifies this`ducked
      ensures (ducked, did) == Duck(cfg, old(ducked), view, |cfg.duckList|)
    {
      did := [];
      for n := 0 to |cfg.duckList|
        invariant (ducked, did) == Duck(cfg, old(ducked), view, n)
      {
        var sock, v := cfg.duckList[n], view(n);
        assert did + [] == did;
        if !v.present || cfg.dryRun {
          continue;
        }
        var lower := SetVolume(sock, cfg.duckVolume, v.volumeSet);
        if !IsSaved(ducked, sock) {
          if !v.volume.Number? {
            continue;
          }
          ducked := ducked + [Saved(sock, v.volume.v)];
          did := did + [ReadVolume(sock, v.volume.v), lower];
        } else {
          did := did + [lower];
        }
      }
    }

    method UnduckSockets(view: Sock -> View) returns (did: seq<Event>)
      modifies this`ducked
      ensures did == Unduck(cfg, old(ducked), view, |old(ducked)|) && ducked == []
    {
      var items := ducked;
      did := [];
      for n := 0 to |items|
        invariant did == Unduck(cfg, items, view, n)
        invariant ducked == items[n..]
      {
        assert did + [] == did;
        if !cfg.dryRun && view(items[n].sock).present {
          did := did + [SetVolume(items[n].sock, items[n].v, view(items[n].sock).volumeSet)];
        }
        assert items[n..][1..] == items[n + 1..];
        ducked := ducked[1..];
      }
    }

    /** A tick that wants the hold: the first of an episode acts on everything, later ones when a poll is due. */
    method TakeHold(w: Input) returns (did: seq<Event>)
      modifies this`held, this`ducked
      ensures (held, ducked, did) == Grip(cfg, !prevWant, i >= next, old(held), old(ducked), w)
    {
      did := [];
      if !prevWant || i >= next {
        if !prevWant && !cfg.dryRun {
          did := [HoldOn];
        }
        var paused := PauseSockets(w.pauseView, prevWant);
        var lowered := DuckSockets(w.duckView);
        did := did + paused + lowered;
      }
    }

    method Release(w: Input) returns (did: seq<Event>)
      modifies this`ducked
      ensures did == LetGo(cfg, callInEpisode, held, old(ducked), w) && ducked == []
    {
      var raised := UnduckSockets(w.restoreView);
      did := [HoldOff] + raised;
      assert did + [] == did;
      if !callInEpisode {
        var resumed := ResumeSockets(w.pauseView);
        did := did + resumed;
      }
    }

    /** The debounces are told of every tick, whatever else happens in it. */
    method Debounce(w: Input) returns (flag: bool)
      requires Valid()
      modifies flaghold, michold, sustained
      ensures (flaghold.Now(), michold.Now(), sustained.Now()) == Debounced(cfg, old(Now()), w)
      ensures flag == FlagNow(cfg, old(Now()), w)
    {
      var micNow := sustained.Update(w.mic, w.now);
      var flagHeld := flaghold.Update(w.flag, w.now);
      var micHeld := michold.Update(micNow, w.now);
      flag := flagHeld || micHeld;
    }

    method Hold(w: Input, call: bool, want: bool) returns (did: seq<Event>)
      modifies this`held, this`ducked, this`callInEpisode
      ensures (held, ducked, callInEpisode, did) == Episode(cfg, old(Fields()), call, want, w)
    {
      hide Grip, LetGo;
      did := [];
      if want {
        if call {
          callInEpisode := true;
        }
        did := TakeHold(w);
      } else if prevWant {
        did := Release(w);
        held, callInEpisode := {}, false;
      }
    }

    method Act(w: Input, flag: bool) returns (did: seq<Event>)
      modifies this
      ensures (Fields(), did) == Acted(cfg, old(Fields()), flag, w)
    {
      hide ClaimEdge, Episode;
      var due := i >= next;
      var call := if due && w.notifs.Some? then w.notifs.value else lastCall;
      var edge := ClaimEdge(cfg, prevFlag, flag);
      var want := call || flag;
      did := Hold(w, call, want);
      did := edge + did;
      if due {
        next := i + if want || w.audible then cfg.notifEvery else cfg.idleEvery;
      }
      lastCall, prevFlag, prevWant := call, flag, want;
      i := i + 1;
    }

    method OneTick(w: Input) returns (did: seq<Event>)
      requires Valid()
      modifies this, flaghold, michold, sustained
      ensures (Now(), did) == Tick(cfg, old(Now()), w)
    {
      hide Debounced, FlagNow;
      var flag := Debounce(w);
      did := Act(w, flag);
    }

    method RunLoop(ws: seq<Input>, last: Sock -> View) returns (did: seq<seq<Event>>, leaving: seq<Event>)
      requires Valid() && Now() == START
      modifies this, flaghold, michold, sustained
      ensures |did| == |ws| && forall k :: 0 <= k < |ws| ==> did[k] == Did(cfg, ws, k)
      ensures leaving == Leaving(cfg, After(cfg, ws, |ws|).core, last) && ducked == []
    {
      hide Tick, ClaimEdge, Valid;
      did := [];
      var n := 0;
      while n < |ws|
        invariant 0 <= n == |did| <= |ws|
        invariant Now() == After(cfg, ws, n)
        invariant forall k :: 0 <= k < n ==> did[k] == Did(cfg, ws, k)
      {
        var now := OneTick(ws[n]);
        did := did + [now];
        n := n + 1;
      }
      var edge := ClaimEdge(cfg, prevFlag, false);
      var raised := UnduckSockets(last);
      leaving := [HoldOff] + edge + raised;
    }
  }
}
