/**
  The two debounces of the call guard (`SustainedMic` and `FlagHold` in call_guard.py), and the mic
  hold, which is one fed by the other.

  Each is a small state machine told something every tick. What it answers is stated over the whole
  trace of ticks, with no mention of its state: a tick's run is the unbroken stretch of equal
  readings it is in.
 */
module Debounce {
  import opened Wrappers

  datatype Sample = Sample(on: bool, now: real)

  // ---------------------------------------------------------------- the state machines

  datatype Mic = Mic(since: Option<real>, wedged: bool)

  function MicUpdate(maxS: real, m: Mic, active: bool, now: real): (Mic, bool) {
    if !active then (Mic(None, false), false)
    else
      var since := if m.since.None? then now else m.since.value;
      var wedged := m.wedged || (maxS > 0.0 && now - since >= maxS);
      (Mic(Some(since), wedged), !wedged)
  }

  class SustainedMic {
    const maxS: real
    var since: Option<real>
    var wedged: bool

    ghost function Now(): Mic
      reads this
    {
      Mic(since, wedged)
    }

    constructor (maxS: real)
      ensures this.maxS == maxS && Now() == Mic(None, false)
    {
      this.maxS := maxS;
      since, wedged := None, false;
    }

    method Update(active: bool, now: real) returns (barge: bool)
      modifies this
      ensures (Now(), barge) == MicUpdate(maxS, old(Now()), active, now)
    {
      if !active {
        since, wedged := None, false;
        return false;
      }
      if since.None? {
        since := Some(now);
      }
      if !wedged && maxS > 0.0 && now - since.value >= maxS {
        wedged := true;
      }
      return !wedged;
    }
  }

  datatype Hold = Hold(held: bool, presentSince: Option<real>, absentSince: Option<real>)

  function HoldUpdate(engageS: real, releaseS: real, h: Hold, flag: bool, now: real): Hold {
    if flag then
      var since := if h.presentSince.None? then now else h.presentSince.value;
      Hold(h.held || now - since >= engageS, Some(since), None)
    else
      var since := if h.absentSince.None? then now else h.absentSince.value;
      Hold(h.held && now - since < releaseS, None, Some(since))
  }

  class FlagHold {
    const engageS: real
    const releaseS: real
    var held: bool
    var presentSince: Option<real>
    var absentSince: Option<real>

    ghost function Now(): Hold
      reads this
    {
      Hold(held, presentSince, absentSince)
    }

    constructor (engageS: real, releaseS: real)
      ensures this.engageS == engageS && this.releaseS == releaseS && Now() == Hold(false, None, None)
    {
      this.engageS, this.releaseS := engageS, releaseS;
      held, presentSince, absentSince := false, None, None;
    }

    method Update(flag: bool, now: real) returns (r: bool)
      modifies this
      ensures Now() == HoldUpdate(engageS, releaseS, old(Now()), flag, now) && r == held
    {
      if flag {
        absentSince := None;
        if presentSince.None? {
          presentSince := Some(now);
        }
        if !held && now - presentSince.value >= engageS {
          held := true;
        }
      } else {
        presentSince := None;
        if absentSince.None? {
          absentSince := Some(now);
        }
        if held && now - absentSince.value >= releaseS {
          held := false;
        }
      }
      return held;
    }
  }

  // ---------------------------------------------------------------- traces

  /** The state after the first n ticks. */
  function MicAfter(maxS: real, t: seq<Sample>, n: nat): Mic
    requires n <= |t|
  {
    if n == 0 then Mic(None, false)
    else MicUpdate(maxS, MicAfter(maxS, t, n - 1), t[n - 1].on, t[n - 1].now).0
  }

  function Barge(maxS: real, t: seq<Sample>, i: nat): bool
    requires i < |t|
  {
    MicUpdate(maxS, MicAfter(maxS, t, i), t[i].on, t[i].now).1
  }

  function HoldAfter(engageS: real, releaseS: real, t: seq<Sample>, n: nat): Hold
    requires n <= |t|
  {
    if n == 0 then Hold(false, None, None)
    else HoldUpdate(engageS, releaseS, HoldAfter(engageS, releaseS, t, n - 1), t[n - 1].on, t[n - 1].now)
  }

  /** The answer at tick i. */
  function Held(engageS: real, releaseS: real, t: seq<Sample>, i: nat): bool
    requires i < |t|
  {
    HoldUpdate(engageS, releaseS, HoldAfter(engageS, releaseS, t, i), t[i].on, t[i].now).held
  }

  /** Where the unbroken stretch of equal readings that ends at tick i begins. */
  function RunStart(t: seq<Sample>, i: nat): (s: nat)
    requires i < |t|
    ensures s <= i && forall k :: s <= k <= i ==> t[k].on == t[i].on
    ensures s > 0 ==> t[s - 1].on != t[i].on
  {
    if i == 0 || t[i - 1].on != t[i].on then i else RunStart(t, i - 1)
  }

  function InRun(t: seq<Sample>, i: nat): real
    requires i < |t|
  {
    t[i].now - t[RunStart(t, i)].now
  }

  // ---------------------------------------------------------------- what the mic tracker answers

  /** Some tick of the run up to i was already `maxS` into it. */
  ghost predicate Wedged(maxS: real, t: seq<Sample>, i: nat)
    requires i < |t|
  {
    exists k: nat :: RunStart(t, i) <= k <= i && maxS > 0.0 && InRun(t, k) >= maxS
  }

  lemma {:induction false} WedgedStep(maxS: real, t: seq<Sample>, i: nat)
    requires i < |t| && t[i].on
    ensures Wedged(maxS, t, i) <==>
            (maxS > 0.0 && InRun(t, i) >= maxS) || (i > 0 && t[i - 1].on && Wedged(maxS, t, i - 1))
  {
    if i > 0 && t[i - 1].on {
      assert RunStart(t, i) == RunStart(t, i - 1);
      if k: nat :| RunStart(t, i) <= k <= i && maxS > 0.0 && InRun(t, k) >= maxS {
        assert k < i ==> RunStart(t, i - 1) <= k <= i - 1;
      }
    } else {
      assert RunStart(t, i) == i;
    }
  }

  lemma {:induction false} MicTracks(maxS: real, t: seq<Sample>, i: nat)
    requires i < |t| && t[i].on
    ensures var n := i + 1; MicAfter(maxS, t, n) == Mic(Some(t[RunStart(t, i)].now), Wedged(maxS, t, i))
  {
    hide Wedged;
    WedgedStep(maxS, t, i);
    if i > 0 {
      if t[i - 1].on {
        MicTracks(maxS, t, i - 1);
      } else {
        assert MicAfter(maxS, t, i) == Mic(None, false);
      }
    }
  }

  /** A recording is a barge-in until it has gone on, at some tick, for `maxS`; then no more. */
  lemma {:induction false} BargeMeaning(maxS: real, t: seq<Sample>, i: nat)
    requires i < |t|
    ensures Barge(maxS, t, i) <==> t[i].on && !Wedged(maxS, t, i)
  {
    if t[i].on {
      hide Wedged;
      WedgedStep(maxS, t, i);
      if i > 0 && t[i - 1].on {
        MicTracks(maxS, t, i - 1);
      }
    }
  }

  /** One unbroken recording counts as a barge-in for less than `maxS`. */
  lemma {:induction false} BargeIsShort(maxS: real, t: seq<Sample>, i: nat)
    requires i < |t| && maxS > 0.0 && Barge(maxS, t, i)
    ensures InRun(t, i) < maxS
  {
    BargeMeaning(maxS, t, i);
  }

  // ---------------------------------------------------------------- what a hold answers

  lemma {:induction false} HoldTracks(engageS: real, releaseS: real, t: seq<Sample>, i: nat)
    requires i < |t|
    ensures var n := i + 1;
            var h := HoldAfter(engageS, releaseS, t, n);
            && h.presentSince == (if t[i].on then Some(t[RunStart(t, i)].now) else None)
            && h.absentSince == (if t[i].on then None else Some(t[RunStart(t, i)].now))
  {
    if i > 0 {
      HoldTracks(engageS, releaseS, t, i - 1);
    }
  }

  ghost predicate Engages(engageS: real, t: seq<Sample>, i: nat)
    requires i < |t|
  {
    t[i].on && InRun(t, i) >= engageS
  }

  ghost predicate Releases(releaseS: real, t: seq<Sample>, i: nat)
    requires i < |t|
  {
    !t[i].on && InRun(t, i) >= releaseS
  }

  lemma {:induction false} HoldStep(engageS: real, releaseS: real, t: seq<Sample>, i: nat)
    requires i < |t|
    ensures Held(engageS, releaseS, t, i)
            == (if t[i].on then Engages(engageS, t, i) || (i > 0 && Held(engageS, releaseS, t, i - 1))
                else !Releases(releaseS, t, i) && i > 0 && Held(engageS, releaseS, t, i - 1))
  {
    HoldTracks(engageS, releaseS, t, i);
    if i > 0 {
      HoldTracks(engageS, releaseS, t, i - 1);
    }
  }

  /** No tick after e, up to i, releases. */
  ghost predicate StandsFrom(releaseS: real, t: seq<Sample>, e: nat, i: nat)
    requires i < |t|
  {
    forall k: nat :: e < k <= i ==> !Releases(releaseS, t, k)
  }

  /**
    The hold is on when some tick engaged it, its flag constant for `engageS` by then, and no tick
    since released it, constant the other way for `releaseS`.
   */
  lemma {:induction false} HeldMeaning(engageS: real, releaseS: real, t: seq<Sample>, i: nat)
    requires i < |t|
    ensures Held(engageS, releaseS, t, i) <==>
            exists e: nat :: e <= i && Engages(engageS, t, e) && StandsFrom(releaseS, t, e, i)
  {
    HoldStep(engageS, releaseS, t, i);
    if i > 0 {
      HeldMeaning(engageS, releaseS, t, i - 1);
      if Held(engageS, releaseS, t, i) && !Engages(engageS, t, i) {
        var e: nat :| e <= i - 1 && Engages(engageS, t, e) && StandsFrom(releaseS, t, e, i - 1);
        assert StandsFrom(releaseS, t, e, i);
      }
      if e: nat :| e <= i && Engages(engageS, t, e) && StandsFrom(releaseS, t, e, i) {
        if e < i {
          assert StandsFrom(releaseS, t, e, i - 1);
        }
      }
    }
  }

  // ---------------------------------------------------------------- the mic hold

  /** What the mic hold is told: the barge-ins, at the ticks' own times. */
  function BargeTrace(maxS: real, t: seq<Sample>): (r: seq<Sample>)
    ensures |r| == |t|
  {
    seq(|t|, i requires 0 <= i < |t| => Sample(Barge(maxS, t, i), t[i].now))
  }

  ghost predicate Forward(t: seq<Sample>) {
    forall i, j :: 0 <= i <= j < |t| ==> t[i].now <= t[j].now
  }

  lemma {:induction false} QuietSince(t: seq<Sample>, w: nat, i: nat)
    requires w <= i < |t| && forall k :: w <= k <= i ==> !t[k].on
    ensures RunStart(t, i) <= w
  {
    if w < i {
      QuietSince(t, w, i - 1);
    }
  }

  /**
    Once a recording has gone on for `maxS`, at tick w, the mic hold is off at every tick of it from
    `releaseS` later on, so from the first of those until the mic goes quiet.
   */
  lemma {:induction false} MicHoldEnds(maxS: real, engageS: real, releaseS: real, t: seq<Sample>, w: nat, i: nat)
    requires maxS > 0.0 && Forward(t) && w <= i < |t|
    requires t[i].on && RunStart(t, i) <= w && InRun(t, w) >= maxS && t[i].now - t[w].now >= releaseS
    ensures !Held(engageS, releaseS, BargeTrace(maxS, t), i)
  {
    var b := BargeTrace(maxS, t);
    forall k: nat | w <= k <= i ensures !b[k].on {
      SameRun(t, k, i);
      BargeMeaning(maxS, t, k);
    }
    QuietSince(b, w, i);
    HoldStep(engageS, releaseS, b, i);
  }

  lemma {:induction false} SameRun(t: seq<Sample>, k: nat, i: nat)
    requires k <= i < |t| && RunStart(t, i) <= k
    ensures RunStart(t, k) == RunStart(t, i)
  {
    if k < i {
      SameRun(t, k, i - 1);
    }
  }

  /** So the mic hold is on for less than `maxS` and `releaseS` and one tick more of any one recording. */
  lemma {:induction false} MicHoldIsShort(maxS: real, engageS: real, releaseS: real, t: seq<Sample>, w: nat, i: nat)
    requires maxS > 0.0 && Forward(t) && w <= i < |t| && t[i].on && RunStart(t, i) <= w
    requires InRun(t, w) >= maxS && Held(engageS, releaseS, BargeTrace(maxS, t), i)
    ensures InRun(t, i) < InRun(t, w) + releaseS
  {
    SameRun(t, w, i);
    if t[i].now - t[w].now >= releaseS {
      MicHoldEnds(maxS, engageS, releaseS, t, w, i);
    }
  }
}
