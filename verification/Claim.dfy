/**
  The input claim (`ClaimHeartbeat` in call_guard.py) as the steps its threads take.

  The guard's own thread starts and stops the claim; every start leaves a worker that POSTs it
  over and over, every stop a release that DELETEs it. The threads, the requests between them and
  the server, and the clock may take their next step in any order. Any request may be lost, and a
  DELETE may land and its answer be lost, but no more than `lost` POSTs in a row of the worker in
  charge. Its requests take up to `lag`, those of a stopped worker and of a release any time.
 */
module Claim {
  import opened Wrappers

  const MIN_INTERVAL := 1.0

  function Larger(x: real, y: real): real {
    if x > y then x else y
  }

  function Apart(x: real, y: real): real {
    if x > y then x - y else y - x
  }

  /** How often a claim is posted: as configured, or as near to it as half the ttl and the minimum let it. */
  function Interval(interval: real, ttl: real): (r: real)
    ensures MIN_INTERVAL <= r <= Larger(MIN_INTERVAL, ttl / 2.0)
    ensures forall x :: MIN_INTERVAL <= x <= Larger(MIN_INTERVAL, ttl / 2.0) ==>
              Apart(r, interval) <= Apart(x, interval)
    ensures r < ttl <==> ttl > MIN_INTERVAL
  {
    var ceiling := if ttl / 2.0 > MIN_INTERVAL then ttl / 2.0 else MIN_INTERVAL;
    var least := if interval < ceiling then interval else ceiling;
    if least > MIN_INTERVAL then least else MIN_INTERVAL
  }

  datatype Config = Config(ttl: real, interval: real, lag: real, lost: nat)

  /** What n requests and the waits after them take. */
  function Beats(c: Config, n: nat): real {
    if n == 0 then 0.0 else Beats(c, n - 1) + (c.interval + c.lag)
  }

  predicate Sane(c: Config) {
    c.ttl > 0.0 && c.interval >= 0.0 && c.lag >= 0.0
  }

  /** A claim posted on time is posted again before it ends, with as many lost in between as may be. */
  predicate Timely(c: Config) {
    Sane(c) && Beats(c, c.lost + 1) + c.lag < c.ttl
  }

  // ---------------------------------------------------------------- the state

  /** Sending a POST, hearing its answer, waiting for the next one, gone. */
  datatype Doing = Sending | Hearing | Waiting | Gone

  /** When the server last had a POST of its, how many were lost since; `until` ends what it is doing. */
  datatype Worker = Worker(doing: Doing, until: real, landed: Option<real>, stopped: bool, lost: nat)

  /**
    Before the first look at the generation, the DELETE, the second look, the POST that makes good;
    `at` is when the claim was deleted. Given up, when the answer or that POST was lost.
   */
  datatype Phase = Looking | Deleting | LookingAgain(at: real) | Reposting(at: real) | GivenUp(at: real) | Done

  datatype Release = Release(gen: nat, phase: Phase)

  /** The guard's thread: idle, between the generation and the worker, claiming, waiting for the worker to end. */
  datatype Main = Off | Starting | On | Joining(since: real)

  datatype State = State(now: real, expires: real, gen: nat, main: Main, workers: seq<Worker>, releases: seq<Release>)

  predicate Held(s: State) {
    s.now < s.expires
  }

  predicate Hot(s: State) {
    s.main.On?
  }

  function Start(now: real): State {
    State(now, now, 0, Off, [], [])
  }

  // ---------------------------------------------------------------- the steps

  datatype Step =
    | Bump | Spawn                              // start()
    | SetStop | Joined                          // stop()
    | PostLands(w: nat) | PostLost(w: nat) | Answered(w: nat) | Wakes(w: nat)
    | Looks(r: nat) | DeleteLands(r: nat) | DeleteLost(r: nat) | DeleteUnheard(r: nat)
    | LooksAgain(r: nat) | RepostLands(r: nat) | RepostLost(r: nat)
    | Pass(d: real)

  function Current(s: State): Worker
    requires s.workers != []
  {
    s.workers[|s.workers| - 1]
  }

  predicate Enabled(c: Config, s: State, a: Step) {
    match a
    case Bump => s.main.Off?
    case Spawn => s.main.Starting?
    case SetStop => s.main.On? && s.workers != []
    case Joined => s.main.Joining? && s.workers != [] && (Current(s).doing.Gone? || s.now >= s.main.since + 2.0)
    case PostLands(w) => w < |s.workers| && s.workers[w].doing.Sending?
    case PostLost(w) =>
      && w < |s.workers| && s.workers[w].doing.Sending?
      && (s.main.On? && w == |s.workers| - 1 ==> s.workers[w].lost < c.lost)
    case Answered(w) => w < |s.workers| && s.workers[w].doing.Hearing?
    case Wakes(w) =>
      w < |s.workers| && s.workers[w].doing.Waiting? && (s.workers[w].stopped || s.now >= s.workers[w].until)
    case Looks(r) => r < |s.releases| && s.releases[r].phase.Looking?
    case DeleteLands(r) => r < |s.releases| && s.releases[r].phase.Deleting?
    case DeleteLost(r) => r < |s.releases| && s.releases[r].phase.Deleting?
    case DeleteUnheard(r) => r < |s.releases| && s.releases[r].phase.Deleting?
    case LooksAgain(r) => r < |s.releases| && s.releases[r].phase.LookingAgain?
    case RepostLands(r) => r < |s.releases| && s.releases[r].phase.Reposting?
    case RepostLost(r) => r < |s.releases| && s.releases[r].phase.Reposting?
    case Pass(d) => d >= 0.0 && (s.main.On? && s.workers != [] ==> s.now + d <= Current(s).until)
  }

  function SetWorker(s: State, w: nat, k: Worker): State
    requires w < |s.workers|
  {
    s.(workers := s.workers[w := k])
  }

  function SetPhase(s: State, r: nat, p: Phase): State
    requires r < |s.releases|
  {
    s.(releases := s.releases[r := s.releases[r].(phase := p)])
  }

  function Apply(c: Config, s: State, a: Step): State
    requires Enabled(c, s, a)
  {
    match a
    case Bump => s.(gen := s.gen + 1, main := Starting)
    case Spawn => s.(main := On, workers := s.workers + [Worker(Sending, s.now + c.lag, None, false, 0)])
    case SetStop => SetWorker(s, |s.workers| - 1, Current(s).(stopped := true)).(main := Joining(s.now))
    case Joined => s.(main := Off, releases := s.releases + [Release(s.gen, Looking)])
    case PostLands(w) =>
      SetWorker(s, w, s.workers[w].(doing := Hearing, landed := Some(s.now), lost := 0)).(expires := s.now + c.ttl)
    case PostLost(w) => SetWorker(s, w, s.workers[w].(doing := Hearing, lost := s.workers[w].lost + 1))
    case Answered(w) => SetWorker(s, w, s.workers[w].(doing := Waiting, until := s.now + c.interval))
    case Wakes(w) =>
      SetWorker(s, w, if s.workers[w].stopped then s.workers[w].(doing := Gone)
                      else s.workers[w].(doing := Sending, until := s.now + c.lag))
    case Looks(r) => SetPhase(s, r, if s.releases[r].gen != s.gen then Done else Deleting)
    case DeleteLands(r) => SetPhase(s, r, LookingAgain(s.now)).(expires := s.now)
    case DeleteLost(r) => SetPhase(s, r, Done)
    case DeleteUnheard(r) => SetPhase(s, r, GivenUp(s.now)).(expires := s.now)
    case LooksAgain(r) =>
      SetPhase(s, r, if s.releases[r].gen != s.gen then Reposting(s.releases[r].phase.at) else Done)
    case RepostLands(r) => SetPhase(s, r, Done).(expires := s.now + c.ttl)
    case RepostLost(r) => SetPhase(s, r, GivenUp(s.releases[r].phase.at))
    case Pass(d) => s.(now := s.now + d)
  }

  /** What a run of steps leaves; None when some step could not be taken. */
  function Run(c: Config, s: State, steps: seq<Step>): Option<State> {
    if steps == [] then Some(s)
    else
      match Run(c, s, steps[..|steps| - 1])
      case None => None
      case Some(before) =>
        if Enabled(c, before, steps[|steps| - 1]) then Some(Apply(c, before, steps[|steps| - 1])) else None
  }

  lemma {:induction false} RunPush(c: Config, s: State, steps: seq<Step>, a: Step)
    ensures Run(c, s, steps + [a]) ==
            match Run(c, s, steps)
            case None => None
            case Some(t) => if Enabled(c, t, a) then Some(Apply(c, t, a)) else None
  {
    assert (steps + [a])[..|steps|] == steps;
  }

  lemma {:induction false} RunAppend(c: Config, s: State, first: seq<Step>, later: seq<Step>)
    requires Run(c, s, first).Some?
    ensures Run(c, s, first + later) == Run(c, Run(c, s, first).value, later)
  {
    if later == [] {
      assert first + later == first;
    } else {
      var k := |later| - 1;
      RunAppend(c, s, first, later[..k]);
      assert first + later == (first + later[..k]) + [later[k]];
      RunPush(c, s, first + later[..k], later[k]);
    }
  }

  lemma {:induction false} RunNothing(c: Config, s: State)
    ensures Run(c, s, []) == Some(s)
  {
  }

  /** The state after some steps taken one after the other, each of them possible. */
  lemma {:induction false} Take(c: Config, start: State, before: seq<Step>, s: State,
                                a: Step) returns (after: seq<Step>, t: State)
    requires Run(c, start, before) == Some(s) && Enabled(c, s, a)
    ensures after == before + [a] && t == Apply(c, s, a) && Run(c, start, after) == Some(t)
  {
    RunPush(c, start, before, a);
    after, t := before + [a], Apply(c, s, a);
  }

  // ---------------------------------------------------------------- what every step keeps

  /** The worker in charge posts again in time, however many of its POSTs were lost since the last that landed. */
  ghost predicate OnTime(c: Config, s: State) {
    && s.workers != [] && !Current(s).stopped && s.now <= Current(s).until && Current(s).lost <= c.lost
    && (Current(s).doing.Sending? ==> Current(s).until <= s.now + c.lag)
    && !Current(s).doing.Gone?
    && (Current(s).landed.Some? ==>
          Current(s).landed.value <= s.now
          && Current(s).until <= Current(s).landed.value + Due(c, Current(s).doing, Current(s).lost))
  }

  /** How long after a POST that landed, and n that were lost, what the worker does is over. */
  function Due(c: Config, doing: Doing, n: nat): real {
    match doing
    case Sending => Beats(c, n + 1) + c.lag
    case Hearing => Beats(c, n) + c.lag
    case Waiting => Beats(c, n + 1)
    case Gone => 0.0
  }

  lemma {:induction false} BeatsGrow(c: Config, m: nat, n: nat)
    requires Sane(c) && m <= n
    ensures 0.0 <= Beats(c, m) <= Beats(c, n)
  {
    if m < n {
      BeatsGrow(c, m, n - 1);
    } else if m > 0 {
      BeatsGrow(c, m - 1, m - 1);
    }
  }

  /** It is over before the claim is. */
  lemma {:induction false} DueInTime(c: Config, doing: Doing, n: nat)
    requires Timely(c) && n <= c.lost
    ensures Due(c, doing, n) < c.ttl
  {
    BeatsGrow(c, n, c.lost + 1);
    BeatsGrow(c, n + 1, c.lost + 1);
  }

  /** A release that deleted the claim at that time or later, and has not made good. */
  predicate Owes(r: Release, since: real) {
    (r.phase.LookingAgain? || r.phase.Reposting? || r.phase.GivenUp?) && r.phase.at >= since
  }

  ghost predicate Older(s: State) {
    forall r :: 0 <= r < |s.releases| ==> s.releases[r].gen <= s.gen && (!s.main.Off? ==> s.releases[r].gen < s.gen)
  }

  lemma {:induction false} OlderKept(c: Config, s: State, a: Step)
    requires Older(s) && Enabled(c, s, a)
    ensures Older(Apply(c, s, a))
  {
  }

  lemma {:induction false} OnTimeKept(c: Config, s: State, a: Step)
    requires Sane(c) && (Hot(s) ==> OnTime(c, s)) && Enabled(c, s, a)
    ensures Hot(Apply(c, s, a)) ==> OnTime(c, Apply(c, s, a))
  {
    BeatsGrow(c, 0, 1);
  }

  /** The claim of the worker in charge is there, or some release has deleted it since. */
  ghost predicate Covered(c: Config, s: State) {
    Hot(s) && s.workers != [] && Current(s).landed.Some? ==>
      s.expires >= Current(s).landed.value + c.ttl || OwedSince(s, Current(s).landed.value)
  }

  ghost predicate OwedSince(s: State, since: real) {
    exists r :: 0 <= r < |s.releases| && Owes(s.releases[r], since)
  }

  lemma {:induction false} CoveredKept(c: Config, s: State, a: Step)
    requires Sane(c) && Covered(c, s) && Enabled(c, s, a) && Older(s) && (Hot(s) ==> OnTime(c, s))
    ensures Covered(c, Apply(c, s, a))
  {
    var t := Apply(c, s, a);
    if Hot(t) && t.workers != [] && Current(t).landed.Some? {
      var at := Current(t).landed.value;
      if a.DeleteLands? || a.DeleteUnheard? {
        assert Owes(t.releases[a.r], at);
      } else if (a.PostLands? && a.w == |s.workers| - 1) || a.RepostLands? {
      } else if OwedSince(s, at) {
        var r :| 0 <= r < |s.releases| && Owes(s.releases[r], at);
        assert s.releases[r].gen < s.gen;
        assert Owes(t.releases[r], at);
      }
    }
  }

  /** No worker is left running but the one in charge. */
  ghost predicate OthersStopped(s: State) {
    forall w :: 0 <= w < |s.workers| ==> s.workers[w].stopped || (Hot(s) && w == |s.workers| - 1)
  }

  /** What holds however late the requests are. */
  ghost predicate Ordered(c: Config, s: State) {
    Older(s) && OthersStopped(s) && s.expires <= s.now + c.ttl
  }

  lemma {:induction false} OrderedKept(c: Config, s: State, a: Step)
    requires c.ttl >= 0.0 && Ordered(c, s) && Enabled(c, s, a)
    ensures Ordered(c, Apply(c, s, a))
  {
    OlderKept(c, s, a);
  }

  lemma {:induction false} RunOrdered(c: Config, now: real, steps: seq<Step>)
    requires c.ttl >= 0.0 && Run(c, Start(now), steps).Some?
    ensures Ordered(c, Run(c, Start(now), steps).value)
  {
    if steps != [] {
      var k := |steps| - 1;
      RunOrdered(c, now, steps[..k]);
      OrderedKept(c, Run(c, Start(now), steps[..k]).value, steps[k]);
    }
  }

  ghost predicate Kept(c: Config, s: State) {
    && Ordered(c, s)
    && (Hot(s) ==> OnTime(c, s))
    && Covered(c, s)
  }

  lemma {:induction false} StepKeeps(c: Config, s: State, a: Step)
    requires Timely(c) && Kept(c, s) && Enabled(c, s, a)
    ensures Kept(c, Apply(c, s, a))
  {
    OrderedKept(c, s, a);
    OnTimeKept(c, s, a);
    CoveredKept(c, s, a);
  }

  lemma {:induction false} RunKeeps(c: Config, now: real, steps: seq<Step>)
    requires Timely(c) && Run(c, Start(now), steps).Some?
    ensures Kept(c, Run(c, Start(now), steps).value)
  {
    if steps != [] {
      var k := |steps| - 1;
      RunKeeps(c, now, steps[..k]);
      StepKeeps(c, Run(c, Start(now), steps[..k]).value, steps[k]);
    }
  }

  /** While the mic is hot and a POST has landed: held, or deleted since by a release of an earlier stop. */
  ghost predicate Claimed(s: State) {
    Hot(s) && s.workers != [] && Current(s).landed.Some? ==>
      || Held(s)
      || exists r :: 0 <= r < |s.releases| && s.releases[r].gen < s.gen && Owes(s.releases[r], Current(s).landed.value)
  }

  /** Whatever the threads did, in whatever order, and whatever was lost. */
  lemma {:induction false} HotIsClaimed(c: Config, now: real, steps: seq<Step>)
    requires Timely(c) && Run(c, Start(now), steps).Some?
    ensures var s := Run(c, Start(now), steps).value; Claimed(s) && (Hot(s) ==> s.workers != [])
  {
    RunKeeps(c, now, steps);
    var s := Run(c, Start(now), steps).value;
    if Hot(s) && Current(s).landed.Some? {
      DueInTime(c, Current(s).doing, Current(s).lost);
      if !Held(s) {
        var r :| 0 <= r < |s.releases| && Owes(s.releases[r], Current(s).landed.value);
        assert s.releases[r].gen < s.gen;
      }
    }
  }

  /** Whatever interval is configured, requests that land and take less than a quarter of the ttl are in time. */
  lemma {:induction false} ConfiguredIsTimely(interval: real, ttl: real, lag: real)
    requires ttl >= 2.0 && 0.0 <= lag < ttl / 4.0
    ensures Timely(Config(ttl, Interval(interval, ttl), lag, 0))
  {
    var c := Config(ttl, Interval(interval, ttl), lag, 0);
    assert Beats(c, 1) == Beats(c, 0) + (c.interval + c.lag);
  }

  /** A start whose first POST lands at once and is answered as late as may be. */
  lemma {:induction false} FirstBeat(c: Config) returns (steps: seq<Step>, s: State)
    requires Sane(c)
    ensures Run(c, Start(0.0), steps) == Some(s) && s == Unlucky(c, 0)
  {
    hide Run;
    var from := Start(0.0);
    s := from;
    steps := [];
    RunNothing(c, from);
    steps, s := Take(c, from, steps, s, Bump);
    steps, s := Take(c, from, steps, s, Spawn);
    steps, s := Take(c, from, steps, s, PostLands(0));
    steps, s := Take(c, from, steps, s, Pass(c.lag));
    steps, s := Take(c, from, steps, s, Answered(0));
    steps, s := Take(c, from, steps, s, Pass(c.interval));
    steps, s := Take(c, from, steps, s, Wakes(0));
    assert s.workers == [Worker(Sending, s.now + c.lag, Some(0.0), false, 0)];
    assert Beats(c, 1) == Beats(c, 0) + (c.interval + c.lag);
  }

  /** About to send, as late as may be, after one POST that landed and n that were lost. */
  function Unlucky(c: Config, n: nat): State {
    var now := Beats(c, n + 1);
    State(now, c.ttl, 1, On, [Worker(Sending, now + c.lag, Some(0.0), false, n)], [])
  }

  lemma {:induction false} LosesAll(c: Config, n: nat) returns (steps: seq<Step>)
    requires Sane(c) && n <= c.lost
    ensures Run(c, Start(0.0), steps) == Some(Unlucky(c, n))
  {
    hide Run;
    var s;
    if n == 0 {
      steps, s := FirstBeat(c);
    } else {
      var from := Start(0.0);
      s := Unlucky(c, n - 1);
      steps := LosesAll(c, n - 1);
      steps, s := Take(c, from, steps, s, Pass(c.lag));
      steps, s := Take(c, from, steps, s, PostLost(0));
      steps, s := Take(c, from, steps, s, Answered(0));
      steps, s := Take(c, from, steps, s, Pass(c.interval));
      steps, s := Take(c, from, steps, s, Wakes(0));
      assert s.workers == [Worker(Sending, s.now + c.lag, Some(0.0), false, n)];
    }
  }

  ghost predicate AlwaysClaimed(c: Config) {
    forall now: real, steps :: Run(c, Start(now), steps).Some? ==> Claimed(Run(c, Start(now), steps).value)
  }

  /** The claim survives every run with that many POSTs lost in a row exactly when they and their waits fit the ttl. */
  lemma {:induction false} ClaimedExactly(c: Config)
    requires Sane(c)
    ensures AlwaysClaimed(c) <==> Timely(c)
  {
    if Timely(c) {
      forall now: real, steps | Run(c, Start(now), steps).Some? ensures Claimed(Run(c, Start(now), steps).value) {
        HotIsClaimed(c, now, steps);
      }
    } else {
      hide Run;
      var steps := LosesAll(c, c.lost);
      var s;
      steps, s := Take(c, Start(0.0), steps, Unlucky(c, c.lost), Pass(c.lag));
      assert !Claimed(s);
    }
  }

  const DEFAULT_TTL := 45.0
  const DEFAULT_INTERVAL := 15.0

  /** At the defaults one POST in a row can be lost, with requests of less than five seconds, and never two. */
  lemma {:induction false} DefaultsLoseOne(lag: real, n: nat)
    requires lag >= 0.0
    ensures AlwaysClaimed(Config(DEFAULT_TTL, Interval(DEFAULT_INTERVAL, DEFAULT_TTL), lag, n))
            <==> (n == 0 && lag < 15.0) || (n == 1 && lag < 5.0)
  {
    hide AlwaysClaimed;
    var c := Config(DEFAULT_TTL, Interval(DEFAULT_INTERVAL, DEFAULT_TTL), lag, n);
    assert c.interval == 15.0;
    ClaimedExactly(c);
    assert Beats(c, 1) == Beats(c, 0) + (15.0 + lag);
    assert Beats(c, 2) == Beats(c, 1) + (15.0 + lag);
    assert Beats(c, 3) == Beats(c, 2) + (15.0 + lag);
    if n >= 2 {
      BeatsGrow(c, 3, n + 1);
    }
  }

  // ---------------------------------------------------------------- after a stop

  /**
    Nothing is left that will post: no worker sends, no release is to post again, and those that
    delete, or are yet to look again, will find that there was no start since.
   */
  ghost predicate Settled(s: State) {
    && s.main.Off?
    && (forall w :: 0 <= w < |s.workers| ==> s.workers[w].stopped && !s.workers[w].doing.Sending?)
    && (forall r :: 0 <= r < |s.releases| ==>
          && !s.releases[r].phase.Reposting?
          && (s.releases[r].phase.Deleting? || s.releases[r].phase.LookingAgain? ==> s.releases[r].gen == s.gen))
  }

  predicate Posts(a: Step) {
    a.PostLands? || a.PostLost? || a.RepostLands? || a.RepostLost?
  }

  ghost predicate NonePosts(steps: seq<Step>) {
    forall a :: a in steps ==> !Posts(a)
  }

  /** One step of it, unless it is a start. */
  lemma {:induction false} SettledStep(c: Config, s: State, a: Step)
    requires c.ttl > 0.0 && Settled(s) && s.expires <= s.now + c.ttl && a != Bump && Enabled(c, s, a)
    ensures var t := Apply(c, s, a);
            && Settled(t) && t.gen == s.gen && t.now >= s.now && !Posts(a)
            && (t.expires == s.expires || t.expires <= t.now)
  {
  }

  /** From then on, until the next start, nothing posts, and the claim ends when it would have, or sooner. */
  lemma {:induction false} SettledEnds(c: Config, s: State, steps: seq<Step>)
    requires c.ttl > 0.0 && Settled(s) && s.expires <= s.now + c.ttl && Bump !in steps && Run(c, s, steps).Some?
    ensures var t := Run(c, s, steps).value;
            && Settled(t) && t.gen == s.gen && t.now >= s.now && NonePosts(steps)
            && (t.expires <= s.expires || t.expires <= t.now)
            && (t.now >= s.now + c.ttl ==> !Held(t))
  {
    hide Settled, Enabled, Apply, Posts;
    if steps != [] {
      var k := |steps| - 1;
      assert forall a :: a in steps[..k] ==> a in steps;
      SettledEnds(c, s, steps[..k]);
      assert steps[k] != Bump;
      SettledStep(c, Run(c, s, steps[..k]).value, steps[k]);
      assert steps == steps[..k] + [steps[k]];
    }
  }

  /** What is left that posts: a worker still sending, or a release that posts again or will find it is stale. */
  lemma {:induction false} LeftOver(s: State) returns (w: nat, r: nat)
    requires s.main.Off? && !Settled(s) && OthersStopped(s) && Older(s)
    ensures || (w < |s.workers| && s.workers[w].doing.Sending?)
            || (r < |s.releases| && s.releases[r].phase.Reposting?)
            || (r < |s.releases| && s.releases[r].gen != s.gen
                && (s.releases[r].phase.Deleting? || s.releases[r].phase.LookingAgain?))
  {
    w, r := 0, 0;
    if k: nat :| k < |s.workers| && s.workers[k].doing.Sending? {
      w := k;
    } else if k: nat :| k < |s.releases| && s.releases[k].phase.Reposting? {
      r := k;
    } else {
      r :| r < |s.releases| && s.releases[r].gen != s.gen
           && (s.releases[r].phase.Deleting? || s.releases[r].phase.LookingAgain?);
    }
  }

  /** A stopped guard that is not settled can claim again, without a new start and at any later time. */
  lemma {:induction false} UnsettledClaims(c: Config, s: State, d: real) returns (steps: seq<Step>, t: State)
    requires s.main.Off? && !Settled(s) && OthersStopped(s) && Older(s) && d >= 0.0
    ensures Bump !in steps && Run(c, s, steps) == Some(t)
    ensures t.now == s.now + d && t.expires == t.now + c.ttl && !NonePosts(steps)
  {
    hide Run, Settled, OthersStopped, Older;
    var w, r := LeftOver(s);
    steps, t := [], s;
    RunNothing(c, s);
    steps, t := Take(c, s, steps, t, Pass(d));
    if w < |s.workers| && s.workers[w].doing.Sending? {
      steps, t := Take(c, s, steps, t, PostLands(w));
      assert PostLands(w) in steps;
    } else {
      if t.releases[r].phase.Deleting? {
        steps, t := Take(c, s, steps, t, DeleteLands(r));
      }
      if t.releases[r].phase.LookingAgain? {
        steps, t := Take(c, s, steps, t, LooksAgain(r));
      }
      steps, t := Take(c, s, steps, t, RepostLands(r));
      assert RepostLands(r) in steps;
    }
  }

  /** No run without a new start posts again. */
  ghost predicate Silent(c: Config, s: State) {
    forall steps :: Bump !in steps && Run(c, s, steps).Some? ==> NonePosts(steps)
  }

  /** Every run without a new start has lost the claim once the time to live has passed. */
  ghost predicate Ends(c: Config, s: State) {
    forall steps :: Bump !in steps && Run(c, s, steps).Some? && Run(c, s, steps).value.now >= s.now + c.ttl ==>
      !Held(Run(c, s, steps).value)
  }

  /**
    Whatever the threads did: a stopped guard never posts again, and its claim ends within the time
    to live, exactly when no worker is sending, no release is to post again, and none that deletes, or
    is yet to look again, is of an older stop.
   */
  lemma {:induction false} StoppedIsSilent(c: Config, now: real, steps: seq<Step>)
    requires c.ttl > 0.0 && Run(c, Start(now), steps).Some? && Run(c, Start(now), steps).value.main.Off?
    ensures var s := Run(c, Start(now), steps).value;
            && (Settled(s) <==> Silent(c, s))
            && (Settled(s) <==> Ends(c, s))
  {
    hide Settled, Older, OthersStopped, NonePosts;
    RunOrdered(c, now, steps);
    var s := Run(c, Start(now), steps).value;
    if Settled(s) {
      forall more | Bump !in more && Run(c, s, more).Some?
        ensures NonePosts(more) && (Run(c, s, more).value.now >= s.now + c.ttl ==> !Held(Run(c, s, more).value))
      {
        SettledEnds(c, s, more);
      }
    } else {
      var more, t := UnsettledClaims(c, s, c.ttl);
      assert Held(t);
    }
  }

  /** A worker whose POST is slower than the join claims again after the release is done. */
  lemma {:induction false} WorkerOutlivesItsJoin(c: Config) returns (steps: seq<Step>)
    requires Timely(c)
    ensures Run(c, Start(0.0), steps).Some?
    ensures var s := Run(c, Start(0.0), steps).value;
            s.main.Off? && Held(s) && s.releases == [Release(1, Done)]
  {
    hide Run;
    var from := Start(0.0);
    var s := from;
    steps := [];
    RunNothing(c, from);
    steps, s := Take(c, from, steps, s, Bump);
    steps, s := Take(c, from, steps, s, Spawn);
    steps, s := Take(c, from, steps, s, SetStop);
    steps, s := Take(c, from, steps, s, Pass(2.0));
    steps, s := Take(c, from, steps, s, Joined);
    steps, s := Take(c, from, steps, s, Looks(0));
    steps, s := Take(c, from, steps, s, DeleteLands(0));
    steps, s := Take(c, from, steps, s, LooksAgain(0));
    steps, s := Take(c, from, steps, s, PostLands(0));
  }

  /** After a start, its stop, and a release that has sent its DELETE. */
  function AfterBlip(c: Config): State {
    State(0.0, 0.0, 1, Off, [Worker(Gone, c.interval, Some(0.0), true, 0)], [Release(1, LookingAgain(0.0))])
  }

  /** And after another start, which made that release stale, and its stop. */
  function AfterTalk(c: Config): State {
    State(0.0, c.ttl, 2, Joining(0.0),
          [Worker(Gone, c.interval, Some(0.0), true, 0), Worker(Waiting, c.interval, Some(0.0), true, 0)],
          [Release(1, Reposting(0.0))])
  }

  lemma {:induction false} Blip(c: Config) returns (steps: seq<Step>)
    requires Timely(c)
    ensures Run(c, Start(0.0), steps) == Some(AfterBlip(c))
  {
    hide Run;
    var from := Start(0.0);
    var s := from;
    steps := [];
    RunNothing(c, from);
    steps, s := Take(c, from, steps, s, Bump);
    steps, s := Take(c, from, steps, s, Spawn);
    steps, s := Take(c, from, steps, s, PostLands(0));
    steps, s := Take(c, from, steps, s, Answered(0));
    steps, s := Take(c, from, steps, s, SetStop);
    steps, s := Take(c, from, steps, s, Wakes(0));
    steps, s := Take(c, from, steps, s, Joined);
    steps, s := Take(c, from, steps, s, Looks(0));
    steps, s := Take(c, from, steps, s, DeleteLands(0));
    assert s.workers == [Worker(Gone, c.interval, Some(0.0), true, 0)];
    assert s.releases == [Release(1, LookingAgain(0.0))];
  }

  lemma {:induction false} TalkAfterBlip(c: Config) returns (steps: seq<Step>)
    requires Timely(c)
    ensures Run(c, AfterBlip(c), steps) == Some(AfterTalk(c))
  {
    hide Run;
    var from := AfterBlip(c);
    var s := from;
    steps := [];
    RunNothing(c, from);
    steps, s := Take(c, from, steps, s, Bump);
    steps, s := Take(c, from, steps, s, Spawn);
    steps, s := Take(c, from, steps, s, LooksAgain(0));
    steps, s := Take(c, from, steps, s, PostLands(1));
    steps, s := Take(c, from, steps, s, Answered(1));
    steps, s := Take(c, from, steps, s, SetStop);
    assert s.workers == [Worker(Gone, c.interval, Some(0.0), true, 0), Worker(Waiting, c.interval, Some(0.0), true, 0)];
    assert s.releases == [Release(1, Reposting(0.0))];
  }

  /** Then that stop's own release, and last the POST of the stale one. */
  lemma {:induction false} ReleasedTwice(c: Config) returns (steps: seq<Step>, s: State)
    requires Timely(c)
    ensures Run(c, AfterTalk(c), steps) == Some(s)
    ensures s.main.Off? && Held(s) && s.releases == [Release(1, Done), Release(2, Done)]
    ensures forall w :: 0 <= w < |s.workers| ==> s.workers[w].doing.Gone?
  {
    hide Run;
    var from := AfterTalk(c);
    s := from;
    steps := [];
    RunNothing(c, from);
    steps, s := Take(c, from, steps, s, Wakes(1));
    steps, s := Take(c, from, steps, s, Joined);
    steps, s := Take(c, from, steps, s, Looks(1));
    steps, s := Take(c, from, steps, s, DeleteLands(1));
    steps, s := Take(c, from, steps, s, LooksAgain(1));
    steps, s := Take(c, from, steps, s, RepostLands(0));
  }

  /** A release made stale by a new start posts again after that start's own stop and release are done. */
  lemma {:induction false} StaleReleaseClaimsAgain(c: Config) returns (steps: seq<Step>)
    requires Timely(c)
    ensures Run(c, Start(0.0), steps).Some?
    ensures var s := Run(c, Start(0.0), steps).value;
            && s.main.Off? && Held(s) && s.releases == [Release(1, Done), Release(2, Done)]
            && forall w :: 0 <= w < |s.workers| ==> s.workers[w].doing.Gone?
  {
    hide Run;
    var first := Blip(c);
    var second := TalkAfterBlip(c);
    var third, s := ReleasedTwice(c);
    RunAppend(c, Start(0.0), first, second);
    RunAppend(c, Start(0.0), first + second, third);
    steps := first + second + third;
  }
}
