/**
  The mic's poller (`MicSource` in call_guard.py): when an endpoint that does not answer is down,
  and when the companion app is knocked at, quietly first and then loudly.
 */
module MicSource {
  import opened Wrappers

  const MISSES_BEFORE_DOWN := 3

  /** Which knocks there are, and their timing. */
  datatype Config = Config(quiet: bool, loud: bool, afterS: real, everyS: real, loudAfterS: real)

  /**
    One turn of the polling thread: the reading, None when it failed at `missedAt`; the clock when a
    revive is considered; whether each command exists; whether a confirming read would be answered.
   */
  datatype Poll = Poll(got: Option<bool>, missedAt: real, now: real, quietThere: bool, loudThere: bool, confirms: bool)

  datatype Knock = Quiet | Loud

  datatype State = State(active: bool, misses: nat, failing: bool, failingSince: Option<real>,
                         lastRevive: Option<real>, loudDue: Option<real>)

  const START := State(false, 0, false, None, None, None)

  function Answered(s: State): State {
    s.(misses := 0, loudDue := None, failing := false,
       failingSince := if s.failing then None else s.failingSince)
  }

  /** One knock, if the command is there and a last patient read fails too. */
  function Fire(s: State, there: bool, p: Poll): (State, bool) {
    if !there then (s, false) else if p.confirms then (Answered(s), false) else (s, true)
  }

  function MaybeRevive(c: Config, s: State, p: Poll): (State, Option<Knock>) {
    if s.failingSince.None? then (s, None)
    else if s.loudDue.Some? && p.now >= s.loudDue.value && c.loud then
      var (t, knocked) := Fire(s.(loudDue := None), p.loudThere, p);
      (t, if knocked then Some(Loud) else None)
    else if !c.quiet || p.now - s.failingSince.value < c.afterS then (s, None)
    else if s.lastRevive.Some? && p.now - s.lastRevive.value < c.everyS then (s, None)
    else
      var (t, knocked) := Fire(s.(lastRevive := Some(p.now)), p.quietThere, p);
      if knocked then (t.(loudDue := Some(p.now + c.loudAfterS)), Some(Quiet)) else (t, None)
  }

  function Turn(c: Config, s: State, p: Poll): (State, Option<Knock>) {
    match p.got
    case Some(b) => (Answered(s).(active := b), None)
    case None =>
      var missed := s.(misses := s.misses + 1, active := false);
      if missed.misses < MISSES_BEFORE_DOWN then (missed, None)
      else if missed.failing then MaybeRevive(c, missed, p)
      else MaybeRevive(c, missed.(failing := true, failingSince := Some(p.missedAt)), p)
  }

  class Source {
    const c: Config
    var active: bool
    var misses: nat
    var failing: bool
    var failingSince: Option<real>
    var lastRevive: Option<real>
    var loudDue: Option<real>

    ghost function Now(): State
      reads this
    {
      State(active, misses, failing, failingSince, lastRevive, loudDue)
    }

    constructor (c: Config)
      ensures this.c == c && Now() == START
    {
      this.c := c;
      active, misses, failing := false, 0, false;
      failingSince, lastRevive, loudDue := None, None, None;
    }

    method Answer()
      modifies this
      ensures Now() == Answered(old(Now()))
    {
      misses, loudDue := 0, None;
      if failing {
        failing, failingSince := false, None;
      }
    }

    method Knocked(there: bool, p: Poll) returns (knocked: bool)
      modifies this
      ensures (Now(), knocked) == Fire(old(Now()), there, p)
    {
      if !there {
        return false;
      }
      if p.confirms {
        Answer();
        return false;
      }
      return true;
    }

    method Revive(p: Poll) returns (knock: Option<Knock>)
      modifies this
      ensures (Now(), knock) == MaybeRevive(c, old(Now()), p)
    {
      knock := None;
      if failingSince.None? {
        return;
      }
      if loudDue.Some? && p.now >= loudDue.value && c.loud {
        loudDue := None;
        var knocked := Knocked(p.loudThere, p);
        return if knocked then Some(Loud) else None;
      }
      if !c.quiet || p.now - failingSince.value < c.afterS {
        return;
      }
      if lastRevive.Some? && p.now - lastRevive.value < c.everyS {
        return;
      }
      lastRevive := Some(p.now);
      var knocked := Knocked(p.quietThere, p);
      if knocked {
        loudDue := Some(p.now + c.loudAfterS);
        knock := Some(Quiet);
      }
    }

    method OneTurn(p: Poll) returns (knock: Option<Knock>)
      modifies this
      ensures (Now(), knock) == Turn(c, old(Now()), p)
    {
      knock := None;
      if p.got.Some? {
        Answer();
        active := p.got.value;
        return;
      }
      misses := misses + 1;
      if misses >= MISSES_BEFORE_DOWN && !failing {
        failing, failingSince := true, Some(p.missedAt);
      }
      active := false;
      if misses >= MISSES_BEFORE_DOWN {
        knock := Revive(p);
      }
    }
  }

  // ---------------------------------------------------------------- runs

  function After(c: Config, ps: seq<Poll>, n: nat): State
    requires n <= |ps|
  {
    if n == 0 then START else Turn(c, After(c, ps, n - 1), ps[n - 1]).0
  }

  function KnockAt(c: Config, ps: seq<Poll>, i: nat): Option<Knock>
    requires i < |ps|
  {
    Turn(c, After(c, ps, i), ps[i]).1
  }

  ghost predicate Forward(ps: seq<Poll>) {
    forall i, j :: 0 <= i <= j < |ps| ==> ps[i].now <= ps[j].now
  }

  /** Every turn from a up to n failed to read. */
  ghost predicate Silent(ps: seq<Poll>, a: int, n: nat)
    requires n <= |ps|
  {
    0 <= a && forall k :: a <= k < n ==> ps[k].got.None?
  }

  /** The misses counted are the last turns, and the endpoint is down since one that was the third or later. */
  lemma {:induction false} MissesCount(c: Config, ps: seq<Poll>, n: nat) returns (d: nat)
    requires n <= |ps|
    ensures var s := After(c, ps, n);
            && s.misses <= n && Silent(ps, n - s.misses, n)
            && (s.failing <==> s.failingSince.Some?)
            && (s.failing ==> 2 <= d < n && Silent(ps, d - 2, n) && s.failingSince.value == ps[d].missedAt)
  {
    hide Turn;
    d := 0;
    if n > 0 {
      d := MissesCount(c, ps, n - 1);
      var s := After(c, ps, n - 1);
      TurnCounts(c, s, ps[n - 1]);
      if !s.failing {
        d := n - 1;
      }
    }
  }

  /** One turn counts a miss or ends the count, and an endpoint goes down on its third miss. */
  lemma {:induction false} TurnCounts(c: Config, s: State, p: Poll)
    requires s.failing <==> s.failingSince.Some?
    ensures var t := Turn(c, s, p).0;
            && (t.misses == 0 || (t.misses == s.misses + 1 && p.got.None?))
            && (t.failing <==> t.failingSince.Some?)
            && (t.failing ==>
                  && p.got.None? && (s.failing || t.misses == s.misses + 1 >= MISSES_BEFORE_DOWN)
                  && t.failingSince == if s.failing then s.failingSince else Some(p.missedAt))
  {
  }

  /**
    A knock only follows three turns in a row that failed to read, and more until now, and a
    confirming read that failed; a quiet one when the endpoint had been down for `afterS`.
   */
  lemma {:induction false} KnockMeansDown(c: Config, ps: seq<Poll>, i: nat) returns (d: nat)
    requires i < |ps| && KnockAt(c, ps, i).Some?
    ensures 2 <= d <= i && !ps[i].confirms
    ensures var n := i + 1; Silent(ps, d - 2, n)
    ensures KnockAt(c, ps, i) == Some(Quiet) ==> ps[i].now - ps[d].missedAt >= c.afterS && ps[i].quietThere
    ensures KnockAt(c, ps, i) == Some(Loud) ==> ps[i].loudThere
  {
    d := MissesCount(c, ps, i);
    if !After(c, ps, i).failing {
      d := i;
    }
  }

  // ---------------------------------------------------------------- the rate of quiet knocks

  lemma {:induction false} LastReviveIsLate(c: Config, ps: seq<Poll>, i: nat, n: nat)
    requires i < n <= |ps| && Forward(ps) && KnockAt(c, ps, i) == Some(Quiet)
    ensures After(c, ps, n).lastRevive.Some? && After(c, ps, n).lastRevive.value >= ps[i].now
  {
    if i < n - 1 {
      LastReviveIsLate(c, ps, i, n - 1);
    }
  }

  /** Two quiet knocks are `everyS` apart. */
  lemma {:induction false} QuietKnocksApart(c: Config, ps: seq<Poll>, i: nat, j: nat)
    requires i < j < |ps| && Forward(ps) && KnockAt(c, ps, i) == KnockAt(c, ps, j) == Some(Quiet)
    ensures ps[j].now - ps[i].now >= c.everyS
  {
    LastReviveIsLate(c, ps, i, j);
  }

  // ---------------------------------------------------------------- the loud knock

  /** Nothing was read and no one was knocked at in the turns between i and n. */
  ghost predicate Unanswered(c: Config, ps: seq<Poll>, i: nat, n: nat)
    requires n <= |ps|
  {
    forall k: nat :: i < k < n ==> ps[k].got.None? && KnockAt(c, ps, k).None?
  }

  lemma {:induction false} TurnDue(c: Config, s: State, p: Poll)
    ensures var (t, knock) := Turn(c, s, p);
            t.loudDue.Some? ==> if knock == Some(Quiet) then t.loudDue.value == p.now + c.loudAfterS
                                else knock.None? && p.got.None? && t.loudDue == s.loudDue
  {
  }

  lemma {:induction false} DueSince(c: Config, ps: seq<Poll>, n: nat) returns (i: nat)
    requires n <= |ps|
    ensures After(c, ps, n).loudDue.Some? ==>
              && i < n && KnockAt(c, ps, i) == Some(Quiet) && Unanswered(c, ps, i, n)
              && After(c, ps, n).loudDue.value == ps[i].now + c.loudAfterS
  {
    hide Turn;
    i := 0;
    if n > 0 {
      TurnDue(c, After(c, ps, n - 1), ps[n - 1]);
      i := DueSince(c, ps, n - 1);
      if KnockAt(c, ps, n - 1) == Some(Quiet) {
        i := n - 1;
      }
    }
  }

  /**
    A loud knock is the second half of a quiet one, `loudAfterS` or more later, with nothing read
    and nobody knocked at in between; so there is a quiet one between any two.
   */
  lemma {:induction false} LoudFollowsQuiet(c: Config, ps: seq<Poll>, j: nat) returns (i: nat)
    requires j < |ps| && KnockAt(c, ps, j) == Some(Loud)
    ensures i < j && KnockAt(c, ps, i) == Some(Quiet) && Unanswered(c, ps, i, j)
    ensures ps[j].got.None? && ps[j].now >= ps[i].now + c.loudAfterS
  {
    i := DueSince(c, ps, j);
  }

  // ---------------------------------------------------------------- when a knock is made

  /** The mic is taken for on exactly when the last read said so. */
  lemma {:induction false} ActiveMeaning(c: Config, ps: seq<Poll>, n: nat)
    requires n <= |ps|
    ensures After(c, ps, n).active <==> n > 0 && ps[n - 1].got == Some(true)
  {
  }

  /** The first of the turns up to n that all failed to read; n when the last one did not. */
  function SilentFrom(ps: seq<Poll>, n: nat): (a: nat)
    requires n <= |ps|
    ensures a <= n && (forall k :: a <= k < n ==> ps[k].got.None?) && (a > 0 ==> ps[a - 1].got.Some?)
  {
    if n == 0 || ps[n - 1].got.Some? then n else SilentFrom(ps, n - 1)
  }

  /** The last of the first n turns that knocked, and that knocked quietly. */
  function LastKnock(c: Config, ps: seq<Poll>, n: nat): Option<nat>
    requires n <= |ps|
  {
    if n == 0 then None else if KnockAt(c, ps, n - 1).Some? then Some(n - 1) else LastKnock(c, ps, n - 1)
  }

  function LastQuiet(c: Config, ps: seq<Poll>, n: nat): (q: Option<nat>)
    requires n <= |ps|
    ensures q.Some? ==> q.value < n && KnockAt(c, ps, q.value) == Some(Quiet)
  {
    if n == 0 then None else if KnockAt(c, ps, n - 1) == Some(Quiet) then Some(n - 1) else LastQuiet(c, ps, n - 1)
  }

  /** Both commands are there, and no confirming read is answered. */
  ghost predicate Willing(ps: seq<Poll>) {
    forall k :: 0 <= k < |ps| ==> ps[k].quietThere && ps[k].loudThere && !ps[k].confirms
  }

  /** A quiet knock of this silence has not been followed by a loud one. */
  ghost predicate Pending(c: Config, ps: seq<Poll>, n: nat)
    requires n <= |ps|
  {
    match LastKnock(c, ps, n)
    case None => false
    case Some(q) => SilentFrom(ps, n) <= q < n && KnockAt(c, ps, q) == Some(Quiet)
  }

  /** The fields after n turns, by the turns. */
  ghost predicate IsStateOf(c: Config, ps: seq<Poll>, n: nat, s: State)
    requires n <= |ps|
  {
    var a := SilentFrom(ps, n);
    && s.misses == n - a && (s.failing <==> n - a >= 3)
    && s.failingSince == (if n - a >= 3 then Some(ps[a + 2].missedAt) else None)
    && s.lastRevive == (match LastQuiet(c, ps, n) case None => None case Some(q) => Some(ps[q].now))
    && (s.loudDue.Some? <==> Pending(c, ps, n))
    && (Pending(c, ps, n) ==> s.loudDue == Some(ps[LastKnock(c, ps, n).value].now + c.loudAfterS))
  }

  lemma {:induction false} StateIs(c: Config, ps: seq<Poll>, n: nat)
    requires n <= |ps| && Willing(ps)
    ensures IsStateOf(c, ps, n, After(c, ps, n))
  {
    hide Turn;
    if n > 0 {
      StateIs(c, ps, n - 1);
      WillingTurn(c, After(c, ps, n - 1), ps[n - 1]);
    }
  }

  /** One turn, when both commands are there and no confirming read is answered. */
  lemma {:induction false} WillingTurn(c: Config, s: State, p: Poll)
    requires p.quietThere && p.loudThere && !p.confirms && (s.failing <==> s.failingSince.Some?)
    ensures var (t, knock) := Turn(c, s, p);
            if p.got.Some? then
              t == State(p.got.value, 0, false, None, s.lastRevive, None) && knock.None?
            else
              && t.misses == s.misses + 1
              && t.failingSince == (if s.failing then s.failingSince
                                    else if s.misses + 1 >= 3 then Some(p.missedAt) else None)
              && t.failing == t.failingSince.Some?
              && (s.misses + 1 < 3 ==> t.lastRevive == s.lastRevive && t.loudDue == s.loudDue && knock.None?)
              && (s.misses + 1 >= 3 ==>
                    var loud := s.loudDue.Some? && p.now >= s.loudDue.value && c.loud;
                    var quiet := !loud && c.quiet && p.now - t.failingSince.value >= c.afterS
                                 && (s.lastRevive.Some? ==> p.now - s.lastRevive.value >= c.everyS);
                    && knock == (if loud then Some(Loud) else if quiet then Some(Quiet) else None)
                    && t.lastRevive == (if quiet then Some(p.now) else s.lastRevive)
                    && t.loudDue == (if loud then None else if quiet then Some(p.now + c.loudAfterS) else s.loudDue))
  {
  }

  /**
    When both commands are there and no confirming read is answered, exactly when each knock is made:
    once three reads in a row have failed, a loud one as soon as the last knock of this silence is a
    quiet one `loudAfterS` old; else a quiet one when the third failure is `afterS` old and the last
    quiet knock, of this silence or another, `everyS`.
   */
  lemma {:induction false} KnockExactly(c: Config, ps: seq<Poll>, i: nat)
    requires i < |ps| && Willing(ps)
    ensures var a, now := SilentFrom(ps, i + 1), ps[i].now;
            var loud := a + 2 <= i && c.loud && Pending(c, ps, i)
                        && now >= ps[LastKnock(c, ps, i).value].now + c.loudAfterS;
            && (KnockAt(c, ps, i) == Some(Loud) <==> loud)
            && (KnockAt(c, ps, i) == Some(Quiet) <==>
                  && a + 2 <= i && !loud && c.quiet && now - ps[a + 2].missedAt >= c.afterS
                  && match LastQuiet(c, ps, i) case None => true case Some(q) => now - ps[q].now >= c.everyS)
  {
    hide Turn;
    StateIs(c, ps, i);
    WillingTurn(c, After(c, ps, i), ps[i]);
  }

  /**
    A knock that would be made, were it not for the command or the confirming read: with no command
    nothing comes of it, and an answered read ends the silence as any other does.
   */
  lemma {:induction false} KnockIsStopped(c: Config, s: State, p: Poll)
    requires Turn(c, s, p.(quietThere := true, loudThere := true, confirms := false)).1.Some?
    ensures var (t, knock) := Turn(c, s, p);
            var there := if Turn(c, s, p.(quietThere := true, loudThere := true, confirms := false)).1 == Some(Quiet)
                         then p.quietThere else p.loudThere;
            && (knock.Some? <==> there && !p.confirms)
            && (there && p.confirms ==> t.misses == 0 && !t.failing && t.failingSince.None? && t.loudDue.None?)
            && (!there ==> t.misses == s.misses + 1 && t.failing)
  {
  }
}
