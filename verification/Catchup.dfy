/**
  The catch-up watcher (`catchup.py`): a stream of busy/free readings turned into "say it now".

  `Step` is one tick, `Watcher` the object that takes it, and `EmissionMeaning` says what any
  stream emits without reference to the watcher's state.
 */
module Catchup {
  import opened Wrappers

  /** One answer of free.py: `since` is absent when it is missing or zero. */
  datatype Reading = Reading(free: bool, why: set<string>, since: Option<real>, now: real)

  datatype Spell = Spell(since: real, why: set<string>)

  datatype State = State(spell: Option<Spell>, freeAt: Option<real>)

  const START := State(None, None)

  /** How long free must last after this reason; a reason not in the table counts for nothing. */
  function SettleOf(reason: string): real {
    if reason == "call" then 30.0 else if reason == "quiet" then 60.0 else 0.0
  }

  /** The largest settle among the reasons, 0 with none. */
  function Settle(why: set<string>): (r: real)
    ensures r >= 0.0 && forall w :: w in why ==> SettleOf(w) <= r
    ensures r == 0.0 || exists w :: w in why && SettleOf(w) == r
  {
    if "quiet" in why then assert SettleOf("quiet") == 60.0; 60.0
    else if "call" in why then assert SettleOf("call") == 30.0; 30.0
    else 0.0
  }

  function Since(r: Reading): real {
    match r.since case Some(t) => t case None => r.now
  }

  function Step(s: State, r: Reading): (State, Option<Spell>) {
    if !r.free then
      var spell := match s.spell
        case None => Spell(Since(r), r.why)
        case Some(open) => open.(why := open.why + r.why);
      (State(Some(spell), None), None)
    else if s.spell.None? then (s, None)
    else
      var freeAt := match s.freeAt case None => r.now case Some(t) => t;
      if r.now - freeAt < Settle(s.spell.value.why) then (State(s.spell, Some(freeAt)), None)
      else (START, s.spell)
  }

  class Watcher {
    var spell: Option<Spell>
    var freeAt: Option<real>

    ghost function Now(): State
      reads this
    {
      State(spell, freeAt)
    }

    constructor ()
      ensures Now() == START
    {
      spell, freeAt := None, None;
    }

    method Tick(r: Reading) returns (due: Option<Spell>)
      modifies this
      ensures (Now(), due) == Step(old(Now()), r)
    {
      due := None;
      if !r.free {
        if spell.None? {
          spell := Some(Spell(Since(r), r.why));
        } else {
          spell := Some(spell.value.(why := spell.value.why + r.why));
        }
        freeAt := None;
        return;
      }
      if spell.None? {
        return;
      }
      if freeAt.None? {
        freeAt := Some(r.now);
      }
      if r.now - freeAt.value < Settle(spell.value.why) {
        return;
      }
      due, spell, freeAt := spell, None, None;
    }
  }

  // ---------------------------------------------------------------- streams

  /** The state after the first n readings. */
  function After(rs: seq<Reading>, n: nat): State
    requires n <= |rs|
  {
    if n == 0 then START else Step(After(rs, n - 1), rs[n - 1]).0
  }

  function Emitted(rs: seq<Reading>, i: nat): Option<Spell>
    requires i < |rs|
  {
    Step(After(rs, i), rs[i]).1
  }

  /** The reading after the last emission among the first n. */
  function Open(rs: seq<Reading>, n: nat): (e: nat)
    requires n <= |rs|
    ensures e <= n
  {
    if n == 0 then 0 else if Emitted(rs, n - 1).Some? then n else Open(rs, n - 1)
  }

  /** The reasons of all busy readings from e up to n. */
  function Reasons(rs: seq<Reading>, e: nat, n: nat): set<string>
    requires e <= n <= |rs|
  {
    set j, w | e <= j < n && !rs[j].free && w in rs[j].why :: w
  }

  /** The first busy reading from e up to n. */
  function FirstBusy(rs: seq<Reading>, e: nat, n: nat): (f: Option<nat>)
    requires e <= n <= |rs|
    ensures f.Some? ==> e <= f.value < n && !rs[f.value].free && AllFree(rs, e, f.value)
    ensures f.None? ==> AllFree(rs, e, n)
  {
    if n == e then None
    else
      match FirstBusy(rs, e, n - 1)
      case Some(f) => Some(f)
      case None => if rs[n - 1].free then None else Some(n - 1)
  }

  /** The last busy reading from e up to n. */
  function LastBusy(rs: seq<Reading>, e: nat, n: nat): (b: Option<nat>)
    requires e <= n <= |rs|
    ensures b.Some? ==> e <= b.value < n && !rs[b.value].free && AllFree(rs, b.value + 1, n)
    ensures b.None? ==> AllFree(rs, e, n)
  {
    if n == e then None
    else if !rs[n - 1].free then Some(n - 1)
    else LastBusy(rs, e, n - 1)
  }

  ghost predicate AllFree(rs: seq<Reading>, e: nat, n: nat)
    requires n <= |rs|
  {
    forall j :: e <= j < n ==> rs[j].free
  }

  /** The spell made of the busy readings from e up to n. */
  ghost function SpellOf(rs: seq<Reading>, e: nat, n: nat): Option<Spell>
    requires e <= n <= |rs|
  {
    match FirstBusy(rs, e, n)
    case None => None
    case Some(f) =>
      Some(Spell(if rs[f].since.Some? then rs[f].since.value else rs[f].now, Reasons(rs, e, n)))
  }

  lemma {:induction false} ReasonsStep(rs: seq<Reading>, e: nat, n: nat)
    requires e <= n < |rs|
    ensures Reasons(rs, e, n + 1) == if rs[n].free then Reasons(rs, e, n) else Reasons(rs, e, n) + rs[n].why
    ensures AllFree(rs, e, n) ==> Reasons(rs, e, n) == {}
  {
    forall w | !rs[n].free && w in rs[n].why
      ensures w in Reasons(rs, e, n + 1)
    {
      assert e <= n < n + 1;
    }
  }

  /** Since when it has been free, if it was busy before. */
  ghost function FreeFrom(rs: seq<Reading>, e: nat, n: nat): Option<real>
    requires e <= n <= |rs|
  {
    match LastBusy(rs, e, n)
    case None => None
    case Some(b) => if b + 1 == n then None else Some(rs[b + 1].now)
  }

  lemma {:induction false} SpellStep(rs: seq<Reading>, e: nat, n: nat)
    requires e <= n < |rs|
    ensures SpellOf(rs, e, n + 1) == if rs[n].free then SpellOf(rs, e, n)
              else match SpellOf(rs, e, n)
                   case None => Some(Spell(Since(rs[n]), rs[n].why))
                   case Some(open) => Some(open.(why := open.why + rs[n].why))
  {
    hide Reasons;
    ReasonsStep(rs, e, n);
    assert {} + rs[n].why == rs[n].why;
  }

  lemma {:induction false} FreeStep(rs: seq<Reading>, e: nat, n: nat)
    requires e <= n < |rs|
    ensures SpellOf(rs, e, n).None? ==> FreeFrom(rs, e, n).None?
    ensures FreeFrom(rs, e, n + 1) == if !rs[n].free || SpellOf(rs, e, n).None? then None
                                      else if FreeFrom(rs, e, n).Some? then FreeFrom(rs, e, n) else Some(rs[n].now)
  {
    hide Reasons;
    assert FirstBusy(rs, e, n).None? <==> LastBusy(rs, e, n).None?;
  }

  lemma {:induction false} NothingOpen(rs: seq<Reading>, n: nat)
    requires n <= |rs|
    ensures SpellOf(rs, n, n) == None && FreeFrom(rs, n, n) == None
  {
  }

  /** The watcher's fields, in terms of the readings since the last emission. */
  lemma {:induction false} WatcherTracks(rs: seq<Reading>, n: nat)
    requires n <= |rs|
    ensures var s, e := After(rs, n), Open(rs, n); s == State(SpellOf(rs, e, n), FreeFrom(rs, e, n))
  {
    hide SpellOf, FreeFrom, Settle, Since, Reasons;
    NothingOpen(rs, n);
    if n > 0 {
      WatcherTracks(rs, n - 1);
      var e := Open(rs, n - 1);
      SpellStep(rs, e, n - 1);
      FreeStep(rs, e, n - 1);
    }
  }

  /**
    A reading emits exactly when it is free, some reading since the last emission was busy, and
    free has lasted, from the first free reading after the last busy one, for the largest settle
    among all the reasons since; what it emits begins with the first busy reading and has the
    union of those reasons.
   */
  lemma {:induction false} EmissionMeaning(rs: seq<Reading>, i: nat)
    requires i < |rs|
    ensures var e := Open(rs, i);
      Emitted(rs, i) == match LastBusy(rs, e, i)
        case None => None
        case Some(b) =>
          if rs[i].free && rs[i].now - rs[b + 1].now >= Settle(Reasons(rs, e, i)) then SpellOf(rs, e, i) else None
  {
    hide Reasons, Settle, After, Since;
    WatcherTracks(rs, i);
    SpellOpen(rs, Open(rs, i), i);
  }

  lemma {:induction false} SpellOpen(rs: seq<Reading>, e: nat, n: nat)
    requires e <= n <= |rs|
    ensures match LastBusy(rs, e, n)
            case None => SpellOf(rs, e, n).None? && FreeFrom(rs, e, n).None?
            case Some(b) =>
              && SpellOf(rs, e, n).Some? && SpellOf(rs, e, n).value.why == Reasons(rs, e, n)
              && FreeFrom(rs, e, n) == if b + 1 == n then None else Some(rs[b + 1].now)
  {
    hide Reasons, Since;
    assert FirstBusy(rs, e, n).Some? <==> LastBusy(rs, e, n).Some?;
  }

  /** Some busy reading from e up to n gives this reason. */
  ghost predicate Gave(rs: seq<Reading>, e: nat, n: nat, reason: string)
    requires e <= n <= |rs|
  {
    exists j :: e <= j < n && !rs[j].free && reason in rs[j].why
  }

  /** How long free has to last: a minute after a quiet ringer, half of one after a call, else no time. */
  lemma {:induction false} SettlesIn(rs: seq<Reading>, i: nat)
    requires i < |rs|
    ensures var e := Open(rs, i);
            Emitted(rs, i).Some? <==>
              && rs[i].free && LastBusy(rs, e, i).Some?
              && rs[i].now >= rs[LastBusy(rs, e, i).value + 1].now
                              + if Gave(rs, e, i, "quiet") then 60.0 else if Gave(rs, e, i, "call") then 30.0 else 0.0
  {
    var e := Open(rs, i);
    EmissionMeaning(rs, i);
    ReasonGiven(rs, e, i, "quiet");
    ReasonGiven(rs, e, i, "call");
  }

  lemma {:induction false} ReasonGiven(rs: seq<Reading>, e: nat, n: nat, reason: string)
    requires e <= n <= |rs|
    ensures reason in Reasons(rs, e, n) <==> Gave(rs, e, n, reason)
  {
  }

  lemma {:induction false} OpenIsLastEmission(rs: seq<Reading>, n: nat, i: nat)
    requires i < n <= |rs|
    ensures Emitted(rs, i).Some? ==> i < Open(rs, n)
  {
    if i < n - 1 {
      OpenIsLastEmission(rs, n - 1, i);
    }
  }

  /** Once per spell: between two emissions there is a busy reading. */
  lemma {:induction false} OncePerSpell(rs: seq<Reading>, i: nat, j: nat) returns (b: nat)
    requires i < j < |rs| && Emitted(rs, i).Some? && Emitted(rs, j).Some?
    ensures i < b < j && !rs[b].free
  {
    EmissionMeaning(rs, j);
    OpenIsLastEmission(rs, j, i);
    b := LastBusy(rs, Open(rs, j), j).value;
  }

  lemma {:induction false} OpenBelow(rs: seq<Reading>, n: nat, b: nat)
    requires b <= n <= |rs| && forall k :: b <= k < n ==> Emitted(rs, k).None?
    ensures Open(rs, n) <= b
  {
    if b < n {
      OpenBelow(rs, n - 1, b);
    }
  }

  /** No spell is lost: free for the longest settle after a busy reading, and it was emitted. */
  lemma {:induction false} EverySpellIsSaid(rs: seq<Reading>, b: nat, i: nat) returns (k: nat)
    requires b < i < |rs| && !rs[b].free && AllFree(rs, b + 1, i + 1)
    requires rs[i].now - rs[b + 1].now >= 60.0
    ensures b < k <= i && Emitted(rs, k).Some?
    ensures forall j :: b < j <= i && j != k ==> Emitted(rs, j).None?
  {
    if k0 :| b < k0 < i && Emitted(rs, k0).Some? {
      k := k0;
    } else {
      OpenBelow(rs, i, b);
      LastBusyIs(rs, Open(rs, i), i, b);
      EmissionMeaning(rs, i);
      k := i;
    }
    forall j | b < j <= i && j != k
      ensures Emitted(rs, j).None?
    {
      if Emitted(rs, j).Some? {
        var x := OncePerSpell(rs, if j < k then j else k, if j < k then k else j);
      }
    }
  }

  lemma {:induction false} LastBusyIs(rs: seq<Reading>, e: nat, n: nat, b: nat)
    requires e <= b < n <= |rs| && !rs[b].free && AllFree(rs, b + 1, n)
    ensures LastBusy(rs, e, n) == Some(b)
  {
    if b < n - 1 {
      LastBusyIs(rs, e, n - 1, b);
    }
  }
}
