/**
  The archive sweep (`_archived` and its use in `sync_tags`, book_tracks.py) on one server, among
  turns that come, hands in the app that put the tag on and off, and patches that fail.
 */
module Archive {
  import opened Wrappers

  const ARCHIVED := "archived"

  function Without(tags: seq<string>): (r: seq<string>)
    ensures ARCHIVED !in r && forall t :: t != ARCHIVED ==> (t in r <==> t in tags)
  {
    if tags == [] then []
    else Without(tags[..|tags| - 1]) + if tags[|tags| - 1] == ARCHIVED then [] else [tags[|tags| - 1]]
  }

  /** `last` is the newest turn's time, 0 with none; `afterS` how long quiet must last. */
  function Archived(have: seq<string>, last: real, through: Option<real>, live: bool, now: real, afterS: real)
    : (seq<string>, Option<real>)
  {
    var tags := Without(have);
    if through.Some? && last > through.value then (tags, None)
    else if ARCHIVED in have then (tags + [ARCHIVED], if through.None? then Some(last) else through)
    else if through.None? && last != 0.0 && !live && now - last >= afterS then (tags + [ARCHIVED], Some(last))
    else (tags, through)
  }

  // ---------------------------------------------------------------- runs

  datatype State = State(tags: seq<string>, last: real, through: Option<real>)

  /** A turn lands, someone sets the tags, or a sweep runs, whose patch may not reach the server. */
  datatype Step = TurnAt(at: real) | Hand(tags: seq<string>) | Sweep(live: bool, now: real, patched: bool)

  function Next(s: State, step: Step, afterS: real): State {
    match step
    case TurnAt(at) => s.(last := if at > s.last then at else s.last)
    case Hand(tags) => s.(tags := tags)
    case Sweep(live, now, patched) =>
      var (tags, through) := Archived(s.tags, s.last, s.through, live, now, afterS);
      s.(tags := if patched then tags else s.tags, through := through)
  }

  function After(s: State, steps: seq<Step>, n: nat, afterS: real): State
    requires n <= |steps|
  {
    if n == 0 then s else Next(After(s, steps, n - 1, afterS), steps[n - 1], afterS)
  }

  predicate Tagged(s: State) {
    ARCHIVED in s.tags
  }

  /** Step k is a sweep that puts the tag on, or takes it off. */
  predicate PutsOn(s: State, steps: seq<Step>, k: nat, afterS: real)
    requires k < |steps|
  {
    var a := After(s, steps, k, afterS);
    steps[k].Sweep? && !Tagged(a) && Tagged(Next(a, steps[k], afterS))
  }

  predicate TakesOff(s: State, steps: seq<Step>, k: nat, afterS: real)
    requires k < |steps|
  {
    var a := After(s, steps, k, afterS);
    steps[k].Sweep? && Tagged(a) && !Tagged(Next(a, steps[k], afterS))
  }

  /** The sweep touches no other tag. */
  lemma {:induction false} OtherTagsStay(s: State, step: Step, afterS: real, t: string)
    requires step.Sweep? && t != ARCHIVED
    ensures t in Next(s, step, afterS).tags <==> t in s.tags
  {
  }

  /** What a sweep would archive, its patch aside. */
  predicate Eligible(s: State, step: Step, afterS: real) {
    step.Sweep? && s.through.None? && s.last != 0.0 && !step.live && step.now - s.last >= afterS
  }

  /** A sweep archives exactly what is not, is closed, has been quiet, is not on record, and its patch reaches. */
  lemma {:induction false} PutsOnMeans(s: State, steps: seq<Step>, k: nat, afterS: real)
    requires k < |steps|
    ensures var a := After(s, steps, k, afterS);
            PutsOn(s, steps, k, afterS) <==> !Tagged(a) && Eligible(a, steps[k], afterS) && steps[k].patched
    ensures var a := After(s, steps, k, afterS);
            !Tagged(a) && Eligible(a, steps[k], afterS) ==> Next(a, steps[k], afterS).through == Some(a.last)
  {
  }

  /** It brings back exactly what is archived, has a turn newer than its record, and its patch reaches. */
  lemma {:induction false} TakesOffMeans(s: State, steps: seq<Step>, k: nat, afterS: real)
    requires k < |steps|
    ensures var a := After(s, steps, k, afterS);
            TakesOff(s, steps, k, afterS)
            <==> steps[k].Sweep? && Tagged(a) && a.through.Some? && a.last > a.through.value && steps[k].patched
  {
  }

  /** Once archived at a turn, the record of that stays until a newer turn. */
  lemma {:induction false} RecordStays(s: State, steps: seq<Step>, i: nat, n: nat, afterS: real)
    requires i <= n <= |steps| && After(s, steps, i, afterS).through == Some(After(s, steps, i, afterS).last)
    ensures var a, b := After(s, steps, i, afterS), After(s, steps, n, afterS);
            b.last > a.last || (b.last == a.last && b.through == a.through)
  {
    hide Without;
    if i < n {
      RecordStays(s, steps, i, n - 1, afterS);
    }
  }

  /** No turn is archived twice: whatever hands do in between, the second time there is a newer one. */
  lemma {:induction false} ArchivedOnceATurn(s: State, steps: seq<Step>, i: nat, j: nat, afterS: real)
    requires i < j < |steps| && PutsOn(s, steps, i, afterS) && PutsOn(s, steps, j, afterS)
    ensures After(s, steps, j, afterS).last > After(s, steps, i, afterS).last
  {
    var m := i + 1;
    PutsOnMeans(s, steps, i, afterS);
    PutsOnMeans(s, steps, j, afterS);
    RecordStays(s, steps, m, j, afterS);
  }

  /** What a hand takes off once it is on record, no sweep puts on again until there is a newer turn. */
  lemma {:induction false} HandStands(s: State, steps: seq<Step>, n: nat, afterS: real)
    requires n <= |steps| && !Tagged(s) && s.through == Some(s.last)
    requires forall k :: 0 <= k < n ==> !steps[k].Hand?
    ensures After(s, steps, n, afterS).last > s.last || !Tagged(After(s, steps, n, afterS))
  {
    hide Without;
    if n > 0 {
      HandStands(s, steps, n - 1, afterS);
      RecordStays(s, steps, 0, n - 1, afterS);
    }
  }

  /** What a hand puts on is taken as archived at its last turn, so a newer one brings it back. */
  lemma {:induction false} HandIsAdopted(s: State, live: bool, now: real, patched: bool, at: real, afterS: real)
    requires Tagged(s) && s.through.None? && at > s.last
    ensures var a := Next(s, Sweep(live, now, patched), afterS);
            && Tagged(a) && a.through == Some(s.last)
            && !Tagged(Next(Next(a, TurnAt(at), afterS), Sweep(live, now, true), afterS))
  {
  }

  // ---------------------------------------------------------------- one patch decides

  ghost predicate Sweeps(steps: seq<Step>) {
    forall k :: 0 <= k < |steps| ==> steps[k].Sweep?
  }

  /** Sweeps alone change nothing of what is on record at its last turn: neither the tag nor the record. */
  lemma {:induction false} OnRecordStays(s: State, steps: seq<Step>, n: nat, afterS: real)
    requires n <= |steps| && Sweeps(steps) && s.through.Some? && s.last <= s.through.value
    ensures var a := After(s, steps, n, afterS);
            a.last == s.last && a.through == s.through && (Tagged(a) <==> Tagged(s))
  {
    hide Without;
    if n > 0 {
      OnRecordStays(s, steps, n - 1, afterS);
    }
  }

  lemma {:induction false} SweepsSplit(s: State, steps: seq<Step>, k: nat, n: nat, afterS: real)
    requires k <= n <= |steps|
    ensures After(s, steps, n, afterS) == After(After(s, steps, k, afterS), steps[k..], n - k, afterS)
  {
    if k < n {
      SweepsSplit(s, steps, k, n - 1, afterS);
    }
  }

  /** A conversation that no sweep would archive yet stays as it is. */
  lemma {:induction false} NotYet(s: State, steps: seq<Step>, k: nat, afterS: real)
    requires k <= |steps| && Sweeps(steps) && !Tagged(s) && s.through.None?
    requires forall i :: 0 <= i < k ==> !Eligible(s, steps[i], afterS)
    ensures var a := After(s, steps, k, afterS); a.last == s.last && a.through.None? && !Tagged(a)
  {
    hide Without;
    if k > 0 {
      NotYet(s, steps, k - 1, afterS);
    }
  }

  lemma {:induction false} SameEligible(s: State, a: State, step: Step, afterS: real)
    requires a.last == s.last && a.through == s.through
    ensures Eligible(a, step, afterS) <==> Eligible(s, step, afterS)
  {
  }

  lemma {:induction false} EligibleSweep(s: State, step: Step, afterS: real)
    requires !Tagged(s) && Eligible(s, step, afterS)
    ensures var a := Next(s, step, afterS);
            a.last == s.last && a.through == Some(s.last) && (Tagged(a) <==> step.patched)
  {
  }

  lemma {:induction false} NewerSweep(s: State, step: Step, afterS: real)
    requires Tagged(s) && step.Sweep? && s.through.Some? && s.last > s.through.value
    ensures var a := Next(s, step, afterS); a.last == s.last && a.through.None? && (Tagged(a) <==> !step.patched)
  {
  }

  lemma {:induction false} AdoptingSweep(s: State, step: Step, afterS: real)
    requires Tagged(s) && step.Sweep? && s.through.None?
    ensures var a := Next(s, step, afterS); a.last == s.last && a.through == Some(s.last) && Tagged(a)
  {
  }

  /** One sweep decides: it writes its record whether or not its patch lands, and no later one tries again. */
  lemma {:induction false} FirstPatchDecides(s: State, steps: seq<Step>, k: nat, n: nat, afterS: real)
    requires !Tagged(s) && s.through.None? && Sweeps(steps) && k < n <= |steps|
    requires forall i :: 0 <= i < k ==> !Eligible(s, steps[i], afterS)
    requires Eligible(s, steps[k], afterS)
    ensures Tagged(After(s, steps, n, afterS)) <==> steps[k].patched
  {
    hide Next, Eligible;
    var m, b := k + 1, After(s, steps, k, afterS);
    NotYet(s, steps, k, afterS);
    SameEligible(s, b, steps[k], afterS);
    EligibleSweep(b, steps[k], afterS);
    var a := After(s, steps, m, afterS);
    SweepsSplit(s, steps, m, n, afterS);
    OnRecordStays(a, steps[m..], n - m, afterS);
  }

  /** On record as archived, with a turn since. */
  predicate Outdated(s: State) {
    s.through.Some? && s.last > s.through.value
  }

  /**
    Sweep k would archive an untagged conversation, were its patch to land. One whose record is out of
    date first loses that record, to sweep 0; one on record at its last turn is never archived again.
   */
  predicate Tries(s: State, steps: seq<Step>, k: nat, afterS: real)
    requires k < |steps|
  {
    if Outdated(s) then k > 0 && Eligible(s.(through := None), steps[k], afterS) else Eligible(s, steps[k], afterS)
  }

  ghost predicate FirstTries(s: State, steps: seq<Step>, k: nat, afterS: real) {
    && k < |steps| && Tries(s, steps, k, afterS)
    && forall i: nat :: i < k ==> !Tries(s, steps, i, afterS)
  }

  /** The first of n sweeps that would archive it reaches the server. */
  ghost predicate FirstLands(s: State, steps: seq<Step>, n: nat, afterS: real) {
    exists k: nat :: k < n && FirstTries(s, steps, k, afterS) && steps[k].patched
  }

  lemma {:induction false} FirstOfThem(s: State, steps: seq<Step>, n: nat, afterS: real) returns (k: nat)
    requires n <= |steps|
    ensures k <= n && (k < n ==> FirstTries(s, steps, k, afterS))
    ensures k == n ==> forall i: nat :: i < n ==> !Tries(s, steps, i, afterS)
  {
    hide Tries;
    k := 0;
    if n > 0 {
      k := FirstOfThem(s, steps, n - 1, afterS);
      if k == n - 1 && !Tries(s, steps, k, afterS) {
        k := n;
      }
    }
  }

  /**
    Between two turns, hands aside, any untagged conversation is archived exactly when the patch of the
    first sweep that would archive it reaches the server.
   */
  lemma {:induction false} ArchivedExactly(s: State, steps: seq<Step>, n: nat, afterS: real)
    requires !Tagged(s) && Sweeps(steps) && n <= |steps|
    ensures Tagged(After(s, steps, n, afterS)) <==> FirstLands(s, steps, n, afterS)
  {
    hide Next, Eligible, After;
    var k := FirstOfThem(s, steps, n, afterS);
    if s.through.None? {
      UnrecordedExactly(s, steps, k, n, afterS);
    } else if Outdated(s) && n > 0 {
      OutdatedExactly(s, steps, k, n, afterS);
    } else {
      NoSweep(s, steps, afterS);
      RecordedIsNotEligible(s, steps, n, afterS);
      if !Outdated(s) {
        OnRecordStays(s, steps, n, afterS);
      }
    }
    assert forall i: nat :: i < n && FirstTries(s, steps, i, afterS) ==> i == k;
  }

  lemma {:induction false} NoSweep(s: State, steps: seq<Step>, afterS: real)
    ensures After(s, steps, 0, afterS) == s
  {
  }

  lemma {:induction false} RecordedIsNotEligible(s: State, steps: seq<Step>, n: nat, afterS: real)
    requires s.through.Some? && n <= |steps| && (Outdated(s) ==> n == 0)
    ensures forall i: nat :: i < n ==> !Tries(s, steps, i, afterS)
  {
  }

  lemma {:induction false} UnrecordedExactly(s: State, steps: seq<Step>, k: nat, n: nat, afterS: real)
    requires !Tagged(s) && s.through.None? && Sweeps(steps) && k <= n <= |steps|
    requires forall i: nat :: i < k ==> !Tries(s, steps, i, afterS)
    requires k < n ==> Tries(s, steps, k, afterS)
    ensures Tagged(After(s, steps, n, afterS)) <==> k < n && steps[k].patched
  {
    hide Next, Eligible, After;
    forall i | 0 <= i < k ensures !Eligible(s, steps[i], afterS) {
      assert !Tries(s, steps, i, afterS);
    }
    if k < n {
      FirstPatchDecides(s, steps, k, n, afterS);
    } else {
      NotYet(s, steps, n, afterS);
    }
  }

  lemma {:induction false} OutdatedExactly(s: State, steps: seq<Step>, k: nat, n: nat, afterS: real)
    requires !Tagged(s) && Outdated(s) && Sweeps(steps) && 0 < n <= |steps| && k <= n
    requires forall i: nat :: i < k ==> !Tries(s, steps, i, afterS)
    requires k < n ==> Tries(s, steps, k, afterS)
    ensures Tagged(After(s, steps, n, afterS)) <==> k < n && steps[k].patched
  {
    hide Next, Eligible, After;
    var a, later := Next(s, steps[0], afterS), steps[1..];
    ClearingSweep(s, steps[0], afterS);
    AfterFirst(s, steps, n, afterS);
    assert !Tries(s, steps, 0, afterS);
    forall i: nat | i < |later| ensures Tries(a, later, i, afterS) <==> Tries(s, steps, i + 1, afterS) {
      SameEligible(s.(through := None), a, later[i], afterS);
    }
    UnrecordedExactly(a, later, k - 1, n - 1, afterS);
  }

  lemma {:induction false} ClearingSweep(s: State, step: Step, afterS: real)
    requires !Tagged(s) && Outdated(s) && step.Sweep?
    ensures var a := Next(s, step, afterS); a.last == s.last && a.through.None? && !Tagged(a)
  {
  }

  lemma {:induction false} AfterFirst(s: State, steps: seq<Step>, n: nat, afterS: real)
    requires 0 < n <= |steps|
    ensures After(s, steps, n, afterS) == After(Next(s, steps[0], afterS), steps[1..], n - 1, afterS)
  {
    hide Next;
    assert After(s, steps, 0, afterS) == s && After(s, steps, 1, afterS) == Next(s, steps[0], afterS);
    SweepsSplit(s, steps, 1, n, afterS);
  }

  /**
    And any tagged one is without the tag exactly when it had a turn since its record, the patch of
    the next sweep reached the server, and it was not archived again since then; the sweep after a
    failed one takes the tag for a hand's, and adopts it.
   */
  lemma {:induction false} BroughtBackExactly(s: State, steps: seq<Step>, n: nat, afterS: real)
    requires Tagged(s) && Sweeps(steps) && n <= |steps|
    ensures !Tagged(After(s, steps, n, afterS)) <==>
            && Outdated(s) && n > 0 && steps[0].patched
            && !FirstLands(Next(s, steps[0], afterS), steps[1..], n - 1, afterS)
  {
    hide Next, Eligible, After, FirstLands;
    NoSweep(s, steps, afterS);
    if n > 0 {
      var a, later := Next(s, steps[0], afterS), steps[1..];
      AfterFirst(s, steps, n, afterS);
      if !Outdated(s) {
        TagStays(s, steps, n, afterS);
      } else {
        NewerSweep(s, steps[0], afterS);
        if steps[0].patched {
          ArchivedExactly(a, later, n - 1, afterS);
        } else {
          TagStays(a, later, n - 1, afterS);
        }
      }
    }
  }

  lemma {:induction false} TagStays(s: State, steps: seq<Step>, n: nat, afterS: real)
    requires Tagged(s) && !Outdated(s) && Sweeps(steps) && n <= |steps|
    ensures Tagged(After(s, steps, n, afterS))
  {
    hide Next, After;
    NoSweep(s, steps, afterS);
    if s.through.Some? {
      OnRecordStays(s, steps, n, afterS);
    } else if n > 0 {
      AdoptingSweep(s, steps[0], afterS);
      AfterFirst(s, steps, n, afterS);
      OnRecordStays(Next(s, steps[0], afterS), steps[1..], n - 1, afterS);
    }
  }

  /**
    A sweep whose patch fails has still written its record: the conversation is then archived
    nowhere, and no later sweep archives it until it has another turn.
   */
  lemma {:induction false} FailedPatchIsForgotten(s: State, now: real, steps: seq<Step>, n: nat, afterS: real)
    requires !Tagged(s) && s.through.None? && s.last != 0.0 && now - s.last >= afterS
    requires n <= |steps| && forall k :: 0 <= k < n ==> !steps[k].Hand?
    ensures var a := Next(s, Sweep(false, now, false), afterS);
            After(a, steps, n, afterS).last > s.last || !Tagged(After(a, steps, n, afterS))
  {
    HandStands(Next(s, Sweep(false, now, false), afterS), steps, n, afterS);
  }
}
