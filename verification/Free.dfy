/**
  "Can David be spoken to now?" (`free.py`): devices report, the answer is computed from what is
  still fresh, and a spell of being busy is named by the time it began.

  The main results speak of arbitrary histories of reports and of presses of "speak as it comes".
 */
module Free {
  import opened Wrappers

  const STALE_S := 300.0

  datatype Reason = Call | Quiet | Meeting | Manual

  /** What a device sends; absent keys are None. */
  datatype Fields = Fields(call: Option<bool>, voice: Option<bool>, quiet: Option<bool>, quietReplies: Option<bool>,
                           meetingUntil: Option<real>, manualUntil: Option<real>, quietKind: Option<string>)

  type End = r: real | r >= 0.0

  /** A cleaned report; an end that was not kept reads as 0. */
  datatype Rep = Rep(call: bool, quiet: bool, quietReplies: bool, meetingUntil: End, manualUntil: End,
                     quietKind: Option<string>, at: real)

  /** The state file; the devices are in the order they first reported. */
  datatype Data = Data(devices: seq<(string, Rep)>, busySince: Option<real>, speakSpell: Option<Option<real>>)

  datatype Answer = Answer(free: bool, why: seq<Reason>, since: Option<real>, until: Option<real>, age: Option<nat>,
                           speaking: bool, quietReplies: bool, quietKind: Option<string>)

  const EMPTY := Data([], None, None)

  // ---------------------------------------------------------------- reports

  function Positive(v: Option<real>): End {
    if v.Some? && v.value > 0.0 then v.value else 0.0
  }

  function Clean(f: Fields, now: real): Rep {
    Rep(f.call == Some(true) || f.voice == Some(true), f.quiet == Some(true), f.quietReplies != Some(false),
        Positive(f.meetingUntil), Positive(f.manualUntil),
        if f.quiet == Some(true) && f.quietKind.Some? && f.quietKind.value in {"dnd", "silent", "vibrate"}
        then f.quietKind else None, now)
  }

  function Name(device: string): string {
    if device == "" then "device" else device
  }

  /** A device keeps its place in the dictionary when it reports again. */
  function Put(devices: seq<(string, Rep)>, name: string, rep: Rep): seq<(string, Rep)> {
    if devices == [] then [(name, rep)]
    else if devices[0].0 == name then [(name, rep)] + devices[1..]
    else [devices[0]] + Put(devices[1..], name, rep)
  }

  // ---------------------------------------------------------------- the answer

  function Reasons(rep: Rep, now: real): set<Reason> {
    (if rep.call then {Call} else {}) + (if rep.quiet then {Quiet} else {})
    + (if rep.meetingUntil > now then {Meeting} else {}) + (if rep.manualUntil > now then {Manual} else {})
  }

  predicate Fresh(rep: Rep, now: real) {
    now - rep.at <= STALE_S
  }

  /** The i-th device gives this reason now. */
  predicate Gives(devices: seq<(string, Rep)>, i: nat, r: Reason, now: real)
    requires i < |devices|
  {
    Fresh(devices[i].1, now) && r in Reasons(devices[i].1, now)
  }

  /** The reasons the first n devices give. */
  function WhyOf(devices: seq<(string, Rep)>, n: nat, now: real): set<Reason>
    requires n <= |devices|
  {
    set i, r | 0 <= i < n && r in {Call, Quiet, Meeting, Manual} && Gives(devices, i, r, now) :: r
  }

  function Why(d: Data, now: real): set<Reason> {
    WhyOf(d.devices, |d.devices|, now)
  }

  predicate Busy(d: Data, now: real) {
    Why(d, now) != {}
  }

  lemma {:induction false} OneOfFour(why: set<Reason>)
    ensures forall r :: r in why ==> r in {Call, Quiet, Meeting, Manual}
  {
    forall r | r in why
      ensures r in {Call, Quiet, Meeting, Manual}
    {
      match r
      case Call =>
      case Quiet =>
      case Meeting =>
      case Manual =>
    }
  }

  /** The order reasons are listed in. */
  function Rank(r: Reason): nat {
    match r
    case Call => 0
    case Quiet => 1
    case Meeting => 2
    case Manual => 3
  }

  function Ordered(why: set<Reason>): (s: seq<Reason>)
    ensures forall r :: r in s <==> r in why
    ensures forall i, j :: 0 <= i < j < |s| ==> Rank(s[i]) < Rank(s[j])
    ensures s == [] <==> why == {}
  {
    OneOfFour(why);
    (if Call in why then [Call] else []) + (if Quiet in why then [Quiet] else [])
    + (if Meeting in why then [Meeting] else []) + (if Manual in why then [Manual] else [])
  }

  function EndOf(rep: Rep, r: Reason): End {
    if r == Meeting then rep.meetingUntil else rep.manualUntil
  }

  ghost predicate Ends(devices: seq<(string, Rep)>, n: nat, now: real, e: real)
    requires n <= |devices|
  {
    exists i: nat, r :: i < n && r in {Meeting, Manual} && Gives(devices, i, r, now) && EndOf(devices[i].1, r) == e
  }

  /** `e` is the latest end among the meetings and manual holds in force at the first n devices. */
  ghost predicate LatestEnd(devices: seq<(string, Rep)>, n: nat, now: real, e: real)
    requires n <= |devices|
  {
    Ends(devices, n, now, e) && forall x :: Ends(devices, n, now, x) ==> x <= e
  }

  /** The i-th device is quiet and says which quiet. */
  predicate NamesKind(devices: seq<(string, Rep)>, i: nat, now: real)
    requires i < |devices|
  {
    var rep := devices[i].1;
    Gives(devices, i, Quiet, now) && rep.quietKind.Some? && rep.at > -1.0
  }

  /** Of the first n devices that name their quiet, the i-th reported last, and before its equals. */
  ghost predicate FreshestKind(devices: seq<(string, Rep)>, n: nat, now: real, i: nat)
    requires n <= |devices|
  {
    && i < n && NamesKind(devices, i, now)
    && forall j :: 0 <= j < n && NamesKind(devices, j, now) ==>
         devices[j].1.at < devices[i].1.at || (devices[j].1.at == devices[i].1.at && i <= j)
  }

  ghost predicate KindIs(devices: seq<(string, Rep)>, n: nat, now: real, kind: Option<string>)
    requires n <= |devices|
  {
    if kind.None? then forall j :: 0 <= j < n ==> !NamesKind(devices, j, now)
    else exists i: nat :: FreshestKind(devices, n, now, i) && devices[i].1.quietKind == kind
  }

  /** Some quiet device among the first n holds replies too. */
  ghost predicate HoldsReplies(devices: seq<(string, Rep)>, n: nat, now: real)
    requires n <= |devices|
  {
    exists j :: 0 <= j < n && Gives(devices, j, Quiet, now) && devices[j].1.quietReplies
  }

  /** `at` is the latest report of the first n devices, stale or not. */
  ghost predicate LatestReport(devices: seq<(string, Rep)>, n: nat, at: Option<real>)
    requires n <= |devices|
  {
    match at
    case None => n == 0
    case Some(t) =>
      (exists i :: 0 <= i < n && devices[i].1.at == t) && forall i :: 0 <= i < n ==> devices[i].1.at <= t
  }

  /** Whole seconds since a report, none for one from the future. */
  function Age(at: real, now: real): (age: nat)
    ensures now <= at ==> age == 0
    ensures now > at ==> age as real <= now - at < age as real + 1.0
  {
    if now > at then (now - at).Floor else 0
  }

  ghost predicate AgeIs(devices: seq<(string, Rep)>, n: nat, now: real, age: Option<nat>)
    requires n <= |devices|
  {
    if age.None? then LatestReport(devices, n, None)
    else exists t :: LatestReport(devices, n, Some(t)) && age.value == Age(t, now)
  }

  /** Everything an answer says, in terms of the devices. */
  ghost predicate AnswerMeans(d: Data, now: real, a: Answer) {
    var why, n := Why(d, now), |d.devices|;
    && (a.free <==> !Busy(d, now))
    && a.why == Ordered(why)
    && a.since == (if a.free then None else d.busySince)
    && (a.speaking <==> !a.free && d.speakSpell == Some(d.busySince))
    && (a.until.Some? <==> why != {} && Call !in why && Quiet !in why)
    && (a.until.Some? ==> LatestEnd(d.devices, n, now, a.until.value))
    && (a.quietReplies <==> (Quiet !in why || HoldsReplies(d.devices, n, now)))
    && KindIs(d.devices, n, now, a.quietKind)
    && AgeIs(d.devices, n, now, a.age)
  }

  /** The file, and the functions that load, change and save it. */
  class DeviceState {
    var devices: seq<(string, Rep)>
    var busySince: Option<real>
    var speakSpell: Option<Option<real>>

    ghost function Now(): Data
      reads this
    {
      Data(devices, busySince, speakSpell)
    }

    constructor ()
      ensures Now() == EMPTY
    {
      devices, busySince, speakSpell := [], None, None;
    }

    method Report(device: string, fields: Fields, now: real) returns (a: Answer)
      modifies this
      ensures Now() == Reported(old(Now()), device, fields, now)
      ensures AnswerMeans(Now(), now, a)
    {
      var was := GiveAnswer(Data(devices, busySince, speakSpell), now);
      devices := Put(devices, Name(device), Clean(fields, now));
      var after := GiveAnswer(Data(devices, busySince, speakSpell), now);
      if !after.free && was.free {
        busySince := Some(now);
      } else if after.free {
        busySince, speakSpell := None, None;
      }
      a := GiveAnswer(Data(devices, busySince, speakSpell), now);
    }

    method Speak(now: real) returns (a: Answer)
      modifies this
      ensures Now() == Spoken(old(Now()), now)
      ensures AnswerMeans(Now(), now, a)
    {
      var before := GiveAnswer(Data(devices, busySince, speakSpell), now);
      if !before.free {
        speakSpell := Some(busySince);
      }
      a := GiveAnswer(Data(devices, busySince, speakSpell), now);
    }
  }

  lemma {:induction false} WhyStep(devices: seq<(string, Rep)>, n: nat, now: real)
    requires n < |devices|
    ensures WhyOf(devices, n + 1, now)
         == WhyOf(devices, n, now) + if Fresh(devices[n].1, now) then Reasons(devices[n].1, now) else {}
  {
    var m := n + 1;
    forall r: Reason
      ensures r in WhyOf(devices, m, now) <==> r in WhyOf(devices, n, now) || Gives(devices, n, r, now)
    {
      if Gives(devices, n, r, now) {
        assert 0 <= n < m && r in {Call, Quiet, Meeting, Manual};
      }
      if r in WhyOf(devices, n, now) {
        var i: nat :| i < n && Gives(devices, i, r, now);
        assert 0 <= i < m && r in {Call, Quiet, Meeting, Manual};
      }
    }
  }

  lemma {:induction false} EndsStep(devices: seq<(string, Rep)>, n: nat, now: real, x: real)
    requires n < |devices|
    ensures Ends(devices, n + 1, now, x) <==>
      (Ends(devices, n, now, x)
      || (Gives(devices, n, Meeting, now) && x == devices[n].1.meetingUntil)
      || (Gives(devices, n, Manual, now) && x == devices[n].1.manualUntil))
  {
    if Gives(devices, n, Meeting, now) && x == devices[n].1.meetingUntil {
      assert 0 <= n < n + 1 && Meeting in {Meeting, Manual} && EndOf(devices[n].1, Meeting) == x;
    }
    if Gives(devices, n, Manual, now) && x == devices[n].1.manualUntil {
      assert 0 <= n < n + 1 && Manual in {Meeting, Manual} && EndOf(devices[n].1, Manual) == x;
    }
  }

  function Later(a: real, b: real): real {
    if a < b then b else a
  }

  /** The end after one more device. */
  function NextEnd(until: real, rep: Rep, r: set<Reason>): real {
    var u := if Meeting in r then Later(until, rep.meetingUntil) else until;
    if Manual in r then Later(u, rep.manualUntil) else u
  }

  /** `until` is 0 while nothing has an end, and the latest end after that. */
  ghost predicate Until(devices: seq<(string, Rep)>, n: nat, now: real, until: real)
    requires n <= |devices|
  {
    (until == 0.0 && forall x :: !Ends(devices, n, now, x)) || LatestEnd(devices, n, now, until)
  }

  lemma {:induction false} UntilStep(devices: seq<(string, Rep)>, n: nat, now: real, until: real)
    requires n < |devices| && Until(devices, n, now, until)
    ensures Until(devices, n + 1, now,
      if Fresh(devices[n].1, now) then NextEnd(until, devices[n].1, Reasons(devices[n].1, now)) else until)
  {
    var rep, m := devices[n].1, n + 1;
    forall x: real
      ensures Ends(devices, m, now, x) <==>
        (Ends(devices, n, now, x) || (Gives(devices, n, Meeting, now) && x == rep.meetingUntil)
        || (Gives(devices, n, Manual, now) && x == rep.manualUntil))
    {
      EndsStep(devices, n, now, x);
    }
    if Gives(devices, n, Meeting, now) {
      assert Ends(devices, m, now, rep.meetingUntil);
    }
    if Gives(devices, n, Manual, now) {
      assert Ends(devices, m, now, rep.manualUntil);
    }
  }

  /** The freshest of the first n devices to name its quiet says `kind`, and reported at `at`. */
  ghost predicate FreshestSays(devices: seq<(string, Rep)>, n: nat, now: real, kind: Option<string>, at: real)
    requires n <= |devices|
  {
    exists i: nat :: FreshestKind(devices, n, now, i) && devices[i].1.quietKind == kind && devices[i].1.at == at
  }

  lemma {:induction false} KindStep(devices: seq<(string, Rep)>, n: nat, now: real, kind: Option<string>, at: real)
    requires n < |devices|
    requires if kind.None? then at == -1.0 && KindIs(devices, n, now, None)
             else FreshestSays(devices, n, now, kind, at)
    ensures var rep := devices[n].1;
      var better := Gives(devices, n, Quiet, now) && rep.quietKind.Some? && rep.at > at;
      var kind', at' := if better then rep.quietKind else kind, if better then rep.at else at;
      if kind'.None? then at' == -1.0 && KindIs(devices, n + 1, now, None)
      else FreshestSays(devices, n + 1, now, kind', at')
  {
    var rep := devices[n].1;
    if Gives(devices, n, Quiet, now) && rep.quietKind.Some? && rep.at > at {
      if kind.Some? {
        var i: nat :| FreshestKind(devices, n, now, i) && devices[i].1.quietKind == kind && devices[i].1.at == at;
        assert rep.at > at > -1.0;
      }
      assert FreshestKind(devices, n + 1, now, n);
    } else if kind.Some? {
      var i: nat :| FreshestKind(devices, n, now, i) && devices[i].1.quietKind == kind && devices[i].1.at == at;
      assert FreshestKind(devices, n + 1, now, i);
    }
  }

  lemma {:induction false} AnEndIsGiven(devices: seq<(string, Rep)>, n: nat, now: real)
    requires n <= |devices|
    ensures (exists x :: Ends(devices, n, now, x)) <==>
            Meeting in WhyOf(devices, n, now) || Manual in WhyOf(devices, n, now)
  {
    var why := WhyOf(devices, n, now);
    if r :| r in {Meeting, Manual} && r in why {
      var i: nat :| i < n && Gives(devices, i, r, now);
      assert Ends(devices, n, now, EndOf(devices[i].1, r));
    }
  }

  lemma {:induction false} NoDeviceYet(devices: seq<(string, Rep)>, now: real)
    ensures WhyOf(devices, 0, now) == {} && LatestReport(devices, 0, None) && Until(devices, 0, now, 0.0)
    ensures !HoldsReplies(devices, 0, now) && KindIs(devices, 0, now, None)
    ensures Tallies(devices, 0, now, Tally({}, 0.0, false, None, false, false, None, -1.0))
  {
  }

  lemma {:induction false} AllDevices(devices: seq<(string, Rep)>, now: real, kind: Option<string>, at: real,
                                      until: real)
    requires var n := |devices|;
      (if kind.None? then KindIs(devices, n, now, None) else FreshestSays(devices, n, now, kind, at))
      && Until(devices, n, now, until)
    ensures var n := |devices|; KindIs(devices, n, now, kind)
    ensures var n, why := |devices|, WhyOf(devices, |devices|, now);
      Meeting in why || Manual in why ==> LatestEnd(devices, n, now, until)
  {
    AnEndIsGiven(devices, |devices|, now);
  }

  lemma {:induction false} LatestStep(devices: seq<(string, Rep)>, n: nat, at: Option<real>)
    requires n < |devices| && LatestReport(devices, n, at)
    ensures var t := devices[n].1.at;
      LatestReport(devices, n + 1, if at.None? || t > at.value then Some(t) else at)
  {
    if at.Some? {
      var i :| 0 <= i < n && devices[i].1.at == at.value;
      assert 0 <= i < n + 1;
    }
  }

  lemma {:induction false} RepliesStep(devices: seq<(string, Rep)>, n: nat, now: real)
    requires n < |devices|
    ensures HoldsReplies(devices, n + 1, now) <==>
      HoldsReplies(devices, n, now) || (Gives(devices, n, Quiet, now) && devices[n].1.quietReplies)
  {
    if Gives(devices, n, Quiet, now) && devices[n].1.quietReplies {
      assert 0 <= n < n + 1;
    }
  }

  /** What the loop over the devices keeps. */
  datatype Tally = Tally(why: set<Reason>, until: real, openEnded: bool, freshest: Option<real>, anyQuiet: bool,
                         quietReplies: bool, quietKind: Option<string>, quietAt: real)

  function Counted(t: Tally, rep: Rep, now: real): Tally {
    var seen := t.(freshest := if t.freshest.None? || rep.at > t.freshest.value then Some(rep.at) else t.freshest);
    if !Fresh(rep, now) then seen
    else
      var r := Reasons(rep, now);
      var better := Quiet in r && rep.quietKind.Some? && rep.at > t.quietAt;
      seen.(why := t.why + r, until := NextEnd(t.until, rep, r), openEnded := t.openEnded || Call in r || Quiet in r,
            anyQuiet := t.anyQuiet || Quiet in r,
            quietReplies := t.quietReplies || (Quiet in r && rep.quietReplies),
            quietKind := if better then rep.quietKind else t.quietKind,
            quietAt := if better then rep.at else t.quietAt)
  }

  /** The tally of the first n devices. */
  ghost predicate Tallies(devices: seq<(string, Rep)>, n: nat, now: real, t: Tally)
    requires n <= |devices|
  {
    && t.why == WhyOf(devices, n, now)
    && LatestReport(devices, n, t.freshest)
    && Until(devices, n, now, t.until)
    && (t.openEnded <==> Call in t.why || Quiet in t.why)
    && (t.anyQuiet <==> Quiet in t.why)
    && (t.quietReplies <==> HoldsReplies(devices, n, now))
    && if t.quietKind.None? then t.quietAt == -1.0 && KindIs(devices, n, now, None)
       else FreshestSays(devices, n, now, t.quietKind, t.quietAt)
  }

  lemma {:induction false} OneMoreDevice(devices: seq<(string, Rep)>, n: nat, now: real, t: Tally)
    requires n < |devices| && Tallies(devices, n, now, t)
    ensures Tallies(devices, n + 1, now, Counted(t, devices[n].1, now))
  {
    hide WhyOf, Reasons, LatestReport, Until, HoldsReplies, KindIs, FreshestSays, NextEnd;
    WhyStep(devices, n, now);
    UntilStep(devices, n, now, t.until);
    KindStep(devices, n, now, t.quietKind, t.quietAt);
    RepliesStep(devices, n, now);
    LatestStep(devices, n, t.freshest);
  }

  lemma {:induction false} OneOfTheRest(why: set<Reason>)
    ensures why != {} && Call !in why && Quiet !in why ==> Meeting in why || Manual in why
  {
    OneOfFour(why);
  }

  lemma {:induction false} TallyMeans(d: Data, now: real, t: Tally)
    requires Tallies(d.devices, |d.devices|, now, t)
    ensures AnswerMeans(d, now, AnswerOf(d, now, t))
  {
    hide WhyOf, LatestReport, Until, HoldsReplies, KindIs, FreshestSays, LatestEnd, Age, Ordered;
    AllDevices(d.devices, now, t.quietKind, t.quietAt, t.until);
    OneOfTheRest(t.why);
  }

  function AnswerOf(d: Data, now: real, t: Tally): Answer {
    var ordered := Ordered(t.why);
    Answer(ordered == [], ordered, if ordered == [] then None else d.busySince,
           if ordered == [] || t.openEnded then None else Some(t.until),
           if t.freshest.None? then None else Some(Age(t.freshest.value, now)),
           ordered != [] && d.speakSpell == Some(d.busySince), t.quietReplies || !t.anyQuiet, t.quietKind)
  }

  method GiveAnswer(d: Data, now: real) returns (a: Answer)
    ensures AnswerMeans(d, now, a)
  {
    hide Tallies, AnswerMeans, Reasons, NextEnd, Ordered, Age;
    var ds := d.devices;
    var why: set<Reason> := {};
    var until := 0.0;
    var openEnded, quietReplies, anyQuiet := false, false, false;
    var quietKind: Option<string>, quietAt := None, -1.0;
    var freshest: Option<real> := None;
    NoDeviceYet(ds, now);
    var i := 0;
    while i < |ds|
      invariant 0 <= i <= |ds|
      invariant Tallies(ds, i, now, Tally(why, until, openEnded, freshest, anyQuiet, quietReplies, quietKind, quietAt))
    {
      var rep := ds[i].1;
      OneMoreDevice(ds, i, now, Tally(why, until, openEnded, freshest, anyQuiet, quietReplies, quietKind, quietAt));
      freshest := if freshest.None? || rep.at > freshest.value then Some(rep.at) else freshest;
      i := i + 1;
      if !Fresh(rep, now) {
        continue;
      }
      var r := Reasons(rep, now);
      why := why + r;
      until := NextEnd(until, rep, r);
      if Call in r || Quiet in r {
        openEnded := true;
      }
      if Quiet in r {
        anyQuiet := true;
        if rep.quietKind.Some? && rep.at > quietAt {
          quietKind, quietAt := rep.quietKind, rep.at;
        }
        quietReplies := quietReplies || rep.quietReplies;
      }
    }
    TallyMeans(d, now, Tally(why, until, openEnded, freshest, anyQuiet, quietReplies, quietKind, quietAt));
    var ordered := Ordered(why);
    a := Answer(ordered == [], ordered, if ordered == [] then None else d.busySince,
                if ordered == [] || openEnded then None else Some(until),
                if freshest.None? then None else Some(Age(freshest.value, now)),
                ordered != [] && d.speakSpell == Some(d.busySince), quietReplies || !anyQuiet, quietKind);
  }

  // ---------------------------------------------------------------- the changes of the file

  function Reported(d: Data, device: string, fields: Fields, now: real): Data {
    var d1 := d.(devices := Put(d.devices, Name(device), Clean(fields, now)));
    if !Busy(d1, now) then d1.(busySince := None, speakSpell := None)
    else if !Busy(d, now) then d1.(busySince := Some(now))
    else d1
  }

  function Spoken(d: Data, now: real): Data {
    if Busy(d, now) then d.(speakSpell := Some(d.busySince)) else d
  }

  // ---------------------------------------------------------------- histories

  datatype Event = Report(now: real, device: string, fields: Fields) | Speak(now: real)

  /** The clock never runs back, and no two reports carry the same time. */
  ghost predicate Timed(es: seq<Event>) {
    forall i, j :: 0 <= i < j < |es| ==>
      es[i].now <= es[j].now && (es[i].Report? && es[j].Report? ==> es[i].now < es[j].now)
  }

  /** The file after the first n events. */
  function After(es: seq<Event>, n: nat): Data
    requires n <= |es|
  {
    if n == 0 then EMPTY
    else
      match es[n - 1]
      case Report(now, device, fields) => Reported(After(es, n - 1), device, fields, now)
      case Speak(now) => Spoken(After(es, n - 1), now)
  }

  /** The same reports give no reason later that they did not give before. */
  lemma {:induction false} BusyShrinks(d: Data, u: real, t: real)
    requires u <= t && Busy(d, t)
    ensures Busy(d, u)
  {
    var r :| r in Why(d, t);
    var i: nat :| i < |d.devices| && Gives(d.devices, i, r, t);
    assert Gives(d.devices, i, r, u);
    assert r in Why(d, u);
  }

  /** Until when the file of the first n events stood, in a history looked at from time t. */
  function StoodUntil(es: seq<Event>, n: nat, t: real): real
    requires n <= |es|
  {
    if n < |es| then es[n].now else t
  }

  /** Busy at every moment from event k to time t. */
  ghost predicate BusyThroughout(es: seq<Event>, k: nat, t: real) {
    forall n: nat, u: real :: k < n <= |es| && es[n - 1].now <= u <= StoodUntil(es, n, t) ==> Busy(After(es, n), u)
  }

  /** Event k is the report that began the spell named s, and the name has stood since. */
  ghost predicate Began(es: seq<Event>, n: nat, k: nat, s: real)
    requires n <= |es|
  {
    && k < n && es[k].Report? && es[k].now == s && !Busy(After(es, k), s)
    && forall m: nat :: k < m <= n ==> After(es, m).busySince == Some(s)
  }

  /** The name of the spell is kept exactly while the latest report found David busy. */
  lemma {:induction false} SinceTracks(es: seq<Event>, n: nat)
    requires n <= |es| && Timed(es)
    ensures forall t: real :: (n > 0 ==> es[n - 1].now <= t) && Busy(After(es, n), t) ==> After(es, n).busySince.Some?
    ensures After(es, n).busySince.Some? ==> exists k: nat :: Began(es, n, k, After(es, n).busySince.value)
  {
    if n > 0 {
      SinceTracks(es, n - 1);
      var d, d', e := After(es, n - 1), After(es, n), es[n - 1];
      forall t: real | e.now <= t && Busy(d', t)
        ensures d'.busySince.Some?
      {
        hide Began;
        BusyShrinks(d', e.now, t);
      }
      if d'.busySince.Some? {
        var s, before: nat := d'.busySince.value, 0;
        if d.busySince == Some(s) {
          before :| Began(es, n - 1, before, s);
        }
        var k := BeganStep(es, n, s, before);
      }
    }
  }

  /** A beginning that is kept after an event was kept before it, or is this event. */
  lemma {:induction false} BeganStep(es: seq<Event>, n: nat, s: real, before: nat) returns (k: nat)
    requires 0 < n <= |es| && After(es, n).busySince == Some(s)
    requires After(es, n - 1).busySince == Some(s) ==> Began(es, n - 1, before, s)
    ensures Began(es, n, k, s)
  {
    hide WhyOf, Put, Clean;
    k := if After(es, n - 1).busySince == Some(s) then before else n - 1;
  }

  /** A history looked at from a time at which David is busy. */
  ghost predicate BusyAt(es: seq<Event>, t: real) {
    Timed(es) && (es == [] || es[|es| - 1].now <= t) && Busy(After(es, |es|), t)
  }

  lemma {:induction false} BusyBackTo(es: seq<Event>, k: nat, s: real, n: nat, t: real)
    requires BusyAt(es, t) && Began(es, |es|, k, s) && k < n <= |es|
    ensures Busy(After(es, n), StoodUntil(es, n, t))
    decreases |es| - n
  {
    hide WhyOf, Put, Clean;
    if n < |es| {
      BusyBackTo(es, k, s, n + 1, t);
      BusyShrinks(After(es, n + 1), es[n].now, StoodUntil(es, n + 1, t));
      assert After(es, n + 1).busySince == Some(s);
    }
  }

  /**
    Whenever the answer is busy, `since` is present and names the beginning: a report at that very
    time found David free and made him busy, and he has been busy at every moment from it on.
   */
  lemma {:induction false} SinceIsTheBeginning(es: seq<Event>, t: real) returns (k: nat)
    requires BusyAt(es, t)
    ensures After(es, |es|).busySince.Some? && Began(es, |es|, k, After(es, |es|).busySince.value)
    ensures BusyThroughout(es, k, t)
  {
    SinceTracks(es, |es|);
    var s := After(es, |es|).busySince.value;
    k :| Began(es, |es|, k, s);
    forall n: nat, u: real | k < n <= |es| && es[n - 1].now <= u <= StoodUntil(es, n, t)
      ensures Busy(After(es, n), u)
    {
      BusyBackTo(es, k, s, n, t);
      BusyShrinks(After(es, n), u, StoodUntil(es, n, t));
    }
  }

  /** Event j is a press of "speak as it comes" that found the spell named x. */
  ghost predicate Pressed(es: seq<Event>, j: nat, x: Option<real>) {
    j < |es| && es[j].Speak? && Busy(After(es, j), es[j].now) && After(es, j).busySince == x
  }

  lemma {:induction false} SpeakTracks(es: seq<Event>, n: nat)
    requires n <= |es| && After(es, n).speakSpell.Some?
    ensures exists j: nat :: j < n && Pressed(es, j, After(es, n).speakSpell.value)
  {
    var d, d' := After(es, n - 1), After(es, n);
    if d'.speakSpell == d.speakSpell {
      SpeakTracks(es, n - 1);
    } else {
      assert Pressed(es, n - 1, d'.speakSpell.value);
    }
  }

  /**
    "Speak as it comes" in force now was pressed in this very spell: after the report that began
    it, with David busy at every moment since that report.
   */
  lemma {:induction false} SpeakingIsOfThisSpell(es: seq<Event>, t: real) returns (k: nat, j: nat)
    requires BusyAt(es, t) && After(es, |es|).speakSpell == Some(After(es, |es|).busySince)
    ensures After(es, |es|).busySince.Some? && Began(es, |es|, k, After(es, |es|).busySince.value)
    ensures k < j < |es| && es[j].Speak? && BusyThroughout(es, k, t)
  {
    k := SinceIsTheBeginning(es, t);
    SpeakTracks(es, |es|);
    j :| j < |es| && Pressed(es, j, After(es, |es|).busySince);
    SinceTracks(es, j);
    var k': nat :| Began(es, j, k', After(es, j).busySince.value);
    assert es[k'].now == es[k].now;
  }

  /** A spell that ended is not resumed: after a moment of being free, an old press lets nothing through. */
  lemma {:induction false} FreeMomentEndsSpeaking(es: seq<Event>, n: nat, u: real, t: real)
    requires BusyAt(es, t) && 0 < n <= |es| && es[n - 1].now <= u <= StoodUntil(es, n, t) && !Busy(After(es, n), u)
    requires forall i :: n <= i < |es| ==> es[i].Report?
    ensures After(es, |es|).speakSpell != Some(After(es, |es|).busySince)
  {
    if After(es, |es|).speakSpell == Some(After(es, |es|).busySince) {
      var k, p := SpeakingIsOfThisSpell(es, t);
    }
  }

  // ---------------------------------------------------------------- the answer, by the reports

  /** Event k is a report by this device; one that does not say its name is "device". */
  predicate Names(e: Event, name: string) {
    e.Report? && name == if e.device == "" then "device" else e.device
  }

  /** The last report by a device among the first n events. */
  function LastReportBy(es: seq<Event>, n: nat, name: string): (k: Option<nat>)
    requires n <= |es|
    ensures k.Some? ==> k.value < n && es[k.value].Report?
  {
    if n == 0 then None else if Names(es[n - 1], name) then Some(n - 1) else LastReportBy(es, n - 1, name)
  }

  /** What the file keeps of a report: its flags, its ends that are times, and a kind it knows of a quiet that is on. */
  ghost predicate Keeps(rep: Rep, f: Fields, at: real) {
    && rep.at == at
    && (rep.call <==> f.call == Some(true) || f.voice == Some(true))
    && (rep.quiet <==> f.quiet == Some(true))
    && (!rep.quietReplies <==> f.quietReplies == Some(false))
    && (f.meetingUntil.Some? && f.meetingUntil.value > 0.0 ==> rep.meetingUntil == f.meetingUntil.value)
    && (rep.meetingUntil > 0.0 ==> f.meetingUntil == Some(rep.meetingUntil))
    && (f.manualUntil.Some? && f.manualUntil.value > 0.0 ==> rep.manualUntil == f.manualUntil.value)
    && (rep.manualUntil > 0.0 ==> f.manualUntil == Some(rep.manualUntil))
    && (forall kind :: rep.quietKind == Some(kind) <==>
          rep.quiet && f.quietKind == Some(kind) && (kind == "dnd" || kind == "silent" || kind == "vibrate"))
  }

  /** Each device of the file has what its last report says, and no name comes twice. */
  ghost predicate FromReports(es: seq<Event>, n: nat, devices: seq<(string, Rep)>)
    requires n <= |es|
  {
    && (forall i, j :: 0 <= i < j < |devices| ==> devices[i].0 != devices[j].0)
    && (forall i :: 0 <= i < |devices| ==>
          var k := LastReportBy(es, n, devices[i].0);
          k.Some? && Keeps(devices[i].1, es[k.value].fields, es[k.value].now))
    && (forall name :: LastReportBy(es, n, name).Some? ==> exists i :: 0 <= i < |devices| && devices[i].0 == name)
  }

  /** Where a device is, or the length. */
  function PlaceOf(devices: seq<(string, Rep)>, name: string): (k: nat)
    ensures k <= |devices| && (k < |devices| ==> devices[k].0 == name)
    ensures forall j :: 0 <= j < k ==> devices[j].0 != name
  {
    if devices == [] || devices[0].0 == name then 0 else 1 + PlaceOf(devices[1..], name)
  }

  /** A device keeps its place when it reports again, and comes last when it reports first. */
  lemma {:induction false} PutMeans(devices: seq<(string, Rep)>, name: string, rep: Rep)
    ensures var k := PlaceOf(devices, name);
            Put(devices, name, rep) == if k < |devices| then devices[k := (name, rep)] else devices + [(name, rep)]
  {
    if devices != [] && devices[0].0 != name {
      PutMeans(devices[1..], name, rep);
    }
  }

  lemma {:induction false} CleanKeeps(f: Fields, now: real)
    ensures Keeps(Clean(f, now), f, now)
  {
  }

  lemma {:induction false} ReportedBy(es: seq<Event>, n: nat, x: string)
    requires n < |es|
    ensures LastReportBy(es, n + 1, x)
            == if es[n].Report? && x == Name(es[n].device) then Some(n) else LastReportBy(es, n, x)
  {
  }

  lemma {:induction false} ReportedKeeps(es: seq<Event>, n: nat, devices: seq<(string, Rep)>)
    requires n < |es| && es[n].Report? && FromReports(es, n, devices)
    ensures FromReports(es, n + 1, Put(devices, Name(es[n].device), Clean(es[n].fields, es[n].now)))
  {
    hide Keeps, Clean, Put, LastReportBy, Name;
    var m, name, rep := n + 1, Name(es[n].device), Clean(es[n].fields, es[n].now);
    var after, k := Put(devices, name, rep), PlaceOf(devices, name);
    PutMeans(devices, name, rep);
    CleanKeeps(es[n].fields, es[n].now);
    forall i | 0 <= i < |after|
      ensures var l := LastReportBy(es, m, after[i].0);
              l.Some? && Keeps(after[i].1, es[l.value].fields, es[l.value].now)
    {
      ReportedBy(es, n, after[i].0);
      if i != k {
        assert after[i] == devices[i] && devices[i].0 != name;
      }
    }
    forall x | LastReportBy(es, m, x).Some? ensures exists i :: 0 <= i < |after| && after[i].0 == x {
      ReportedBy(es, n, x);
      if x == name {
        assert after[k].0 == x;
      } else {
        var i :| 0 <= i < |devices| && devices[i].0 == x;
        assert after[i].0 == x;
      }
    }
  }

  lemma {:induction false} AllFromReports(es: seq<Event>, n: nat)
    requires n <= |es|
    ensures FromReports(es, n, After(es, n).devices)
  {
    hide FromReports, Put, Clean;
    if n == 0 {
      NoReports(es);
    } else {
      AllFromReports(es, n - 1);
      if es[n - 1].Report? {
        ReportedKeeps(es, n - 1, After(es, n - 1).devices);
      } else {
        SpeakKeeps(es, n - 1, After(es, n - 1).devices);
      }
    }
  }

  lemma {:induction false} NoReports(es: seq<Event>)
    ensures FromReports(es, 0, [])
  {
  }

  lemma {:induction false} SpeakKeeps(es: seq<Event>, n: nat, devices: seq<(string, Rep)>)
    requires n < |es| && es[n].Speak? && FromReports(es, n, devices)
    ensures FromReports(es, n + 1, devices)
  {
    hide Keeps, LastReportBy;
    var m := n + 1;
    forall name ensures LastReportBy(es, m, name) == LastReportBy(es, n, name) {
      ReportedBy(es, n, name);
    }
  }

  /** What a report gives as a reason, five minutes at most. */
  ghost predicate Tells(e: Event, r: Reason, now: real) {
    && e.Report? && now - e.now <= 300.0
    && match r
       case Call => e.fields.call == Some(true) || e.fields.voice == Some(true)
       case Quiet => e.fields.quiet == Some(true)
       case Meeting => EndTold(e.fields.meetingUntil) > now
       case Manual => EndTold(e.fields.manualUntil) > now
  }

  /** An end that is not a time after 0 counts as 0. */
  function EndTold(until: Option<real>): real {
    if until.Some? && until.value > 0.0 then until.value else 0.0
  }

  /** Busy for a reason exactly when the last report of some device gives it now. */
  lemma {:induction false} WhyByReports(es: seq<Event>, n: nat, now: real, r: Reason)
    requires n <= |es|
    ensures r in Why(After(es, n), now) <==>
            exists name, k: nat :: LastReportBy(es, n, name) == Some(k) && Tells(es[k], r, now)
  {
    hide FromReports, LastReportBy;
    AllFromReports(es, n);
    var devices := After(es, n).devices;
    if r in Why(After(es, n), now) {
      var i: nat :| i < |devices| && Gives(devices, i, r, now);
      var k := DeviceReport(es, n, devices, i);
      KeptTells(devices[i].1, es[k], r, now);
    }
    if exists name, k: nat :: LastReportBy(es, n, name) == Some(k) && Tells(es[k], r, now) {
      var name, k: nat :| LastReportBy(es, n, name) == Some(k) && Tells(es[k], r, now);
      var i := ReportDevice(es, n, devices, name);
      var k' := DeviceReport(es, n, devices, i);
      KeptTells(devices[i].1, es[k], r, now);
      assert Gives(devices, i, r, now) && r in {Call, Quiet, Meeting, Manual};
    }
  }

  lemma {:induction false} DeviceReport(es: seq<Event>, n: nat, devices: seq<(string, Rep)>, i: nat) returns (k: nat)
    requires n <= |es| && FromReports(es, n, devices) && i < |devices|
    ensures LastReportBy(es, n, devices[i].0) == Some(k) && Keeps(devices[i].1, es[k].fields, es[k].now)
  {
    k := LastReportBy(es, n, devices[i].0).value;
  }

  lemma {:induction false} ReportDevice(es: seq<Event>, n: nat, devices: seq<(string, Rep)>, name: string)
    returns (i: nat)
    requires n <= |es| && FromReports(es, n, devices) && LastReportBy(es, n, name).Some?
    ensures i < |devices| && devices[i].0 == name
  {
    i :| i < |devices| && devices[i].0 == name;
  }

  lemma {:induction false} KeptTells(rep: Rep, e: Event, r: Reason, now: real)
    requires e.Report? && Keeps(rep, e.fields, e.now)
    ensures Fresh(rep, now) && r in Reasons(rep, now) <==> Tells(e, r, now)
  {
  }
}
