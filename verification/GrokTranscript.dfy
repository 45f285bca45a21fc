/**
  What the messages of a folded Grok log are, by its lines alone: where each message and each part
  begins, which lines are joined in it, its stamps and its id, and what a tool's part says.
 */
module GrokTranscript {
  import opened Wrappers
  import opened GrokFold

  // ---------------------------------------------------------------- lines

  predicate IsUser(line: Line) {
    line.Says? && line.u.UserChunk?
  }

  predicate IsAgent(line: Line) {
    line.Says? && line.u.AgentChunk?
  }

  predicate IsCall(line: Line) {
    line.Says? && line.u.ToolCall?
  }

  /** The messageId of a line that has one. */
  function Mid(line: Line): string {
    match line
    case Says(_, UserChunk(_, mid)) => mid
    case Says(_, AgentChunk(_, _, mid)) => mid
    case Says(_, ToolCall(_, _, mid)) => mid
    case _ => ""
  }

  /** A chunk with this messageId goes on with what has that one. */
  predicate GoesOn(mid: string, with: string) {
    mid == "" || mid == with
  }

  predicate Names(line: Line, tid: string) {
    IsCall(line) && line.u.tid == tid
  }

  /** Line n calls a tool that no line before it called. */
  ghost predicate Opens(all: seq<Line>, n: nat)
    requires n < |all|
  {
    IsCall(all[n]) && (all[n].u.tid == "" || forall k :: 0 <= k < n ==> !Names(all[k], all[n].u.tid))
  }

  /** What one voice says in the lines from b up to e. */
  function SpokenIn(all: seq<Line>, v: Voice, b: nat, e: nat): string
    requires e <= |all|
  {
    if e <= b then "" else SpokenIn(all, v, b, e - 1) + LineWords(all[e - 1], v)
  }

  /** The last stamp of the lines from b up to e. */
  function Stamp(all: seq<Line>, b: nat, e: nat): Option<string>
    requires e <= |all|
  {
    if e <= b then None
    else if all[e - 1].Says? && all[e - 1].at.Some? then all[e - 1].at
    else Stamp(all, b, e - 1)
  }

  // ---------------------------------------------------------------- parts and messages

  /** A part made of the lines from q up to r. */
  ghost predicate PartIs(all: seq<Line>, p: Part, q: nat, r: nat, shown: bool) {
    && q < r <= |all|
    && match p
       case Said(kind, text, mid) =>
         && IsAgent(all[q]) && all[q].u.kind == kind && mid == (if shown then "" else all[q].u.mid)
         && text == SpokenIn(all, Some(kind), q, r)
         && forall n: nat :: q < n < r ==>
              !Opens(all, n) && (IsAgent(all[n]) ==> all[n].u.kind == kind && GoesOn(all[n].u.mid, all[q].u.mid))
       case Tool(id, _, _, tkind, _, _, _) =>
         && Opens(all, q) && id == all[q].u.tid && tkind == all[q].u.call.kind
         && forall n: nat :: q < n < r ==> !Opens(all, n) && !IsAgent(all[n])
  }

  function EndOf(begins: seq<nat>, k: nat, e: nat): nat {
    if k + 1 < |begins| then begins[k + 1] else e
  }

  /** The parts of the lines from b up to e, each beginning where `ps` says. */
  ghost predicate PartsAre(all: seq<Line>, parts: seq<Part>, ps: seq<nat>, b: nat, e: nat, shown: bool) {
    && |ps| == |parts| && e <= |all|
    && (forall j :: 0 <= j < |ps| ==> b <= ps[j] < e)
    && (forall n: nat :: b <= n < (if ps == [] then e else ps[0]) ==> !IsAgent(all[n]) && !Opens(all, n))
    && (forall j :: 0 <= j < |ps| ==> PartIs(all, parts[j], ps[j], EndOf(ps, j, e), shown))
  }

  /** A message made of the lines from b up to e, while it was the newest until line t. */
  ghost predicate MessageIs(all: seq<Line>, m: Message, b: nat, e: nat, t: nat, ps: seq<nat>, shown: bool) {
    && b < |all| && b <= e <= |all| && t <= |all| && all[b].Says?
    && m.id == (if Mid(all[b]) != "" then Named(Mid(all[b])) else Numbered(b + 1))
    && m.mid == (if shown then "" else Mid(all[b]))
    && m.at == all[b].at && m.updated == Stamp(all, b + 1, t)
    && match m
       case User(_, _, _, _, text) =>
         && ps == [] && IsUser(all[b]) && text == SpokenIn(all, None, b, e)
         && forall n: nat :: b < n < e ==>
              !IsAgent(all[n]) && !IsCall(all[n]) && (IsUser(all[n]) ==> GoesOn(Mid(all[n]), Mid(all[b])))
       case Assistant(_, _, _, _, parts) =>
         && !IsUser(all[b]) && (IsAgent(all[b]) || IsCall(all[b]))
         && (forall n: nat :: b < n < e ==> !IsUser(all[n]))
         && PartsAre(all, parts, ps, b, e, shown)
  }

  predicate Quiet(line: Line) {
    !IsUser(line) && !IsAgent(line) && !IsCall(line)
  }

  function TouchedTo(begins: seq<nat>, k: nat, t: nat): nat {
    if k + 1 < |begins| then begins[k + 1] + 1 else t
  }

  ghost predicate NthIs(all: seq<Line>, msgs: seq<Message>, bs: seq<nat>, pss: seq<seq<nat>>, k: nat, e: nat, t: nat,
                        shown: bool)
  {
    k < |msgs| == |bs| == |pss| && MessageIs(all, msgs[k], bs[k], EndOf(bs, k, e), TouchedTo(bs, k, t), pss[k], shown)
  }

  /** The messages of the lines up to e, each beginning where `bs` says; the newest was touched up to line t. */
  ghost predicate Shape(all: seq<Line>, msgs: seq<Message>, bs: seq<nat>, pss: seq<seq<nat>>, e: nat, t: nat,
                        shown: bool)
  {
    && |bs| == |pss| == |msgs| && e <= t <= |all|
    && (forall i, j :: 0 <= i < j < |bs| ==> bs[i] < bs[j])
    && (forall n: nat :: n < (if bs == [] then e else bs[0]) && n < |all| ==> Quiet(all[n]))
    && (forall k: nat :: k < |bs| ==> NthIs(all, msgs, bs, pss, k, e, t, shown))
  }

  // ---------------------------------------------------------------- one line more

  lemma {:induction false} ReplaceLastShape(all: seq<Line>, msgs: seq<Message>, m: Message, bs: seq<nat>,
                                            pss: seq<seq<nat>>, ps: seq<nat>, e: nat, e': nat, t: nat, t': nat)
    requires Shape(all, msgs, bs, pss, e, t, false) && msgs != [] && e' <= t' <= |all|
    requires MessageIs(all, m, bs[|bs| - 1], e', t', ps, false)
    ensures Shape(all, ReplaceLast(msgs, m), bs, pss[|pss| - 1 := ps], e', t', false)
  {
    hide MessageIs, Quiet;
    var msgs', pss' := ReplaceLast(msgs, m), pss[|pss| - 1 := ps];
    forall k: nat | k < |bs| ensures NthIs(all, msgs', bs, pss', k, e', t', false) {
      assert NthIs(all, msgs, bs, pss, k, e, t, false);
    }
  }

  lemma {:induction false} PushShape(all: seq<Line>, msgs: seq<Message>, m: Message, bs: seq<nat>,
                                     pss: seq<seq<nat>>, ps: seq<nat>, e: nat, e': nat)
    requires Shape(all, msgs, bs, pss, e, e + 1, false) && e <= e' <= e + 1 <= |all|
    requires msgs != [] ==> bs[|bs| - 1] < e
    requires MessageIs(all, m, e, e', e + 1, ps, false)
    ensures Shape(all, msgs + [m], bs + [e], pss + [ps], e', e + 1, false)
  {
    hide MessageIs, Quiet;
    var bs', pss', msgs', t := bs + [e], pss + [ps], msgs + [m], e + 1;
    forall k: nat | k < |bs'| ensures NthIs(all, msgs', bs', pss', k, e', t, false) {
      if k < |bs| {
        assert NthIs(all, msgs, bs, pss, k, e, t, false);
        assert EndOf(bs', k, e') == EndOf(bs, k, e) && TouchedTo(bs', k, t) == TouchedTo(bs, k, t);
      }
    }
    assert forall i, j :: 0 <= i < j < |bs'| ==> bs'[i] < bs'[j] by {
      assert forall i :: 0 <= i < |bs| ==> bs[i] <= bs[|bs| - 1];
    }
  }

  /** What is so of the newest message. */
  lemma {:induction false} LastIs(all: seq<Line>, msgs: seq<Message>, bs: seq<nat>, pss: seq<seq<nat>>, e: nat, t: nat)
    requires Shape(all, msgs, bs, pss, e, t, false) && msgs != []
    ensures |bs| == |pss| == |msgs| && MessageIs(all, Last(msgs), bs[|bs| - 1], e, t, pss[|pss| - 1], false)
  {
    hide MessageIs;
    assert NthIs(all, msgs, bs, pss, |bs| - 1, e, t, false);
  }

  lemma {:induction false} TouchedIs(all: seq<Line>, m: Message, b: nat, ps: seq<nat>, n: nat)
    requires n < |all| && b < n && MessageIs(all, m, b, n, n, ps, false)
    ensures MessageIs(all, if all[n].Says? && all[n].at.Some? then m.(updated := all[n].at) else m,
                      b, n, n + 1, ps, false)
  {
    hide PartsAre;
    var t := n + 1;
    assert Stamp(all, b + 1, t) == if all[n].Says? && all[n].at.Some? then all[n].at else Stamp(all, b + 1, n);
  }

  lemma {:induction false} TouchShape(all: seq<Line>, msgs: seq<Message>, bs: seq<nat>, pss: seq<seq<nat>>, n: nat)
    requires n < |all| && Shape(all, msgs, bs, pss, n, n, false)
    requires bs != [] ==> bs[|bs| - 1] < n
    ensures var t := n + 1;
            Shape(all, if all[n].Says? then Touch(msgs, all[n].at) else msgs, bs, pss, n, t, false)
  {
    hide Shape, MessageIs;
    var t := n + 1;
    if msgs == [] {
      LengthsAgree(all, msgs, bs, pss, n, n);
      NoneYet(all, n, t);
    } else {
      LastIs(all, msgs, bs, pss, n, n);
      var m, ps := Last(msgs), pss[|pss| - 1];
      TouchedIs(all, m, bs[|bs| - 1], ps, n);
      var touched := if all[n].Says? && all[n].at.Some? then m.(updated := all[n].at) else m;
      ReplaceLastShape(all, msgs, touched, bs, pss, ps, n, n, n, t);
      assert pss[|pss| - 1 := ps] == pss;
      assert ReplaceLast(msgs, m) == msgs;
    }
  }

  lemma {:induction false} LengthsAgree(all: seq<Line>, msgs: seq<Message>, bs: seq<nat>, pss: seq<seq<nat>>, e: nat,
                                        t: nat)
    requires Shape(all, msgs, bs, pss, e, t, false)
    ensures |bs| == |pss| == |msgs| && e <= t <= |all|
  {
  }

  lemma {:induction false} NoneYet(all: seq<Line>, n: nat, t: nat)
    requires Shape(all, [], [], [], n, n, false) && n <= t <= |all|
    ensures Shape(all, [], [], [], n, t, false)
  {
  }

  /** A line that begins nothing and goes on with nothing. */
  ghost predicate Idle(all: seq<Line>, n: nat)
    requires n < |all|
  {
    !IsUser(all[n]) && !IsAgent(all[n]) && !Opens(all, n)
  }

  /** What was begun stays where it began. */
  ghost predicate Prolongs(pss: seq<seq<nat>>, pss': seq<seq<nat>>) {
    |pss| <= |pss'| && forall k :: 0 <= k < |pss| ==> pss[k] <= pss'[k]
  }

  ghost predicate EndsWith(ps: seq<nat>, j: nat, n: nat) {
    |ps| == j + 1 && ps[j] == n
  }

  lemma {:induction false} UserShape(all: seq<Line>, msgs: seq<Message>, bs: seq<nat>, pss: seq<seq<nat>>, n: nat)
    returns (bs': seq<nat>, pss': seq<seq<nat>>)
    requires n < |all| && IsUser(all[n]) && Shape(all, msgs, bs, pss, n, n + 1, false)
    requires bs != [] ==> bs[|bs| - 1] < n
    ensures var t := n + 1;
            && Shape(all, AddUser(msgs, t, all[n].at, all[n].u.text, all[n].u.mid), bs', pss', t, t, false)
            && bs' != [] && bs'[|bs'| - 1] < t && Prolongs(pss, pss')
  {
    var t, text, mid := n + 1, all[n].u.text, all[n].u.mid;
    if msgs != [] {
      LastIs(all, msgs, bs, pss, n, t);
    }
    if msgs != [] && Last(msgs).User? && (mid == "" || mid == Last(msgs).mid) {
      var m := Last(msgs).(text := Last(msgs).text + text);
      bs', pss' := bs, pss[|pss| - 1 := []];
      assert MessageIs(all, m, bs[|bs| - 1], t, t, [], false);
      ReplaceLastShape(all, msgs, m, bs, pss, [], n, t, t, t);
    } else {
      var m := User(IdFor(mid, t), mid, all[n].at, None, text);
      bs', pss' := bs + [n], pss + [[]];
      assert SpokenIn(all, None, n, t) == SpokenIn(all, None, n, n) + text;
      PushShape(all, msgs, m, bs, pss, [], n, t);
    }
  }

  /** The newest message is the assistant's, opened by this line if it was not. */
  lemma {:induction false} OpenShape(all: seq<Line>, msgs: seq<Message>, bs: seq<nat>, pss: seq<seq<nat>>, n: nat)
    returns (bs': seq<nat>, pss': seq<seq<nat>>)
    requires n < |all| && (IsAgent(all[n]) || IsCall(all[n])) && Shape(all, msgs, bs, pss, n, n + 1, false)
    requires bs != [] ==> bs[|bs| - 1] < n
    ensures var t := n + 1;
            && Shape(all, WithAssistant(msgs, t, all[n].at, Mid(all[n])), bs', pss', n, t, false)
            && bs' != [] && bs'[|bs'| - 1] <= n && Prolongs(pss, pss')
  {
    var t, mid := n + 1, Mid(all[n]);
    if msgs != [] {
      LastIs(all, msgs, bs, pss, n, t);
    }
    if msgs != [] && Last(msgs).Assistant? {
      bs', pss' := bs, pss;
    } else {
      var m := Assistant(IdFor(mid, t), mid, all[n].at, None, []);
      bs', pss' := bs + [n], pss + [[]];
      PushShape(all, msgs, m, bs, pss, [], n, n);
    }
  }

  /** The assistant's newest message, with these parts once line n is done. */
  lemma {:induction false} PartsShape(all: seq<Line>, msgs: seq<Message>, bs: seq<nat>, pss: seq<seq<nat>>, n: nat,
                                      parts: seq<Part>, ps: seq<nat>)
    requires n < |all| && !IsUser(all[n]) && Shape(all, msgs, bs, pss, n, n + 1, false)
    requires msgs != [] && Last(msgs).Assistant?
    requires PartsAre(all, parts, ps, bs[|bs| - 1], n + 1, false)
    ensures var t := n + 1;
            Shape(all, ReplaceLast(msgs, Last(msgs).(parts := parts)), bs, pss[|pss| - 1 := ps], t, t, false)
  {
    hide PartsAre;
    var t := n + 1;
    LastIs(all, msgs, bs, pss, n, t);
    var m := Last(msgs).(parts := parts);
    assert MessageIs(all, m, bs[|bs| - 1], t, t, ps, false);
    ReplaceLastShape(all, msgs, m, bs, pss, ps, n, t, t, t);
  }

  // ---------------------------------------------------------------- the parts, one line more

  lemma {:induction false} IdlePart(all: seq<Line>, p: Part, q: nat, n: nat)
    requires n < |all| && PartIs(all, p, q, n, false) && Idle(all, n)
    ensures PartIs(all, p, q, n + 1, false)
  {
    var t := n + 1;
    if p.Said? {
      assert SpokenIn(all, Some(p.kind), q, t) == SpokenIn(all, Some(p.kind), q, n) + "";
    }
  }

  lemma {:induction false} IdleParts(all: seq<Line>, parts: seq<Part>, ps: seq<nat>, b: nat, n: nat)
    requires n < |all| && PartsAre(all, parts, ps, b, n, false) && Idle(all, n)
    ensures PartsAre(all, parts, ps, b, n + 1, false)
  {
    hide PartIs;
    var t := n + 1;
    forall j | 0 <= j < |ps| ensures PartIs(all, parts[j], ps[j], EndOf(ps, j, t), false) {
      assert PartIs(all, parts[j], ps[j], EndOf(ps, j, n), false);
      if j == |ps| - 1 {
        IdlePart(all, parts[j], ps[j], n);
      }
    }
  }

  /** A part that begins with line n. */
  lemma {:induction false} PushPart(all: seq<Line>, parts: seq<Part>, ps: seq<nat>, b: nat, n: nat, p: Part)
    requires b <= n < |all| && PartsAre(all, parts, ps, b, n, false) && PartIs(all, p, n, n + 1, false)
    ensures PartsAre(all, parts + [p], ps + [n], b, n + 1, false)
  {
    hide PartIs;
    var t, parts', ps' := n + 1, parts + [p], ps + [n];
    forall j | 0 <= j < |ps'| ensures PartIs(all, parts'[j], ps'[j], EndOf(ps', j, t), false) {
      if j < |ps| {
        assert PartIs(all, parts[j], ps[j], EndOf(ps, j, n), false);
        assert EndOf(ps', j, t) == EndOf(ps, j, n);
      }
    }
  }

  lemma {:induction false} SaidPart(all: seq<Line>, p: Part, q: nat, n: nat)
    requires n < |all| && PartIs(all, p, q, n, false) && p.Said? && IsAgent(all[n])
    requires all[n].u.kind == p.kind && GoesOn(all[n].u.mid, p.mid)
    ensures PartIs(all, p.(text := p.text + all[n].u.text), q, n + 1, false)
  {
    var t := n + 1;
    assert SpokenIn(all, Some(p.kind), q, t) == SpokenIn(all, Some(p.kind), q, n) + all[n].u.text;
  }

  lemma {:induction false} SaidParts(all: seq<Line>, parts: seq<Part>, ps: seq<nat>, b: nat, n: nat)
    returns (ps': seq<nat>)
    requires b <= n < |all| && PartsAre(all, parts, ps, b, n, false) && IsAgent(all[n])
    ensures PartsAre(all, JoinSaid(parts, all[n].u.kind, all[n].u.text, all[n].u.mid), ps', b, n + 1, false)
    ensures ps <= ps'
  {
    hide PartIs, PartsAre;
    var kind, text, mid := all[n].u.kind, all[n].u.text, all[n].u.mid;
    if |JoinSaid(parts, kind, text, mid)| == |parts| {
      ps' := ps;
      LastPartSays(all, parts, ps, b, n);
    } else {
      ps' := ps + [n];
      SaidBegins(all, n);
      PushPart(all, parts, ps, b, n, Said(kind, text, mid));
    }
  }

  lemma {:induction false} SaidBegins(all: seq<Line>, n: nat)
    requires n < |all| && IsAgent(all[n])
    ensures PartIs(all, Said(all[n].u.kind, all[n].u.text, all[n].u.mid), n, n + 1, false)
  {
    var t, kind := n + 1, all[n].u.kind;
    assert SpokenIn(all, Some(kind), n, t) == SpokenIn(all, Some(kind), n, n) + all[n].u.text;
  }

  /** An agent's line that goes on with the last part. */
  lemma {:induction false} LastPartSays(all: seq<Line>, parts: seq<Part>, ps: seq<nat>, b: nat, n: nat)
    requires b <= n < |all| && PartsAre(all, parts, ps, b, n, false) && IsAgent(all[n])
    requires |JoinSaid(parts, all[n].u.kind, all[n].u.text, all[n].u.mid)| == |parts|
    ensures PartsAre(all, JoinSaid(parts, all[n].u.kind, all[n].u.text, all[n].u.mid), ps, b, n + 1, false)
  {
    hide PartIs;
    var t, parts', k := n + 1, JoinSaid(parts, all[n].u.kind, all[n].u.text, all[n].u.mid), |parts| - 1;
    assert PartIs(all, parts[k], ps[k], EndOf(ps, k, n), false);
    SaidPart(all, parts[k], ps[k], n);
    forall j | 0 <= j < |ps| ensures PartIs(all, parts'[j], ps[j], EndOf(ps, j, t), false) {
      assert PartIs(all, parts[j], ps[j], EndOf(ps, j, n), false);
    }
  }

  lemma {:induction false} OpenedPart(all: seq<Line>, n: nat)
    requires n < |all| && Opens(all, n)
    ensures PartIs(all, NewTool(all[n].u.tid, all[n].u.call), n, n + 1, false)
  {
  }

  lemma {:induction false} ChangedPart(all: seq<Line>, parts: seq<Part>, ps: seq<nat>, b: nat, e: nat, j: nat,
                                       c: Change)
    requires PartsAre(all, parts, ps, b, e, false) && j < |parts| && parts[j].Tool?
    ensures PartsAre(all, parts[j := Changed(parts[j], c)], ps, b, e, false)
  {
    var parts' := parts[j := Changed(parts[j], c)];
    forall i | 0 <= i < |ps| ensures PartIs(all, parts'[i], ps[i], EndOf(ps, i, e), false) {
      assert PartIs(all, parts[i], ps[i], EndOf(ps, i, e), false);
    }
  }

  lemma {:induction false} PartsOf(all: seq<Line>, msgs: seq<Message>, bs: seq<nat>, pss: seq<seq<nat>>, e: nat,
                                   t: nat)
    requires Shape(all, msgs, bs, pss, e, t, false) && msgs != [] && Last(msgs).Assistant?
    ensures |bs| == |pss| == |msgs| && bs[|bs| - 1] <= e && |pss[|pss| - 1]| == |Last(msgs).parts|
    ensures PartsAre(all, Last(msgs).parts, pss[|pss| - 1], bs[|bs| - 1], e, false)
  {
    hide Shape;
    LastIs(all, msgs, bs, pss, e, t);
  }

  // ---------------------------------------------------------------- a step

  lemma {:induction false} IdleIs(all: seq<Line>, m: Message, b: nat, ps: seq<nat>, n: nat)
    requires n < |all| && b <= n && MessageIs(all, m, b, n, n + 1, ps, false) && Idle(all, n)
    requires m.User? ==> !IsCall(all[n])
    ensures MessageIs(all, m, b, n + 1, n + 1, ps, false)
  {
    hide PartsAre, Opens;
    var t := n + 1;
    if m.Assistant? {
      IdleParts(all, m.parts, ps, b, n);
    } else {
      assert SpokenIn(all, None, b, t) == SpokenIn(all, None, b, n) + "";
    }
  }

  lemma {:induction false} IdleShape(all: seq<Line>, msgs: seq<Message>, bs: seq<nat>, pss: seq<seq<nat>>, n: nat)
    requires n < |all| && Idle(all, n) && Shape(all, msgs, bs, pss, n, n + 1, false)
    requires msgs != [] && Last(msgs).User? ==> !IsCall(all[n])
    requires msgs == [] ==> Quiet(all[n])
    ensures var t := n + 1; Shape(all, msgs, bs, pss, t, t, false)
  {
    hide Shape, MessageIs, Idle, Quiet;
    var t := n + 1;
    LengthsAgree(all, msgs, bs, pss, n, t);
    if msgs == [] {
      NoneYetIdle(all, n);
    } else {
      LastIs(all, msgs, bs, pss, n, t);
      BeginsBy(all, msgs, bs, pss, n, t);
      var m, ps := Last(msgs), pss[|pss| - 1];
      IdleIs(all, m, bs[|bs| - 1], ps, n);
      ReplaceLastShape(all, msgs, m, bs, pss, ps, n, t, t, t);
      assert pss[|pss| - 1 := ps] == pss && ReplaceLast(msgs, m) == msgs;
    }
  }

  lemma {:induction false} BeginsBy(all: seq<Line>, msgs: seq<Message>, bs: seq<nat>, pss: seq<seq<nat>>, e: nat,
                                    t: nat)
    requires Shape(all, msgs, bs, pss, e, t, false) && msgs != []
    ensures |bs| > 0 && bs[|bs| - 1] <= e
  {
    hide PartsAre;
    LastIs(all, msgs, bs, pss, e, t);
  }

  lemma {:induction false} NoneYetIdle(all: seq<Line>, n: nat)
    requires n < |all| && Quiet(all[n]) && Shape(all, [], [], [], n, n + 1, false)
    ensures var t := n + 1; Shape(all, [], [], [], t, t, false)
  {
  }

  lemma {:induction false} AgentShape(all: seq<Line>, msgs: seq<Message>, bs: seq<nat>, pss: seq<seq<nat>>, n: nat)
    returns (bs': seq<nat>, pss': seq<seq<nat>>)
    requires n < |all| && IsAgent(all[n]) && Shape(all, msgs, bs, pss, n, n + 1, false)
    requires bs != [] ==> bs[|bs| - 1] < n
    ensures var t, u := n + 1, all[n].u;
            var after := AddSaid(WithAssistant(msgs, t, all[n].at, u.mid), u.kind, u.text, u.mid);
            && Shape(all, after, bs', pss', t, t, false)
            && bs' != [] && bs'[|bs'| - 1] < t && Prolongs(pss, pss')
  {
    hide Shape, PartsAre;
    var t, u := n + 1, all[n].u;
    bs', pss' := OpenShape(all, msgs, bs, pss, n);
    var open := WithAssistant(msgs, t, all[n].at, u.mid);
    PartsOf(all, open, bs', pss', n, t);
    var ps := SaidParts(all, Last(open).parts, pss'[|pss'| - 1], bs'[|bs'| - 1], n);
    PartsShape(all, open, bs', pss', n, JoinSaid(Last(open).parts, u.kind, u.text, u.mid), ps);
    pss' := pss'[|pss'| - 1 := ps];
  }

  lemma {:induction false} CallShape(all: seq<Line>, msgs: seq<Message>, bs: seq<nat>, pss: seq<seq<nat>>, n: nat)
    returns (bs': seq<nat>, pss': seq<seq<nat>>)
    requires n < |all| && IsCall(all[n]) && Shape(all, msgs, bs, pss, n, n + 1, false)
    requires bs != [] ==> bs[|bs| - 1] < n
    ensures var t, u := n + 1, all[n].u;
            var open := WithAssistant(msgs, t, all[n].at, u.mid);
            var after := if Opens(all, n)
                         then ReplaceLast(open, Last(open).(parts := Last(open).parts + [NewTool(u.tid, u.call)]))
                         else open;
            && Shape(all, after, bs', pss', t, t, false) && bs' != [] && bs'[|bs'| - 1] < t && Prolongs(pss, pss')
            && |pss'| == |open| && (Opens(all, n) ==> EndsWith(pss'[|open| - 1], |Last(open).parts|, n))
  {
    hide Shape, PartsAre;
    var t, u := n + 1, all[n].u;
    bs', pss' := OpenShape(all, msgs, bs, pss, n);
    var open := WithAssistant(msgs, t, all[n].at, u.mid);
    PartsOf(all, open, bs', pss', n, t);
    if Opens(all, n) {
      OpenedPart(all, n);
      PushPart(all, Last(open).parts, pss'[|pss'| - 1], bs'[|bs'| - 1], n, NewTool(u.tid, u.call));
      var ps := pss'[|pss'| - 1] + [n];
      PartsShape(all, open, bs', pss', n, Last(open).parts + [NewTool(u.tid, u.call)], ps);
      pss' := pss'[|pss'| - 1 := ps];
    } else {
      IdleShape(all, open, bs', pss', n);
    }
  }

  lemma {:induction false} ChangeShape(all: seq<Line>, msgs: seq<Message>, bs: seq<nat>, pss: seq<seq<nat>>, e: nat,
                                       t: nat, i: nat, j: nat, c: Change)
    requires Shape(all, msgs, bs, pss, e, t, false)
    ensures Shape(all, ChangeAt(msgs, i, j, c), bs, pss, e, t, false)
  {
    hide PartsAre, Changed, Quiet;
    if IsTool(msgs, i, j) {
      var msgs' := ChangeAt(msgs, i, j, c);
      assert NthIs(all, msgs, bs, pss, i, e, t, false);
      ChangedPart(all, msgs[i].parts, pss[i], bs[i], EndOf(bs, i, e), j, c);
      assert NthIs(all, msgs', bs, pss, i, e, t, false);
      forall k: nat | k < |bs| ensures NthIs(all, msgs', bs, pss, k, e, t, false) {
        assert NthIs(all, msgs, bs, pss, k, e, t, false);
      }
    }
  }

  // ---------------------------------------------------------------- what a tool's part says

  datatype Field = Status | Input | Title | Name | Output

  function FieldOf(p: Part, f: Field): Option<string>
    requires p.Tool?
  {
    match f
    case Status => Some(p.status)
    case Input => p.input
    case Title => Some(p.title)
    case Name => Some(p.name)
    case Output => p.output
  }

  function CallSays(c: Call, f: Field): Option<string> {
    match f
    case Status => Some(c.status)
    case Input => c.input
    case Title => Some(c.title)
    case Name => Some(c.name)
    case Output => None
  }

  /** None when the update says nothing of the field; its raw output goes before its content. */
  function ChangeSays(c: Change, f: Field): Option<string> {
    match f
    case Status => c.status
    case Input => c.input
    case Title => c.title
    case Name => if c.name == "" then None else Some(c.name)
    case Output => if c.output.None? && c.said != "" then Some(c.said) else c.output
  }

  /** Line n is an update of this tool that says something of the field. */
  predicate Updates(line: Line, tid: string, f: Field) {
    line.Says? && line.u.ToolUpdate? && tid != "" && line.u.tid == tid && ChangeSays(line.u.change, f).Some?
  }

  /** Of the lines up to n, the last update of the tool that line q calls to say something of a field, or that call. */
  function Value(all: seq<Line>, q: nat, n: nat, f: Field): Option<string>
    requires q < n <= |all| && IsCall(all[q])
  {
    if n == q + 1 then CallSays(all[q].u.call, f)
    else if Updates(all[n - 1], all[q].u.tid, f) then ChangeSays(all[n - 1].u.change, f)
    else Value(all, q, n - 1, f)
  }

  /** A tool's part says what the lines up to n say of the tool that line q calls. */
  ghost predicate ToolSays(all: seq<Line>, p: Part, q: nat, n: nat) {
    p.Tool? && q < n <= |all| && IsCall(all[q]) && p.id == all[q].u.tid
    && forall f: Field :: FieldOf(p, f) == Value(all, q, n, f)
  }

  ghost predicate ToolsSay(all: seq<Line>, msgs: seq<Message>, pss: seq<seq<nat>>, n: nat) {
    forall k: nat, j: nat :: IsTool(msgs, k, j) ==>
      k < |pss| && j < |pss[k]| && ToolSays(all, msgs[k].parts[j], pss[k][j], n)
  }

  /** The same tools' parts at the same places. */
  ghost predicate SameParts(a: seq<Message>, b: seq<Message>) {
    forall k: nat, j: nat :: IsTool(b, k, j) ==> IsTool(a, k, j) && b[k].parts[j] == a[k].parts[j]
  }

  lemma {:induction false} ToolAfter(all: seq<Line>, p: Part, q: nat, n: nat)
    requires n < |all| && ToolSays(all, p, q, n)
    ensures ToolSays(all, if all[n].Says? && all[n].u.ToolUpdate? && all[n].u.tid == p.id != ""
                          then Changed(p, all[n].u.change) else p, q, n + 1)
  {
    var t := n + 1;
    forall f: Field ensures Value(all, q, t, f)
                            == if Updates(all[n], p.id, f) then ChangeSays(all[n].u.change, f) else Value(all, q, n, f)
    {
    }
  }

  lemma {:induction false} SameSay(all: seq<Line>, a: seq<Message>, b: seq<Message>, pss: seq<seq<nat>>,
                                   pss': seq<seq<nat>>, n: nat)
    requires n < |all| && ToolsSay(all, a, pss, n) && SameParts(a, b) && Prolongs(pss, pss')
    requires !(all[n].Says? && all[n].u.ToolUpdate?)
    ensures ToolsSay(all, b, pss', n + 1)
  {
    hide ToolSays;
    forall k: nat, j: nat | IsTool(b, k, j)
      ensures k < |pss'| && j < |pss'[k]| && ToolSays(all, b[k].parts[j], pss'[k][j], n + 1)
    {
      assert IsTool(a, k, j);
      ToolAfter(all, a[k].parts[j], pss[k][j], n);
    }
  }

  lemma {:induction false} NewSays(all: seq<Line>, n: nat)
    requires n < |all| && IsCall(all[n])
    ensures ToolSays(all, NewTool(all[n].u.tid, all[n].u.call), n, n + 1)
  {
  }

  lemma {:induction false} TouchParts(msgs: seq<Message>, at: Option<string>)
    ensures SameParts(msgs, Touch(msgs, at))
  {
  }

  lemma {:induction false} UserParts(msgs: seq<Message>, n: nat, at: Option<string>, text: string, mid: string)
    ensures SameParts(msgs, AddUser(msgs, n, at, text, mid))
  {
  }

  lemma {:induction false} OpenParts(msgs: seq<Message>, n: nat, at: Option<string>, mid: string)
    ensures SameParts(msgs, WithAssistant(msgs, n, at, mid))
  {
  }

  lemma {:induction false} SaidKeepsParts(msgs: seq<Message>, kind: Kind, text: string, mid: string)
    requires msgs != [] && Last(msgs).Assistant?
    ensures SameParts(msgs, AddSaid(msgs, kind, text, mid))
  {
  }

  lemma {:induction false} SameTwice(a: seq<Message>, b: seq<Message>, c: seq<Message>)
    requires SameParts(a, b) && SameParts(b, c)
    ensures SameParts(a, c)
  {
  }

  /** The table has the tools that were called. */
  ghost predicate Listed(all: seq<Line>, tools: map<string, (nat, nat)>, n: nat)
    requires n <= |all|
  {
    forall tid :: tid in tools <==> tid != "" && exists k :: 0 <= k < n && Names(all[k], tid)
  }

  lemma {:induction false} ListedStep(all: seq<Line>, s: State, n: nat)
    requires n < |all| && Listed(all, s.tools, n)
    ensures Listed(all, Step(s, n + 1, all[n]).tools, n + 1)
    ensures IsCall(all[n]) ==> (Opens(all, n) <==> all[n].u.tid == "" || all[n].u.tid !in s.tools)
  {
    hide Touch, AddUser, AddSaid, ChangeAt;
    var t, tools := n + 1, Step(s, n + 1, all[n]).tools;
    forall tid ensures tid in tools <==> tid != "" && exists k :: 0 <= k < t && Names(all[k], tid) {
      if tid in s.tools {
        var k :| 0 <= k < n && Names(all[k], tid);
      }
      if Names(all[n], tid) {
        assert 0 <= n < t;
      }
    }
  }

  // ---------------------------------------------------------------- a whole log

  /** The fold of the first n lines, by the lines. */
  ghost predicate Tells(all: seq<Line>, n: nat, bs: seq<nat>, pss: seq<seq<nat>>)
    requires n <= |all|
  {
    var s := Fold(all[..n]);
    && Shape(all, s.msgs, bs, pss, n, n, false) && (bs != [] ==> bs[|bs| - 1] < n)
    && ToolsSay(all, s.msgs, pss, n) && Listed(all, s.tools, n)
  }

  lemma {:induction false} FoldOne(all: seq<Line>, n: nat)
    requires n < |all|
    ensures Fold(all[..n + 1]) == Step(Fold(all[..n]), n + 1, all[n])
  {
    hide Step;
    assert all[..n + 1][..n] == all[..n];
  }

  lemma {:induction false} ChunkTells(all: seq<Line>, n: nat, bs: seq<nat>, pss: seq<seq<nat>>)
    returns (bs': seq<nat>, pss': seq<seq<nat>>)
    requires n < |all| && Tells(all, n, bs, pss) && (IsUser(all[n]) || IsAgent(all[n]))
    ensures Tells(all, n + 1, bs', pss')
  {
    hide Shape, ToolsSay, SameParts, Prolongs, Listed, Touch, AddUser, WithAssistant, AddSaid;
    var s, t, at, u := Fold(all[..n]), n + 1, all[n].at, all[n].u;
    var msgs := Touch(s.msgs, at);
    FoldOne(all, n);
    ListedStep(all, s, n);
    TouchShape(all, s.msgs, bs, pss, n);
    TouchParts(s.msgs, at);
    if IsUser(all[n]) {
      bs', pss' := UserShape(all, msgs, bs, pss, n);
      UserParts(msgs, t, at, u.text, u.mid);
      SameTwice(s.msgs, msgs, AddUser(msgs, t, at, u.text, u.mid));
    } else {
      var open := WithAssistant(msgs, t, at, u.mid);
      bs', pss' := AgentShape(all, msgs, bs, pss, n);
      OpenParts(msgs, t, at, u.mid);
      SaidKeepsParts(open, u.kind, u.text, u.mid);
      SameTwice(s.msgs, msgs, open);
      SameTwice(s.msgs, open, AddSaid(open, u.kind, u.text, u.mid));
    }
    SameSay(all, s.msgs, Fold(all[..t]).msgs, pss, pss', n);
  }

  lemma {:induction false} OpenedSays(all: seq<Line>, open: seq<Message>, pss: seq<seq<nat>>, n: nat, p: Part)
    requires n < |all| && ToolsSay(all, open, pss, n + 1) && ToolSays(all, p, n, n + 1)
    requires open != [] && Last(open).Assistant? && |pss| == |open|
    requires EndsWith(pss[|open| - 1], |Last(open).parts|, n)
    ensures ToolsSay(all, ReplaceLast(open, Last(open).(parts := Last(open).parts + [p])), pss, n + 1)
  {
    hide ToolSays;
    var after := ReplaceLast(open, Last(open).(parts := Last(open).parts + [p]));
    forall k: nat, j: nat | IsTool(after, k, j)
      ensures k < |pss| && j < |pss[k]| && ToolSays(all, after[k].parts[j], pss[k][j], n + 1)
    {
      if k < |open| - 1 || j < |Last(open).parts| {
        assert IsTool(open, k, j);
      }
    }
  }

  lemma {:induction false} CallTells(all: seq<Line>, n: nat, bs: seq<nat>, pss: seq<seq<nat>>)
    returns (bs': seq<nat>, pss': seq<seq<nat>>)
    requires n < |all| && Tells(all, n, bs, pss) && IsCall(all[n])
    ensures Tells(all, n + 1, bs', pss')
  {
    hide Shape, ToolsSay, SameParts, Prolongs, Listed, Touch, WithAssistant, Opens;
    var s, t, at, u := Fold(all[..n]), n + 1, all[n].at, all[n].u;
    var msgs := Touch(s.msgs, at);
    var open := WithAssistant(msgs, t, at, u.mid);
    FoldOne(all, n);
    ListedStep(all, s, n);
    TouchShape(all, s.msgs, bs, pss, n);
    TouchParts(s.msgs, at);
    bs', pss' := CallShape(all, msgs, bs, pss, n);
    OpenParts(msgs, t, at, u.mid);
    SameTwice(s.msgs, msgs, open);
    SameSay(all, s.msgs, open, pss, pss', n);
    if Opens(all, n) {
      NewSays(all, n);
      OpenedSays(all, open, pss', n, NewTool(u.tid, u.call));
    }
  }

  lemma {:induction false} UpdateSays(all: seq<Line>, s: State, pss: seq<seq<nat>>, n: nat)
    requires n < |all| && all[n].Says? && all[n].u.ToolUpdate? && ToolsSay(all, s.msgs, pss, n)
    requires Located(s.msgs, s.tools)
    ensures ToolsSay(all, Step(s, n + 1, all[n]).msgs, pss, n + 1)
  {
    hide ToolSays, Changed;
    var at, tid, c, t := all[n].at, all[n].u.tid, all[n].u.change, n + 1;
    var msgs, after := Touch(s.msgs, at), Step(s, t, all[n]).msgs;
    forall k: nat, j: nat | IsTool(after, k, j)
      ensures k < |pss| && j < |pss[k]| && ToolSays(all, after[k].parts[j], pss[k][j], t)
    {
      assert IsTool(s.msgs, k, j) && msgs[k].parts[j] == s.msgs[k].parts[j];
      var p := s.msgs[k].parts[j];
      ToolAfter(all, p, pss[k][j], n);
      assert after[k].parts[j] == if p.id == tid != "" then Changed(p, c) else p;
    }
  }

  lemma {:induction false} OtherTells(all: seq<Line>, n: nat, bs: seq<nat>, pss: seq<seq<nat>>)
    requires n < |all| && Tells(all, n, bs, pss) && Quiet(all[n])
    ensures Tells(all, n + 1, bs, pss)
  {
    hide Shape, ToolsSay, SameParts, Listed, Touch, ChangeAt, Located;
    var s, t := Fold(all[..n]), n + 1;
    FoldOne(all, n);
    ListedStep(all, s, n);
    AllLocated(all[..n]);
    Prolonged(pss);
    if all[n].Skipped? {
      TouchShape(all, s.msgs, bs, pss, n);
      QuietShape(all, s.msgs, bs, pss, n);
      SameAsBefore(s.msgs);
      SameSay(all, s.msgs, s.msgs, pss, pss, n);
    } else {
      var msgs, u := Touch(s.msgs, all[n].at), all[n].u;
      TouchShape(all, s.msgs, bs, pss, n);
      QuietShape(all, msgs, bs, pss, n);
      if u.ToolUpdate? {
        UpdateSays(all, s, pss, n);
        if u.tid in s.tools {
          ChangeShape(all, msgs, bs, pss, t, t, s.tools[u.tid].0, s.tools[u.tid].1, u.change);
        }
      } else {
        TouchParts(s.msgs, all[n].at);
        SameSay(all, s.msgs, msgs, pss, pss, n);
      }
    }
  }

  lemma {:induction false} QuietShape(all: seq<Line>, msgs: seq<Message>, bs: seq<nat>, pss: seq<seq<nat>>, n: nat)
    requires n < |all| && Quiet(all[n]) && Shape(all, msgs, bs, pss, n, n + 1, false)
    ensures var t := n + 1; Shape(all, msgs, bs, pss, t, t, false)
  {
    hide Shape;
    IdleShape(all, msgs, bs, pss, n);
  }

  lemma {:induction false} Prolonged(pss: seq<seq<nat>>)
    ensures Prolongs(pss, pss)
  {
  }

  lemma {:induction false} SameAsBefore(msgs: seq<Message>)
    ensures SameParts(msgs, msgs)
  {
  }

  lemma {:induction false} AllTell(all: seq<Line>, n: nat) returns (bs: seq<nat>, pss: seq<seq<nat>>)
    requires n <= |all|
    ensures Tells(all, n, bs, pss)
  {
    hide Tells;
    if n == 0 {
      bs, pss := [], [];
      NothingTold(all);
    } else {
      bs, pss := AllTell(all, n - 1);
      if IsUser(all[n - 1]) || IsAgent(all[n - 1]) {
        bs, pss := ChunkTells(all, n - 1, bs, pss);
      } else if IsCall(all[n - 1]) {
        bs, pss := CallTells(all, n - 1, bs, pss);
      } else {
        OtherTells(all, n - 1, bs, pss);
      }
    }
  }

  lemma {:induction false} NothingTold(all: seq<Line>)
    ensures Tells(all, 0, [], [])
  {
  }

  // ---------------------------------------------------------------- as returned

  lemma {:induction false} PublicIs(all: seq<Line>, m: Message, b: nat, e: nat, t: nat, ps: seq<nat>)
    requires MessageIs(all, m, b, e, t, ps, false)
    ensures MessageIs(all, Public(m), b, e, t, ps, true)
  {
    if m.Assistant? {
      var parts := Public(m).parts;
      forall j | 0 <= j < |ps| ensures PartIs(all, parts[j], ps[j], EndOf(ps, j, e), true) {
        assert PartIs(all, m.parts[j], ps[j], EndOf(ps, j, e), false);
      }
    }
  }

  /**
    The returned messages by the lines alone. They begin at rising lines and are made of the lines from
    one beginning to the next; what a user's or an agent's chunk goes on with, and with what it does
    not, is said of each. Each carries the id and the stamp of its first line and the last stamp written
    while it was the newest. Each part of an agent's is made of its lines in the same way, and a tool's
    has of every field what the last update of it that says so says, or else its call.
   */
  lemma {:induction false} Transcript(lines: seq<Line>) returns (bs: seq<nat>, pss: seq<seq<nat>>)
    ensures var out, n := Returned(Fold(lines).msgs), |lines|;
            Shape(lines, out, bs, pss, n, n, true) && ToolsSay(lines, out, pss, n)
  {
    hide MessageIs, ToolSays, Quiet;
    var n := |lines|;
    bs, pss := AllTell(lines, n);
    assert lines[..n] == lines;
    var msgs, out := Fold(lines).msgs, Returned(Fold(lines).msgs);
    forall k: nat | k < |bs| ensures NthIs(lines, out, bs, pss, k, n, n, true) {
      assert NthIs(lines, msgs, bs, pss, k, n, n, false);
      PublicIs(lines, msgs[k], bs[k], EndOf(bs, k, n), TouchedTo(bs, k, n), pss[k]);
    }
    forall k: nat, j: nat | IsTool(out, k, j)
      ensures k < |pss| && j < |pss[k]| && ToolSays(lines, out[k].parts[j], pss[k][j], n)
    {
      assert IsTool(msgs, k, j);
    }
  }

  // ---------------------------------------------------------------- the session's own fields

  /** The last title, or mode, that is not empty. */
  function LastTitle(lines: seq<Line>): string {
    if lines == [] then ""
    else
      match lines[|lines| - 1]
      case Says(_, InfoTitle(title)) => if title != "" then title else LastTitle(lines[..|lines| - 1])
      case _ => LastTitle(lines[..|lines| - 1])
  }

  function LastMode(lines: seq<Line>): string {
    if lines == [] then ""
    else
      match lines[|lines| - 1]
      case Says(_, CurrentMode(mode)) => if mode != "" then mode else LastMode(lines[..|lines| - 1])
      case _ => LastMode(lines[..|lines| - 1])
  }

  lemma {:induction false} InfoMeaning(lines: seq<Line>)
    ensures Fold(lines).info == Info(LastTitle(lines), LastMode(lines))
  {
    hide Touch, AddUser, AddSaid, ChangeAt;
    if lines != [] {
      InfoMeaning(lines[..|lines| - 1]);
    }
  }
}
