/**
  Gemini's log folded into messages (`gemini_fold` and `_gemini_patch` in harnesses.py).

  Python's dict of messages keeps its keys in the order they came; here it is the sequence of its
  messages, each holding its key as its id.
 */
module GeminiFold {
  import opened Wrappers

  type Json = string

  /** A tool call of a message; what is no record is kept as it is. */
  datatype Call = Call(id: Option<Json>, result: Option<Json>, rest: Json) | NoCall(raw: Json)

  datatype Message = Message(id: string, content: Option<Json>, calls: seq<Call>, rest: Json)

  /** What a `$patch`, or one of its `updates`, changes. */
  datatype Change = Change(id: Option<string>, content: Option<Json>, calls: seq<Call>)

  datatype Patch = Patch(top: Change, updates: seq<Option<Change>>, removeIds: seq<string>, orderIds: seq<string>)

  type Meta = map<string, Json>

  /** A `$set`, or a line with a `sessionId`: its list of messages, and every other key. */
  datatype Fields = Fields(messages: Option<seq<Option<Message>>>, meta: Meta)

  /** A line by the keys that are looked for, in the order they are looked for; None is no record. */
  datatype Record = Record(rewindTo: Option<string>, patch: Option<Patch>, message: Option<Message>,
                           setTo: Option<Fields>, session: Option<Fields>)

  type Line = Option<Record>

  datatype State = State(meta: Meta, msgs: seq<Message>)

  const START := State(map[], [])

  // ---------------------------------------------------------------- the dict

  /** The place of a key, or the length when there is none. */
  function IndexOf(msgs: seq<Message>, id: string): (k: nat)
    ensures k <= |msgs|
    ensures k < |msgs| ==> msgs[k].id == id
    ensures forall i :: 0 <= i < k ==> msgs[i].id != id
  {
    if msgs == [] then 0
    else
      var k := IndexOf(msgs[..|msgs| - 1], id);
      if k < |msgs| - 1 then k
      else if msgs[|msgs| - 1].id == id then |msgs| - 1 else |msgs|
  }

  predicate Has(msgs: seq<Message>, id: string) {
    IndexOf(msgs, id) < |msgs|
  }

  function Get(msgs: seq<Message>, id: string): (m: Message)
    requires Has(msgs, id)
    ensures m.id == id && m in msgs
  {
    msgs[IndexOf(msgs, id)]
  }

  /** A key that is there keeps its place. */
  function Put(msgs: seq<Message>, m: Message): seq<Message> {
    if Has(msgs, m.id) then msgs[IndexOf(msgs, m.id) := m] else msgs + [m]
  }

  function PutAll(msgs: seq<Message>, list: seq<Option<Message>>): seq<Message> {
    if list == [] then msgs
    else
      var before := PutAll(msgs, list[..|list| - 1]);
      match list[|list| - 1]
      case None => before
      case Some(m) => Put(before, m)
  }

  function Pop(msgs: seq<Message>, id: string): seq<Message> {
    var k := IndexOf(msgs, id);
    if k < |msgs| then msgs[..k] + msgs[k + 1..] else msgs
  }

  function PopAll(msgs: seq<Message>, ids: seq<string>): seq<Message> {
    if ids == [] then msgs else Pop(PopAll(msgs, ids[..|ids| - 1]), ids[|ids| - 1])
  }

  ghost predicate Distinct(msgs: seq<Message>) {
    forall i, j :: 0 <= i < j < |msgs| ==> msgs[i].id != msgs[j].id
  }

  // ---------------------------------------------------------------- one line

  function Rewound(msgs: seq<Message>, to: string): seq<Message> {
    if Has(msgs, to) then msgs[..IndexOf(msgs, to)] else []
  }

  /** One call's result, given to every call of the same id. */
  function GiveResult(calls: seq<Call>, tc: Call): (r: seq<Call>)
    ensures |r| == |calls|
  {
    if !(tc.Call? && tc.result.Some?) then calls
    else seq(|calls|, i requires 0 <= i < |calls| =>
               if calls[i].Call? && calls[i].id == tc.id then calls[i].(result := tc.result) else calls[i])
  }

  function GiveResults(calls: seq<Call>, given: seq<Call>): (r: seq<Call>)
    ensures |r| == |calls|
  {
    if given == [] then calls else GiveResult(GiveResults(calls, given[..|given| - 1]), given[|given| - 1])
  }

  function Amended(m: Message, c: Change): Message {
    m.(content := if c.content.Some? then c.content else m.content, calls := GiveResults(m.calls, c.calls))
  }

  function Patched(msgs: seq<Message>, c: Change): seq<Message> {
    if c.id.Some? && Has(msgs, c.id.value)
    then var k := IndexOf(msgs, c.id.value); msgs[k := Amended(msgs[k], c)]
    else msgs
  }

  function PatchedAll(msgs: seq<Message>, updates: seq<Option<Change>>): seq<Message> {
    if updates == [] then msgs
    else
      var before := PatchedAll(msgs, updates[..|updates| - 1]);
      match updates[|updates| - 1]
      case None => before
      case Some(c) => Patched(before, c)
  }

  /** The ids that are keys, duplicates and all. */
  function Known(msgs: seq<Message>, ids: seq<string>): (r: seq<string>)
    ensures forall k :: 0 <= k < |r| ==> Has(msgs, r[k])
  {
    if ids == [] then []
    else
      var before := Known(msgs, ids[..|ids| - 1]);
      if Has(msgs, ids[|ids| - 1]) then before + [ids[|ids| - 1]] else before
  }

  function Unnamed(msgs: seq<Message>, ids: seq<string>): seq<Message> {
    if msgs == [] then []
    else
      var before := Unnamed(msgs[..|msgs| - 1], ids);
      if msgs[|msgs| - 1].id in ids then before else before + [msgs[|msgs| - 1]]
  }

  function Looked(msgs: seq<Message>, ids: seq<string>): (r: seq<Option<Message>>)
    requires forall k :: 0 <= k < |ids| ==> Has(msgs, ids[k])
    ensures |r| == |ids|
  {
    seq(|ids|, k requires 0 <= k < |ids| => Some(Get(msgs, ids[k])))
  }

  function Reordered(msgs: seq<Message>, orderIds: seq<string>): seq<Message> {
    var order := Known(msgs, orderIds);
    if order == [] then msgs else PutAll(Unnamed(msgs, order), Looked(msgs, order))
  }

  function Step(s: State, line: Line): State {
    match line
    case None => s
    case Some(rec) =>
      if rec.rewindTo.Some? then s.(msgs := Rewound(s.msgs, rec.rewindTo.value))
      else if rec.patch.Some? then
        var p := rec.patch.value;
        s.(msgs := Reordered(PopAll(PatchedAll(Patched(s.msgs, p.top), p.updates), p.removeIds), p.orderIds))
      else if rec.message.Some? then s.(msgs := Put(s.msgs, rec.message.value))
      else if rec.setTo.Some? then
        State(s.meta + rec.setTo.value.meta,
              if rec.setTo.value.messages.Some? then PutAll([], rec.setTo.value.messages.value) else s.msgs)
      else if rec.session.Some? then
        State(s.meta + rec.session.value.meta,
              if rec.session.value.messages.Some? then PutAll(s.msgs, rec.session.value.messages.value) else s.msgs)
      else s
  }

  /** What a log leaves of a state. */
  function Run(s: State, lines: seq<Line>): State {
    if lines == [] then s else Step(Run(s, lines[..|lines| - 1]), lines[|lines| - 1])
  }

  function Fold(lines: seq<Line>): State {
    Run(START, lines)
  }

  // ---------------------------------------------------------------- the loops

  method GiveEach(own: seq<Call>, tc: Call) returns (calls: seq<Call>)
    requires tc.Call? && tc.result.Some?
    ensures calls == GiveResult(own, tc)
  {
    calls := own;
    for j := 0 to |own|
      invariant |calls| == |own|
      invariant forall i :: 0 <= i < |own| ==> calls[i] == if i < j then GiveResult(own, tc)[i] else own[i]
    {
      var mine := calls[j];
      if mine.Call? && mine.id == tc.id {
        calls := calls[j := mine.(result := tc.result)];
      }
    }
  }

  method GeminiPatch(msgs: seq<Message>, patch: Change) returns (r: seq<Message>)
    ensures r == Patched(msgs, patch)
  {
    r := msgs;
    if !(patch.id.Some? && Has(msgs, patch.id.value)) {
      return;
    }
    var k := IndexOf(msgs, patch.id.value);
    var got := msgs[k];
    if patch.content.Some? {
      got := got.(content := patch.content);
    }
    for i := 0 to |patch.calls|
      invariant got == msgs[k].(content := if patch.content.Some? then patch.content else msgs[k].content,
                                calls := GiveResults(msgs[k].calls, patch.calls[..i]))
    {
      assert patch.calls[..i + 1][..i] == patch.calls[..i];
      var tc := patch.calls[i];
      if !(tc.Call? && tc.result.Some?) {
        continue;
      }
      var calls := GiveEach(got.calls, tc);
      got := got.(calls := calls);
    }
    assert patch.calls[..|patch.calls|] == patch.calls;
    r := msgs[k := got];
  }

  method PatchRecord(start: seq<Message>, p: Patch) returns (msgs: seq<Message>)
    ensures msgs == Reordered(PopAll(PatchedAll(Patched(start, p.top), p.updates), p.removeIds), p.orderIds)
  {
    msgs := GeminiPatch(start, p.top);
    ghost var first := msgs;
    for i := 0 to |p.updates|
      invariant msgs == PatchedAll(first, p.updates[..i])
    {
      assert p.updates[..i + 1][..i] == p.updates[..i];
      if p.updates[i].Some? {
        msgs := GeminiPatch(msgs, p.updates[i].value);
      }
    }
    assert p.updates[..|p.updates|] == p.updates;
    ghost var second := msgs;
    for i := 0 to |p.removeIds|
      invariant msgs == PopAll(second, p.removeIds[..i])
    {
      assert p.removeIds[..i + 1][..i] == p.removeIds[..i];
      msgs := Pop(msgs, p.removeIds[i]);
    }
    assert p.removeIds[..|p.removeIds|] == p.removeIds;
    var order := Known(msgs, p.orderIds);
    if order != [] {
      msgs := PutEach(Unnamed(msgs, order), Looked(msgs, order));
    }
  }

  method PutEach(start: seq<Message>, list: seq<Option<Message>>) returns (msgs: seq<Message>)
    ensures msgs == PutAll(start, list)
  {
    msgs := start;
    for i := 0 to |list|
      invariant msgs == PutAll(start, list[..i])
    {
      assert list[..i + 1][..i] == list[..i];
      if list[i].Some? {
        msgs := Put(msgs, list[i].value);
      }
    }
    assert list[..|list|] == list;
  }

  method GeminiFold(lines: seq<Line>) returns (meta: Meta, msgs: seq<Message>)
    ensures State(meta, msgs) == Fold(lines)
  {
    meta, msgs := map[], [];
    var n := 0;
    while n < |lines|
      invariant 0 <= n <= |lines|
      invariant State(meta, msgs) == Fold(lines[..n])
    {
      assert lines[..n + 1][..n] == lines[..n];
      var line := lines[n];
      n := n + 1;
      if line.None? {
        continue;
      }
      var rec := line.value;
      if rec.rewindTo.Some? {
        var cut := if Has(msgs, rec.rewindTo.value) then IndexOf(msgs, rec.rewindTo.value) else 0;
        msgs := msgs[..cut];
      } else if rec.patch.Some? {
        msgs := PatchRecord(msgs, rec.patch.value);
      } else if rec.message.Some? {
        msgs := Put(msgs, rec.message.value);
      } else if rec.setTo.Some? {
        if rec.setTo.value.messages.Some? {
          msgs := PutEach([], rec.setTo.value.messages.value);
        }
        meta := meta + rec.setTo.value.meta;
      } else if rec.session.Some? {
        meta := meta + rec.session.value.meta;
        if rec.session.value.messages.Some? {
          msgs := PutEach(msgs, rec.session.value.messages.value);
        }
      }
    }
    assert lines[..n] == lines;
  }

  // ---------------------------------------------------------------- ids stay distinct

  lemma {:induction false} PutAllDistinct(msgs: seq<Message>, list: seq<Option<Message>>)
    requires Distinct(msgs)
    ensures Distinct(PutAll(msgs, list))
  {
    if list != [] {
      PutAllDistinct(msgs, list[..|list| - 1]);
    }
  }

  lemma {:induction false} PopAllDistinct(msgs: seq<Message>, ids: seq<string>)
    requires Distinct(msgs)
    ensures Distinct(PopAll(msgs, ids))
  {
    if ids != [] {
      PopAllDistinct(msgs, ids[..|ids| - 1]);
    }
  }

  lemma {:induction false} PatchedAllDistinct(msgs: seq<Message>, updates: seq<Option<Change>>)
    requires Distinct(msgs)
    ensures Distinct(PatchedAll(msgs, updates))
  {
    if updates != [] {
      PatchedAllDistinct(msgs, updates[..|updates| - 1]);
    }
  }

  lemma {:induction false} UnnamedIn(msgs: seq<Message>, ids: seq<string>)
    requires Distinct(msgs)
    ensures Distinct(Unnamed(msgs, ids))
    ensures forall m :: m in Unnamed(msgs, ids) <==> m in msgs && m.id !in ids
  {
    if msgs != [] {
      var k := |msgs| - 1;
      UnnamedIn(msgs[..k], ids);
      assert msgs == msgs[..k] + [msgs[k]];
    }
  }

  lemma {:induction false} StepDistinct(s: State, line: Line)
    requires Distinct(s.msgs)
    ensures Distinct(Step(s, line).msgs)
  {
    if line.Some? {
      var rec := line.value;
      if rec.rewindTo.Some? {
      } else if rec.patch.Some? {
        hide Distinct;
        PatchDistinct(s.msgs, rec.patch.value);
      } else if rec.message.Some? {
      } else if rec.setTo.Some? {
        if rec.setTo.value.messages.Some? {
          PutAllDistinct([], rec.setTo.value.messages.value);
        }
      } else if rec.session.Some? && rec.session.value.messages.Some? {
        PutAllDistinct(s.msgs, rec.session.value.messages.value);
      }
    }
  }

  lemma {:induction false} PatchDistinct(msgs: seq<Message>, p: Patch)
    requires Distinct(msgs)
    ensures Distinct(Reordered(PopAll(PatchedAll(Patched(msgs, p.top), p.updates), p.removeIds), p.orderIds))
  {
    var first := Patched(msgs, p.top);
    assert Distinct(first);
    hide Distinct, Patched;
    PatchedAllDistinct(first, p.updates);
    var left := PopAll(PatchedAll(first, p.updates), p.removeIds);
    PopAllDistinct(PatchedAll(first, p.updates), p.removeIds);
    var order := Known(left, p.orderIds);
    UnnamedIn(left, order);
    PutAllDistinct(Unnamed(left, order), Looked(left, order));
  }

  /** Whatever the log, no two messages share an id. */
  lemma {:induction false} RunDistinct(s: State, lines: seq<Line>)
    requires Distinct(s.msgs)
    ensures Distinct(Run(s, lines).msgs)
  {
    if lines != [] {
      RunDistinct(s, lines[..|lines| - 1]);
      StepDistinct(Run(s, lines[..|lines| - 1]), lines[|lines| - 1]);
    }
  }

  // ---------------------------------------------------------------- a log may be cut and compacted

  lemma {:induction false} RunOn(s: State, prefix: seq<Line>, suffix: seq<Line>)
    ensures Run(s, prefix + suffix) == Run(Run(s, prefix), suffix)
  {
    if suffix == [] {
      assert prefix + suffix == prefix;
    } else {
      var k := |suffix| - 1;
      assert (prefix + suffix)[..|prefix + suffix| - 1] == prefix + suffix[..k];
      RunOn(s, prefix, suffix[..k]);
    }
  }

  function Listed(msgs: seq<Message>): seq<Option<Message>> {
    seq(|msgs|, i requires 0 <= i < |msgs| => Some(msgs[i]))
  }

  /** One `$set` line holding a state. */
  function Snapshot(s: State): Line {
    Some(Record(None, None, None, Some(Fields(Some(Listed(s.msgs)), s.meta)), None))
  }

  lemma {:induction false} PutAllListed(msgs: seq<Message>)
    requires Distinct(msgs)
    ensures PutAll([], Listed(msgs)) == msgs
  {
    if msgs != [] {
      var k := |msgs| - 1;
      PutAllListed(msgs[..k]);
      assert Listed(msgs)[..k] == Listed(msgs[..k]);
      assert !Has(msgs[..k], msgs[k].id);
      assert msgs == msgs[..k] + [msgs[k]];
    }
  }

  /** Any beginning of a log can be replaced by one line with what it came to. */
  lemma {:induction false} Compacts(prefix: seq<Line>, suffix: seq<Line>)
    ensures Fold([Snapshot(Fold(prefix))] + suffix) == Fold(prefix + suffix)
  {
    hide Step, Snapshot, Run, Distinct;
    var s := Fold(prefix);
    RunOn(START, prefix, suffix);
    RunOn(START, [Snapshot(s)], suffix);
    RunDistinct(START, prefix);
    SnapshotStep(s);
    RunOne(START, Snapshot(s));
  }

  lemma {:induction false} SnapshotStep(s: State)
    requires Distinct(s.msgs)
    ensures Step(START, Snapshot(s)) == s
  {
    PutAllListed(s.msgs);
    assert map[] + s.meta == s.meta;
  }

  lemma {:induction false} RunOne(s: State, line: Line)
    ensures Run(s, [line]) == Step(s, line)
  {
    hide Step;
    assert [line][..0] == [];
  }

  // ---------------------------------------------------------------- what each line means

  lemma {:induction false} HasMeans(msgs: seq<Message>, id: string)
    ensures Has(msgs, id) <==> exists i :: 0 <= i < |msgs| && msgs[i].id == id
  {
  }

  /** A rewind leaves exactly what came before the message named, or nothing when none is. */
  lemma {:induction false} RewindMeaning(s: State, rec: Record, k: nat)
    requires rec.rewindTo.Some? && Distinct(s.msgs)
    requires k < |s.msgs| && s.msgs[k].id == rec.rewindTo.value
    ensures Step(s, Some(rec)) == s.(msgs := s.msgs[..k])
  {
    HasMeans(s.msgs, rec.rewindTo.value);
    assert IndexOf(s.msgs, rec.rewindTo.value) == k;
  }

  lemma {:induction false} RewindToUnknown(s: State, rec: Record)
    requires rec.rewindTo.Some? && forall m :: m in s.msgs ==> m.id != rec.rewindTo.value
    ensures Step(s, Some(rec)) == s.(msgs := [])
  {
    HasMeans(s.msgs, rec.rewindTo.value);
  }

  /** Each id once, where it first is. */
  function Firsts(ids: seq<string>): seq<string> {
    if ids == [] then []
    else
      var before := Firsts(ids[..|ids| - 1]);
      if ids[|ids| - 1] in before then before else before + [ids[|ids| - 1]]
  }

  function Ids(msgs: seq<Message>): (r: seq<string>)
    ensures |r| == |msgs|
  {
    seq(|msgs|, i requires 0 <= i < |msgs| => msgs[i].id)
  }

  lemma {:induction false} FirstsIn(ids: seq<string>, id: string)
    ensures id in Firsts(ids) <==> id in ids
  {
    if ids != [] {
      FirstsIn(ids[..|ids| - 1], id);
      assert ids == ids[..|ids| - 1] + [ids[|ids| - 1]];
    }
  }

  lemma {:induction false} HasLooks(msgs: seq<Message>, id: string)
    ensures Has(msgs, id) <==> id in Ids(msgs)
  {
    HasMeans(msgs, id);
    if Has(msgs, id) {
      assert Ids(msgs)[IndexOf(msgs, id)] == id;
    }
  }

  lemma {:induction false} KnownIn(msgs: seq<Message>, ids: seq<string>, id: string)
    ensures id in Known(msgs, ids) <==> id in ids && Has(msgs, id)
  {
    if ids != [] {
      KnownIn(msgs, ids[..|ids| - 1], id);
      assert ids == ids[..|ids| - 1] + [ids[|ids| - 1]];
    }
  }

  /** What a reorder leaves when every id of `ids` is a key and `rest` names none of them. */
  lemma {:induction false} PutNamed(msgs: seq<Message>, rest: seq<Message>, ids: seq<string>)
    requires Distinct(msgs) && forall k :: 0 <= k < |ids| ==> Has(msgs, ids[k])
    requires forall k :: 0 <= k < |ids| ==> !Has(rest, ids[k])
    ensures forall k :: 0 <= k < |Firsts(ids)| ==> Has(msgs, Firsts(ids)[k])
    ensures PutAll(rest, Looked(msgs, ids)) == rest + Picked(msgs, Firsts(ids))
  {
    hide Put, Has, Distinct;
    if ids != [] {
      var k := |ids| - 1;
      var id, firsts := ids[k], Firsts(ids[..k]);
      PutNamed(msgs, rest, ids[..k]);
      assert Looked(msgs, ids)[..k] == Looked(msgs, ids[..k]);
      var before, m := rest + Picked(msgs, firsts), Get(msgs, id);
      assert PutAll(rest, Looked(msgs, ids)) == Put(before, m);
      PutPicked(msgs, rest, firsts, id);
      if id !in firsts {
        assert Picked(msgs, firsts + [id]) == Picked(msgs, firsts) + [m];
      }
    }
  }

  lemma {:induction false} PutPicked(msgs: seq<Message>, rest: seq<Message>, firsts: seq<string>, id: string)
    requires Has(msgs, id) && !Has(rest, id)
    requires forall k :: 0 <= k < |firsts| ==> Has(msgs, firsts[k])
    ensures var before, m := rest + Picked(msgs, firsts), Get(msgs, id);
            Put(before, m) == if id in firsts then before else before + [m]
  {
    var before, m := rest + Picked(msgs, firsts), Get(msgs, id);
    HasMeans(rest, id);
    HasMeans(before, id);
    if id in firsts {
      var j :| 0 <= j < |firsts| && firsts[j] == id;
      assert before[|rest| + j] == m;
      assert IndexOf(before, id) >= |rest|;
    }
  }

  /** The messages of some keys. */
  function Picked(msgs: seq<Message>, ids: seq<string>): (r: seq<Message>)
    requires forall k :: 0 <= k < |ids| ==> Has(msgs, ids[k])
    ensures |r| == |ids| && forall k :: 0 <= k < |ids| ==> r[k].id == ids[k]
  {
    seq(|ids|, k requires 0 <= k < |ids| => Get(msgs, ids[k]))
  }

  lemma {:induction false} DistinctOnce(msgs: seq<Message>, m: Message)
    requires Distinct(msgs)
    ensures multiset(msgs)[m] == if m in msgs then 1 else 0
  {
    if msgs != [] {
      var k := |msgs| - 1;
      DistinctOnce(msgs[..k], m);
      assert msgs == msgs[..k] + [msgs[k]];
    }
  }

  lemma {:induction false} SameContents(a: seq<Message>, b: seq<Message>)
    requires Distinct(a) && Distinct(b) && forall m :: m in a <==> m in b
    ensures multiset(a) == multiset(b)
  {
    forall m ensures multiset(a)[m] == multiset(b)[m] {
      DistinctOnce(a, m);
      DistinctOnce(b, m);
    }
  }

  lemma {:induction false} UnnamedByKnown(msgs: seq<Message>, ids: seq<string>, known: seq<string>)
    requires forall k :: 0 <= k < |msgs| ==> (msgs[k].id in ids <==> msgs[k].id in known)
    ensures Unnamed(msgs, ids) == Unnamed(msgs, known)
  {
    if msgs != [] {
      var k := |msgs| - 1;
      UnnamedByKnown(msgs[..k], ids, known);
      assert msgs[k].id in ids <==> msgs[k].id in known;
    }
  }

  lemma {:induction false} NoneNamed(msgs: seq<Message>)
    ensures Unnamed(msgs, []) == msgs
  {
    if msgs != [] {
      var k := |msgs| - 1;
      NoneNamed(msgs[..k]);
      assert msgs == msgs[..k] + [msgs[k]];
    }
  }

  lemma {:induction false} FirstsDistinct(ids: seq<string>)
    ensures forall i, j :: 0 <= i < j < |Firsts(ids)| ==> Firsts(ids)[i] != Firsts(ids)[j]
  {
    if ids != [] {
      FirstsDistinct(ids[..|ids| - 1]);
    }
  }

  /** Every key of `msgs` is in just one of the two halves. */
  lemma {:induction false} HalvesAreAll(msgs: seq<Message>, order: seq<string>)
    requires Distinct(msgs) && forall k :: 0 <= k < |order| ==> Has(msgs, order[k])
    requires forall k :: 0 <= k < |Firsts(order)| ==> Has(msgs, Firsts(order)[k])
    ensures multiset(Unnamed(msgs, order) + Picked(msgs, Firsts(order))) == multiset(msgs)
  {
    var rest, firsts := Unnamed(msgs, order), Firsts(order);
    var picked := Picked(msgs, firsts);
    UnnamedIn(msgs, order);
    FirstsDistinct(order);
    forall m ensures m in rest + picked <==> m in msgs {
      FirstsIn(order, m.id);
      if m in msgs && m.id in order {
        var j :| 0 <= j < |firsts| && firsts[j] == m.id;
        IndexIs(msgs, m);
        assert picked[j] == m;
      }
      if m in picked {
        var j :| 0 <= j < |picked| && picked[j] == m;
        assert Has(msgs, firsts[j]);
      }
    }
    forall i, j | 0 <= i < |rest| && 0 <= j < |picked| ensures rest[i].id != picked[j].id {
      assert rest[i] in rest;
      FirstsIn(order, firsts[j]);
    }
    assert Distinct(rest + picked);
    SameContents(rest + picked, msgs);
  }

  lemma {:induction false} IndexIs(msgs: seq<Message>, m: Message)
    requires Distinct(msgs) && m in msgs
    ensures Has(msgs, m.id) && Get(msgs, m.id) == m
  {
    HasMeans(msgs, m.id);
  }

  /**
    A reorder keeps every message as it is and once: first those that are not named, in the order
    they had, then those that are, in the order their ids first come in.
   */
  lemma {:induction false} ReorderMeaning(msgs: seq<Message>, orderIds: seq<string>)
    requires Distinct(msgs)
    ensures multiset(Reordered(msgs, orderIds)) == multiset(msgs)
    ensures var rest, r := Unnamed(msgs, orderIds), Reordered(msgs, orderIds);
            && |rest| <= |r| && r[..|rest|] == rest
            && Ids(r[|rest|..]) == Firsts(Known(msgs, orderIds))
  {
    var order := Known(msgs, orderIds);
    forall k | 0 <= k < |msgs| ensures msgs[k].id in orderIds <==> msgs[k].id in order {
      assert msgs[k] in msgs;
      KnownIn(msgs, orderIds, msgs[k].id);
      IndexIs(msgs, msgs[k]);
    }
    UnnamedByKnown(msgs, orderIds, order);
    if order == [] {
      NoneNamed(msgs);
    }
    var rest := Unnamed(msgs, order);
    if order != [] {
      forall k | 0 <= k < |order| ensures !Has(rest, order[k]) {
        HasMeans(rest, order[k]);
        UnnamedIn(msgs, order);
      }
      PutNamed(msgs, rest, order);
      HalvesAreAll(msgs, order);
      var picked := Picked(msgs, Firsts(order));
      assert Ids(picked) == Firsts(order);
      assert (rest + picked)[|rest|..] == picked;
    }
  }

  /** The last of a change's calls that has this id and a result. */
  function LastGiven(given: seq<Call>, id: Option<Json>): Option<Json> {
    if given == [] then None
    else
      var c := given[|given| - 1];
      if c.Call? && c.result.Some? && c.id == id then c.result else LastGiven(given[..|given| - 1], id)
  }

  lemma {:induction false} GiveResultsMeans(calls: seq<Call>, given: seq<Call>, i: nat)
    requires i < |calls|
    ensures GiveResults(calls, given)[i] ==
            if calls[i].Call? && LastGiven(given, calls[i].id).Some?
            then calls[i].(result := LastGiven(given, calls[i].id)) else calls[i]
  {
    if given != [] {
      GiveResultsMeans(calls, given[..|given| - 1], i);
    }
  }

  /**
    A change touches the message it names and no other; of that one, the content when it has one and
    the result of each call the change has a result for, the last one given.
   */
  lemma {:induction false} PatchMeaning(msgs: seq<Message>, c: Change, k: nat)
    requires Distinct(msgs) && k < |msgs|
    ensures |Patched(msgs, c)| == |msgs|
    ensures c.id != Some(msgs[k].id) ==> Patched(msgs, c)[k] == msgs[k]
    ensures c.id == Some(msgs[k].id) ==>
              var m := Patched(msgs, c)[k];
              && m.id == msgs[k].id && m.rest == msgs[k].rest && |m.calls| == |msgs[k].calls|
              && (m.content == if c.content.Some? then c.content else msgs[k].content)
              && forall i :: 0 <= i < |m.calls| ==>
                   m.calls[i] == if msgs[k].calls[i].Call? && LastGiven(c.calls, msgs[k].calls[i].id).Some?
                                 then msgs[k].calls[i].(result := LastGiven(c.calls, msgs[k].calls[i].id))
                                 else msgs[k].calls[i]
  {
    if c.id == Some(msgs[k].id) {
      IndexIs(msgs, msgs[k]);
      forall i | 0 <= i < |msgs[k].calls| {
        GiveResultsMeans(msgs[k].calls, c.calls, i);
      }
    }
  }

  lemma {:induction false} UnnamedTwice(msgs: seq<Message>, ids: seq<string>, id: string)
    ensures Unnamed(Unnamed(msgs, ids), [id]) == Unnamed(msgs, ids + [id])
  {
    if msgs != [] {
      var k := |msgs| - 1;
      UnnamedTwice(msgs[..k], ids, id);
      var before := Unnamed(msgs[..k], ids);
      assert (before + [msgs[k]])[..|before|] == before;
    }
  }

  lemma {:induction false} PopPush(before: seq<Message>, m: Message, id: string)
    requires Has(before, id) ==> m.id != id
    ensures Pop(before + [m], id) == if m.id == id then before else Pop(before, id) + [m]
  {
    var all := before + [m];
    assert all[..|all| - 1] == before;
    var i := IndexOf(before, id);
    if i < |before| {
      assert all[..i] + all[i + 1..] == before[..i] + before[i + 1..] + [m];
    } else {
      assert all[..i] == before && all[i + 1..] == [];
    }
  }

  lemma {:induction false} PopIsUnnamed(msgs: seq<Message>, id: string)
    requires Distinct(msgs)
    ensures Pop(msgs, id) == Unnamed(msgs, [id])
  {
    if msgs != [] {
      var k := |msgs| - 1;
      PopIsUnnamed(msgs[..k], id);
      assert msgs == msgs[..k] + [msgs[k]];
      PopPush(msgs[..k], msgs[k], id);
      if msgs[k].id == id {
        assert !Has(msgs[..k], id);
        assert Pop(msgs[..k], id) == msgs[..k];
      }
    }
  }

  /** Removing ids leaves the messages of the other ids, in the order they had. */
  lemma {:induction false} RemoveMeaning(msgs: seq<Message>, ids: seq<string>)
    requires Distinct(msgs)
    ensures PopAll(msgs, ids) == Unnamed(msgs, ids)
  {
    hide Pop, Has, Distinct;
    if ids == [] {
      NoneNamed(msgs);
    } else {
      var k := |ids| - 1;
      RemoveMeaning(msgs, ids[..k]);
      UnnamedIn(msgs, ids[..k]);
      PopIsUnnamed(Unnamed(msgs, ids[..k]), ids[k]);
      UnnamedTwice(msgs, ids[..k], ids[k]);
      assert ids == ids[..k] + [ids[k]];
    }
  }

  // ---------------------------------------------------------------- a log of messages alone

  predicate Plain(lines: seq<Line>) {
    forall n :: 0 <= n < |lines| ==> lines[n].Some? && lines[n].value.rewindTo.None? && lines[n].value.patch.None?
                                     && lines[n].value.message.Some?
  }

  function LineIds(lines: seq<Line>): (r: seq<string>)
    requires Plain(lines)
    ensures |r| == |lines|
  {
    seq(|lines|, n requires 0 <= n < |lines| => lines[n].value.message.value.id)
  }

  /** The last line with an id. */
  ghost predicate Newest(lines: seq<Line>, m: Message)
    requires Plain(lines)
  {
    exists n :: 0 <= n < |lines| && lines[n].value.message.value == m
                && forall later :: n < later < |lines| ==> LineIds(lines)[later] != m.id
  }

  lemma {:induction false} StaysNewest(lines: seq<Line>, x: Message)
    requires lines != [] && Plain(lines) && Newest(lines[..|lines| - 1], x)
    requires lines[|lines| - 1].value.message.value.id != x.id
    ensures Newest(lines, x)
  {
    var k := |lines| - 1;
    var n :| 0 <= n < k && lines[..k][n].value.message.value == x
             && forall later :: n < later < k ==> LineIds(lines[..k])[later] != x.id;
    forall later | n < later < |lines| ensures LineIds(lines)[later] != x.id {
      assert later < k ==> LineIds(lines[..k])[later] == LineIds(lines)[later];
    }
    assert lines[n].value.message.value == x;
  }

  /** Each message is the newest line of its id, and they stand in the order the ids first appeared. */
  lemma {:induction false} PlainFold(lines: seq<Line>)
    requires Plain(lines)
    ensures Ids(Fold(lines).msgs) == Firsts(LineIds(lines))
    ensures forall m :: m in Fold(lines).msgs ==> Newest(lines, m)
  {
    hide Put, Newest;
    if lines != [] {
      var k := |lines| - 1;
      var before, m := Fold(lines[..k]).msgs, lines[k].value.message.value;
      PlainFold(lines[..k]);
      RunDistinct(START, lines[..k]);
      assert LineIds(lines)[..k] == LineIds(lines[..k]);
      HasLooks(before, m.id);
      PutIds(before, m);
      LastIsNewest(lines);
      forall x | x in Put(before, m) && x != m ensures Newest(lines, x) {
        PutOthers(before, m, x);
        StaysNewest(lines, x);
      }
    }
  }

  lemma {:induction false} LastIsNewest(lines: seq<Line>)
    requires lines != [] && Plain(lines)
    ensures Newest(lines, lines[|lines| - 1].value.message.value)
  {
  }

  lemma {:induction false} PutIds(msgs: seq<Message>, m: Message)
    requires Distinct(msgs)
    ensures Ids(Put(msgs, m)) == if Has(msgs, m.id) then Ids(msgs) else Ids(msgs) + [m.id]
  {
  }

  lemma {:induction false} PutOthers(msgs: seq<Message>, m: Message, x: Message)
    requires Distinct(msgs) && x in Put(msgs, m) && x != m
    ensures x in msgs && x.id != m.id
  {
    HasMeans(msgs, m.id);
    assert x.id != m.id by {
      var j :| 0 <= j < |Put(msgs, m)| && Put(msgs, m)[j] == x;
    }
  }
}
