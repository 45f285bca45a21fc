/**
  What each kind of line does to the state of a Gemini fold, by the line and the state before it:
  which messages are there after it and in what order, what each of them is, and the metadata.
 */
module GeminiLines {
  import opened Wrappers
  import opened GeminiFold

  // ---------------------------------------------------------------- ids

  /** The ids that are not among `out`. */
  function Except(ids: seq<string>, out: seq<string>): seq<string> {
    if ids == [] then []
    else Except(ids[..|ids| - 1], out) + if ids[|ids| - 1] in out then [] else [ids[|ids| - 1]]
  }

  /** The ids that are among `known`. */
  function Among(ids: seq<string>, known: seq<string>): seq<string> {
    if ids == [] then []
    else Among(ids[..|ids| - 1], known) + if ids[|ids| - 1] in known then [ids[|ids| - 1]] else []
  }

  function ListIds(list: seq<Option<Message>>): seq<string> {
    if list == [] then []
    else ListIds(list[..|list| - 1]) + match list[|list| - 1] case None => [] case Some(m) => [m.id]
  }

  /** The last message of a list with this id. */
  function LastIn(list: seq<Option<Message>>, id: string): Option<Message> {
    if list == [] then None
    else
      match list[|list| - 1]
      case Some(m) => if m.id == id then Some(m) else LastIn(list[..|list| - 1], id)
      case None => LastIn(list[..|list| - 1], id)
  }

  lemma {:induction false} ExceptIn(ids: seq<string>, out: seq<string>, id: string)
    ensures id in Except(ids, out) <==> id in ids && id !in out
  {
    if ids != [] {
      ExceptIn(ids[..|ids| - 1], out, id);
      assert ids == ids[..|ids| - 1] + [ids[|ids| - 1]];
    }
  }

  lemma {:induction false} IdsPush(msgs: seq<Message>, m: Message)
    ensures Ids(msgs + [m]) == Ids(msgs) + [m.id]
  {
  }

  lemma {:induction false} UnnamedIds(msgs: seq<Message>, out: seq<string>)
    ensures Ids(Unnamed(msgs, out)) == Except(Ids(msgs), out)
  {
    if msgs != [] {
      var k := |msgs| - 1;
      UnnamedIds(msgs[..k], out);
      assert Ids(msgs)[..k] == Ids(msgs[..k]);
      IdsPush(Unnamed(msgs[..k], out), msgs[k]);
    }
  }

  lemma {:induction false} KnownIds(msgs: seq<Message>, ids: seq<string>)
    ensures Known(msgs, ids) == Among(ids, Ids(msgs))
  {
    hide Has;
    if ids != [] {
      KnownIds(msgs, ids[..|ids| - 1]);
      HasLooks(msgs, ids[|ids| - 1]);
    }
  }

  lemma {:induction false} FirstsOfDistinct(msgs: seq<Message>)
    requires Distinct(msgs)
    ensures Firsts(Ids(msgs)) == Ids(msgs)
  {
    if msgs != [] {
      var k := |msgs| - 1;
      FirstsOfDistinct(msgs[..k]);
      assert Ids(msgs)[..k] == Ids(msgs[..k]);
      assert Ids(msgs) == Ids(msgs[..k]) + [msgs[k].id];
    }
  }

  lemma {:induction false} FirstsPush(ids: seq<string>, id: string)
    ensures Firsts(ids + [id]) == if id in Firsts(ids) then Firsts(ids) else Firsts(ids) + [id]
  {
    assert (ids + [id])[..|ids|] == ids;
  }

  // ---------------------------------------------------------------- messages put

  /** The ids there were and the new ones, each once and where it first is. */
  lemma {:induction false} PutAllIds(msgs: seq<Message>, list: seq<Option<Message>>)
    requires Distinct(msgs)
    ensures Ids(PutAll(msgs, list)) == Firsts(Ids(msgs) + ListIds(list))
  {
    hide Put, Distinct, Has;
    if list == [] {
      FirstsOfDistinct(msgs);
      assert Ids(msgs) + [] == Ids(msgs);
    } else {
      var k := |list| - 1;
      var before := PutAll(msgs, list[..k]);
      PutAllIds(msgs, list[..k]);
      PutAllDistinct(msgs, list[..k]);
      match list[k]
      case None => assert ListIds(list) == ListIds(list[..k]);
      case Some(m) =>
        var ids := Ids(msgs) + ListIds(list[..k]);
        HasLooks(before, m.id);
        PutIds(before, m);
        FirstsPush(ids, m.id);
        assert ids + [m.id] == Ids(msgs) + ListIds(list);
    }
  }

  /** Of each id the last one put, or what there was. */
  lemma {:induction false} PutAllLast(msgs: seq<Message>, list: seq<Option<Message>>, m: Message)
    requires Distinct(msgs) && m in PutAll(msgs, list)
    ensures match LastIn(list, m.id) case None => m in msgs case Some(last) => m == last
  {
    hide Put, Distinct;
    if list != [] {
      var k := |list| - 1;
      var before := PutAll(msgs, list[..k]);
      PutAllDistinct(msgs, list[..k]);
      if list[k].None? {
        PutAllLast(msgs, list[..k], m);
      } else if m != list[k].value {
        PutOthers(before, list[k].value, m);
        PutAllLast(msgs, list[..k], m);
      }
    }
  }

  /** Every key of either, with the new value where there is one. */
  ghost predicate Merged(meta: Meta, old': Meta, new': Meta) {
    && (forall key :: key in meta <==> key in old' || key in new')
    && (forall key :: key in new' ==> meta[key] == new'[key])
    && (forall key :: key in old' && key !in new' ==> meta[key] == old'[key])
  }

  /** A message's line: the newest of its id, in the place of the one before it. */
  lemma {:induction false} MessageLine(s: State, rec: Record, m: Message)
    requires Distinct(s.msgs) && rec.rewindTo.None? && rec.patch.None? && rec.message == Some(m)
    ensures var t := Step(s, Some(rec));
            && t.meta == s.meta && Ids(t.msgs) == Firsts(Ids(s.msgs) + [m.id])
            && forall x :: x in t.msgs ==> if x.id == m.id then x == m else x in s.msgs
  {
    hide Put, Distinct;
    var list := [Some(m)];
    OneListed(s.msgs, m);
    PutAllIds(s.msgs, list);
    forall x | x in Put(s.msgs, m) ensures if x.id == m.id then x == m else x in s.msgs {
      PutAllLast(s.msgs, list, x);
    }
  }

  lemma {:induction false} OneListed(msgs: seq<Message>, m: Message)
    ensures PutAll(msgs, [Some(m)]) == Put(msgs, m) && ListIds([Some(m)]) == [m.id]
  {
    hide Put;
    var none: seq<Option<Message>>, list := [], [Some(m)];
    assert list[..0] == none && ListIds(none) == [];
    assert ListIds(list) == ListIds(none) + [m.id];
  }

  /** A `$set` line: its list in the place of all there was. */
  lemma {:induction false} SetLine(s: State, rec: Record, f: Fields)
    requires rec.rewindTo.None? && rec.patch.None? && rec.message.None? && rec.setTo == Some(f)
    ensures var t := Step(s, Some(rec));
            && Merged(t.meta, s.meta, f.meta)
            && match f.messages
               case None => t.msgs == s.msgs
               case Some(list) =>
                 && Ids(t.msgs) == Firsts(ListIds(list))
                 && forall x :: x in t.msgs ==> LastIn(list, x.id) == Some(x)
  {
    if f.messages.Some? {
      var list := f.messages.value;
      PutAllIds([], list);
      assert Ids([]) + ListIds(list) == ListIds(list);
      forall x | x in PutAll([], list) ensures LastIn(list, x.id) == Some(x) {
        PutAllLast([], list, x);
      }
    }
  }

  /** A session's line: its list merged in, by id. */
  lemma {:induction false} SessionLine(s: State, rec: Record, f: Fields)
    requires Distinct(s.msgs) && rec.session == Some(f)
    requires rec.rewindTo.None? && rec.patch.None? && rec.message.None? && rec.setTo.None?
    ensures var t := Step(s, Some(rec));
            && Merged(t.meta, s.meta, f.meta)
            && match f.messages
               case None => t.msgs == s.msgs
               case Some(list) =>
                 && Ids(t.msgs) == Firsts(Ids(s.msgs) + ListIds(list))
                 && forall x :: x in t.msgs ==>
                      match LastIn(list, x.id) case None => x in s.msgs case Some(last) => x == last
  {
    hide Distinct;
    if f.messages.Some? {
      var list := f.messages.value;
      PutAllIds(s.msgs, list);
      forall x | x in PutAll(s.msgs, list)
        ensures match LastIn(list, x.id) case None => x in s.msgs case Some(last) => x == last
      {
        PutAllLast(s.msgs, list, x);
      }
    }
  }

  // ---------------------------------------------------------------- a patch

  /** All the changes of a patch, in their order. */
  function Changes(p: Patch): seq<Option<Change>> {
    [Some(p.top)] + p.updates
  }

  /** The last content that a change naming this message has. */
  function LastContent(cs: seq<Option<Change>>, id: string): Option<Json> {
    if cs == [] then None
    else
      match cs[|cs| - 1]
      case Some(c) => if c.id == Some(id) && c.content.Some? then c.content else LastContent(cs[..|cs| - 1], id)
      case None => LastContent(cs[..|cs| - 1], id)
  }

  /** The last result that a change naming this message gives this call. */
  function LastResult(cs: seq<Option<Change>>, id: string, call: Option<Json>): Option<Json> {
    if cs == [] then None
    else
      match cs[|cs| - 1]
      case Some(c) =>
        if c.id == Some(id) && LastGiven(c.calls, call).Some? then LastGiven(c.calls, call)
        else LastResult(cs[..|cs| - 1], id, call)
      case None => LastResult(cs[..|cs| - 1], id, call)
  }

  ghost predicate CallAfter(cs: seq<Option<Change>>, id: string, before: Call, after: Call) {
    if before.Call? && LastResult(cs, id, before.id).Some?
    then after == before.(result := LastResult(cs, id, before.id))
    else after == before
  }

  /** A message with the last content and the last results that name it. */
  ghost predicate MessageAfter(cs: seq<Option<Change>>, before: Message, after: Message) {
    && after.id == before.id && after.rest == before.rest && |after.calls| == |before.calls|
    && after.content == (if LastContent(cs, before.id).Some? then LastContent(cs, before.id) else before.content)
    && forall i :: 0 <= i < |before.calls| ==> CallAfter(cs, before.id, before.calls[i], after.calls[i])
  }

  lemma {:induction false} OneChange(cs: seq<Option<Change>>, before: Message, mid: Message, after: Message, c: Change)
    requires MessageAfter(cs, before, mid)
    requires c.id != Some(mid.id) ==> after == mid
    requires c.id == Some(mid.id) ==>
               && after.id == mid.id && after.rest == mid.rest && |after.calls| == |mid.calls|
               && after.content == (if c.content.Some? then c.content else mid.content)
               && forall i :: 0 <= i < |after.calls| ==>
                    after.calls[i] == if mid.calls[i].Call? && LastGiven(c.calls, mid.calls[i].id).Some?
                                      then mid.calls[i].(result := LastGiven(c.calls, mid.calls[i].id))
                                      else mid.calls[i]
    ensures MessageAfter(cs + [Some(c)], before, after)
  {
    var all := cs + [Some(c)];
    assert all[..|cs|] == cs;
    forall i | 0 <= i < |before.calls| ensures CallAfter(all, before.id, before.calls[i], after.calls[i]) {
      assert CallAfter(cs, before.id, before.calls[i], mid.calls[i]);
    }
  }

  lemma {:induction false} PatchedAllMeans(msgs: seq<Message>, cs: seq<Option<Change>>, k: nat)
    requires Distinct(msgs) && k < |msgs|
    ensures |PatchedAll(msgs, cs)| == |msgs| && MessageAfter(cs, msgs[k], PatchedAll(msgs, cs)[k])
  {
    hide Patched, Distinct, MessageAfter;
    if cs == [] {
      NoChange(msgs[k]);
    } else {
      var n := |cs| - 1;
      var before := PatchedAll(msgs, cs[..n]);
      PatchedAllMeans(msgs, cs[..n], k);
      PatchedAllDistinct(msgs, cs[..n]);
      assert cs == cs[..n] + [cs[n]];
      match cs[n]
      case None => IdleChange(cs[..n], msgs[k], before[k]);
      case Some(c) =>
        PatchMeaning(before, c, k);
        OneChange(cs[..n], msgs[k], before[k], Patched(before, c)[k], c);
    }
  }

  lemma {:induction false} NoChange(m: Message)
    ensures MessageAfter([], m, m)
  {
  }

  lemma {:induction false} IdleChange(cs: seq<Option<Change>>, before: Message, after: Message)
    requires MessageAfter(cs, before, after)
    ensures MessageAfter(cs + [None], before, after)
  {
    var all: seq<Option<Change>> := cs + [None];
    assert all[..|cs|] == cs;
    forall i | 0 <= i < |before.calls| ensures CallAfter(all, before.id, before.calls[i], after.calls[i]) {
      assert CallAfter(cs, before.id, before.calls[i], after.calls[i]);
    }
  }

  lemma {:induction false} TopFirst(msgs: seq<Message>, top: Change, updates: seq<Option<Change>>)
    ensures PatchedAll(Patched(msgs, top), updates) == PatchedAll(msgs, [Some(top)] + updates)
  {
    hide Patched;
    var all := [Some(top)] + updates;
    if updates == [] {
      assert all[..0] == [] && all[0] == Some(top);
    } else {
      TopFirst(msgs, top, updates[..|updates| - 1]);
      assert all[..|all| - 1] == [Some(top)] + updates[..|updates| - 1];
    }
  }

  lemma {:induction false} SameIds(a: seq<Message>, b: seq<Message>)
    requires |a| == |b| && forall k :: 0 <= k < |a| ==> a[k].id == b[k].id
    ensures Ids(a) == Ids(b)
  {
  }

  /** All the changes of a patch, made. */
  lemma {:induction false} PatchChanges(msgs: seq<Message>, p: Patch) returns (changed: seq<Message>)
    requires Distinct(msgs)
    ensures changed == PatchedAll(Patched(msgs, p.top), p.updates) && Distinct(changed) && Ids(changed) == Ids(msgs)
    ensures |changed| == |msgs| && forall k :: 0 <= k < |msgs| ==> MessageAfter(Changes(p), msgs[k], changed[k])
  {
    hide Patched, Distinct;
    TopFirst(msgs, p.top, p.updates);
    changed := PatchedAll(msgs, Changes(p));
    PatchedAllDistinct(msgs, Changes(p));
    if msgs == [] {
      NothingPatched(Changes(p));
    } else {
      PatchedAllMeans(msgs, Changes(p), 0);
    }
    forall k | 0 <= k < |msgs| ensures |changed| == |msgs| && MessageAfter(Changes(p), msgs[k], changed[k]) {
      PatchedAllMeans(msgs, Changes(p), k);
    }
    SameIds(msgs, changed);
  }

  lemma {:induction false} NothingPatched(cs: seq<Option<Change>>)
    ensures PatchedAll([], cs) == []
  {
    if cs != [] {
      NothingPatched(cs[..|cs| - 1]);
    }
  }

  lemma {:induction false} IdsSplit(msgs: seq<Message>, n: nat)
    requires n <= |msgs|
    ensures Ids(msgs) == Ids(msgs[..n]) + Ids(msgs[n..])
  {
  }

  lemma {:induction false} SameMembers(a: seq<Message>, b: seq<Message>)
    requires multiset(a) == multiset(b)
    ensures forall m :: m in a <==> m in b
  {
    forall m ensures m in a <==> m in b {
      assert m in multiset(a) <==> m in multiset(b);
    }
  }

  /** What a patch removes and how it orders the rest, once its changes are made. */
  lemma {:induction false} PatchOrders(changed: seq<Message>, removeIds: seq<string>, orderIds: seq<string>)
    requires Distinct(changed)
    ensures var r := Reordered(PopAll(changed, removeIds), orderIds);
            var left := Except(Ids(changed), removeIds);
            && Ids(r) == Except(left, orderIds) + Firsts(Among(orderIds, left))
            && forall m :: m in r <==> m in changed && m.id !in removeIds
  {
    hide Distinct, Unnamed, Reordered, PopAll, Except, Among, Firsts, Known, Ids;
    var kept := Unnamed(changed, removeIds);
    var r := Reordered(kept, orderIds);
    RemoveMeaning(changed, removeIds);
    UnnamedIn(changed, removeIds);
    ReorderMeaning(kept, orderIds);
    UnnamedIds(changed, removeIds);
    UnnamedIds(kept, orderIds);
    KnownIds(kept, orderIds);
    var rest := Unnamed(kept, orderIds);
    IdsSplit(r, |rest|);
    SameMembers(r, kept);
  }

  /**
    A `$patch` line: of the messages there were, those not removed, each with the last content and the
    last results that its changes have for it; first those not named in the order, as they stood, then
    those named, by where they are first named.
   */
  lemma {:induction false} PatchLine(s: State, rec: Record, p: Patch)
    requires Distinct(s.msgs) && rec.rewindTo.None? && rec.patch == Some(p)
    ensures var t := Step(s, Some(rec));
            var left := Except(Ids(s.msgs), p.removeIds);
            && t.meta == s.meta && Ids(t.msgs) == Except(left, p.orderIds) + Firsts(Among(p.orderIds, left))
            && (forall id :: id in Ids(t.msgs) <==> id in Ids(s.msgs) && id !in p.removeIds)
            && forall m :: m in t.msgs ==>
                 exists k :: 0 <= k < |s.msgs| && MessageAfter(Changes(p), s.msgs[k], m)
  {
    hide Distinct, Reordered, PatchedAll, Patched, PopAll, MessageAfter;
    var changed := PatchChanges(s.msgs, p);
    PatchOrders(changed, p.removeIds, p.orderIds);
    var t, left := Step(s, Some(rec)), Except(Ids(s.msgs), p.removeIds);
    forall id ensures id in Ids(t.msgs) <==> id in Ids(s.msgs) && id !in p.removeIds {
      ExceptIn(Ids(s.msgs), p.removeIds, id);
      ExceptIn(left, p.orderIds, id);
      FirstsIn(Among(p.orderIds, left), id);
      AmongIn(p.orderIds, left, id);
    }
    forall m | m in t.msgs ensures exists k :: 0 <= k < |s.msgs| && MessageAfter(Changes(p), s.msgs[k], m) {
      var k :| 0 <= k < |changed| && changed[k] == m;
    }
  }

  lemma {:induction false} AmongIn(ids: seq<string>, known: seq<string>, id: string)
    ensures id in Among(ids, known) <==> id in ids && id in known
  {
    if ids != [] {
      AmongIn(ids[..|ids| - 1], known, id);
      assert ids == ids[..|ids| - 1] + [ids[|ids| - 1]];
    }
  }
}
