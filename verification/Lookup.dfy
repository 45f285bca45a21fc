/**
  The lookup worker (`deploy/lookup/src/index.ts`): one signed register per install id.

  What the platform does (JSON, URLs, base64, SHA-256, Ed25519) is a `World` of functions, the
  clock is a parameter, and the key-value store gives back an entry until its time to live is over
  and may or may not give it back afterwards.
 */
module Lookup {
  import opened Wrappers
  import opened Bytes

  const MAX_BODY := 1024
  const SKEW_S := 600.0
  const MIN_GAP_S := 5.0
  const MAX_PER_HOUR := 30
  const TTL_S := 60.0 * 24.0 * 3600.0

  /** The largest difference Math.round(now * 1000) / 1000 makes. */
  const HALF_MS := 0.0005

  datatype Entry = Entry(url: string, ts: real, pub: string, updated: int, recent: seq<real>)

  datatype Stored = Stored(entry: Entry, at: real)

  /** A parsed body; a field of the wrong type, or a number that is not finite, is None. */
  datatype Parsed = NotJson | Null | Body(url: Option<string>, ts: Option<real>, pub: Option<string>)

  datatype Request = Request(ipOk: bool, declared: nat, raw: seq<byte>, signature: string)

  datatype World = World(
    parse: seq<byte> -> Parsed,
    decode: string -> Option<seq<byte>>,
    urlAllowed: string -> bool,
    installId: seq<byte> -> string,
    verifies: (seq<byte>, seq<byte>, seq<byte>) -> bool)

  type Store = map<string, Stored>

  function RoundMs(now: real): (r: real)
    ensures -HALF_MS <= r - now <= HALF_MS
    ensures (r * 1000.0).Floor as real == r * 1000.0
  {
    (now * 1000.0 + 0.5).Floor as real / 1000.0
  }

  /** The times less than an hour old. */
  function Recent(times: seq<real>, now: real): seq<real> {
    if times == [] then []
    else if now - times[0] < 3600.0 then [times[0]] + Recent(times[1..], now)
    else Recent(times[1..], now)
  }

  /** What the store gives back; `gone` is its choice once the time to live is over. */
  function Get(kv: Store, id: string, now: real, gone: bool): Option<Entry> {
    if id !in kv || (gone && now >= kv[id].at + TTL_S) then None else Some(kv[id].entry)
  }

  /** The refusals made before the register is read, in their order; 200 goes on. */
  function Checked(w: World, id: string, req: Request, now: real): int {
    if !req.ipOk then 429
    else if req.declared > MAX_BODY || |req.raw| > MAX_BODY then 413
    else if w.decode(req.signature).None? || |w.decode(req.signature).value| != 64 then 401
    else
      match w.parse(req.raw)
      case NotJson => 400
      case Null => 500
      case Body(url, ts, pub) =>
        if pub.None? || w.decode(pub.value).None? || |w.decode(pub.value).value| != 32 then 400
        else if url.None? || !w.urlAllowed(url.value) then 400
        else if ts.None? || !(-SKEW_S <= now - ts.value <= SKEW_S) then 400
        else if w.installId(w.decode(pub.value).value) != id then 403
        else if !w.verifies(w.decode(pub.value).value, w.decode(req.signature).value, req.raw) then 401
        else 200
  }

  /** The register's own refusals. */
  function Register(kept: Option<Entry>, ts: real, pub: string, now: real): int {
    var recent := Recent(if kept.Some? then kept.value.recent else [], now);
    if kept.Some? && kept.value.pub != pub then 403
    else if kept.Some? && ts <= kept.value.ts then 409
    else if recent != [] && now - recent[|recent| - 1] < MIN_GAP_S then 429
    else if |recent| >= MAX_PER_HOUR then 429
    else 200
  }

  function Written(kept: Option<Entry>, url: string, ts: real, pub: string, now: real): Entry {
    Entry(url, ts, pub, (now + 0.5).Floor, Recent(if kept.Some? then kept.value.recent else [], now) + [RoundMs(now)])
  }

  function PutStep(w: World, kv: Store, id: string, req: Request, now: real, gone: bool): (Store, int) {
    if Checked(w, id, req, now) != 200 then (kv, Checked(w, id, req, now))
    else
      var body := w.parse(req.raw);
      var kept := Get(kv, id, now, gone);
      var status := Register(kept, body.ts.value, body.pub.value, now);
      if status != 200 then (kv, status)
      else (kv[id := Stored(Written(kept, body.url.value, body.ts.value, body.pub.value, now), now)], 200)
  }

  class Worker {
    const w: World
    var kv: Store

    constructor (w: World)
      ensures this.w == w && kv == map[]
    {
      this.w, kv := w, map[];
    }

    method Put(id: string, req: Request, now: real, gone: bool) returns (status: int)
      modifies this
      ensures (kv, status) == PutStep(w, old(kv), id, req, now, gone)
    {
      status := Checked(w, id, req, now);
      if status != 200 {
        return;
      }
      var body := w.parse(req.raw);
      var kept := Get(kv, id, now, gone);
      var recent := [];
      if kept.Some? {
        if kept.value.pub != body.pub.value {
          return 403;
        }
        if body.ts.value <= kept.value.ts {
          return 409;
        }
        recent := Recent(kept.value.recent, now);
      }
      if recent != [] && now - recent[|recent| - 1] < MIN_GAP_S {
        return 429;
      }
      if |recent| >= MAX_PER_HOUR {
        return 429;
      }
      recent := recent + [RoundMs(now)];
      kv := kv[id := Stored(Entry(body.url.value, body.ts.value, body.pub.value, (now + 0.5).Floor, recent), now)];
    }
  }

  // ---------------------------------------------------------------- histories

  datatype Event = Event(id: string, req: Request, now: real, gone: bool)

  ghost predicate Timed(es: seq<Event>) {
    forall i, j :: 0 <= i < j < |es| ==> es[i].now <= es[j].now
  }

  function After(w: World, es: seq<Event>, n: nat): Store
    requires n <= |es|
  {
    if n == 0 then map[]
    else PutStep(w, After(w, es, n - 1), es[n - 1].id, es[n - 1].req, es[n - 1].now, es[n - 1].gone).0
  }

  /** Event i was answered 200, so it was written. */
  predicate Accepted(w: World, es: seq<Event>, i: nat)
    requires i < |es|
  {
    PutStep(w, After(w, es, i), es[i].id, es[i].req, es[i].now, es[i].gone).1 == 200
  }

  predicate AcceptedFor(w: World, es: seq<Event>, i: nat, id: string)
    requires i < |es|
  {
    es[i].id == id && Accepted(w, es, i)
  }

  function Ts(w: World, e: Event): real {
    match w.parse(e.req.raw) case Body(_, Some(ts), _) => ts case _ => 0.0
  }

  function Url(w: World, e: Event): string {
    match w.parse(e.req.raw) case Body(Some(url), _, _) => url case _ => ""
  }

  function Pub(w: World, e: Event): string {
    match w.parse(e.req.raw) case Body(_, _, Some(pub)) => pub case _ => ""
  }

  /** The last write accepted for id among the first n events. */
  function Last(w: World, es: seq<Event>, n: nat, id: string): (l: Option<nat>)
    requires n <= |es|
    ensures l.Some? ==> l.value < n && AcceptedFor(w, es, l.value, id)
    ensures forall i :: 0 <= i < n && AcceptedFor(w, es, i, id) ==> l.Some? && i <= l.value
  {
    if n == 0 then None
    else if AcceptedFor(w, es, n - 1, id) then Some(n - 1)
    else Last(w, es, n - 1, id)
  }

  /** The rounded times of the writes accepted for id among the first n events. */
  function Times(w: World, es: seq<Event>, n: nat, id: string): seq<real>
    requires n <= |es|
  {
    if n == 0 then []
    else Times(w, es, n - 1, id) + if AcceptedFor(w, es, n - 1, id) then [RoundMs(es[n - 1].now)] else []
  }

  lemma {:induction false} RecentConcat(s: seq<real>, t: seq<real>, now: real)
    ensures Recent(s + t, now) == Recent(s, now) + Recent(t, now)
  {
    if s == [] {
      assert s + t == t;
    } else {
      RecentConcat(s[1..], t, now);
      assert (s + t)[1..] == s[1..] + t;
      assert (s + t)[0] == s[0];
      if now - s[0] < 3600.0 {
        calc {
          Recent(s + t, now);
          [s[0]] + (Recent(s[1..], now) + Recent(t, now));
          ([s[0]] + Recent(s[1..], now)) + Recent(t, now);
        }
      }
    }
  }

  lemma {:induction false} RecentTwice(s: seq<real>, u: real, now: real)
    requires u <= now
    ensures Recent(Recent(s, u), now) == Recent(s, now)
  {
    if s != [] {
      RecentTwice(s[1..], u, now);
      if now - s[0] < 3600.0 {
        assert ([s[0]] + Recent(s[1..], u))[1..] == Recent(s[1..], u);
      } else if u - s[0] < 3600.0 {
        assert ([s[0]] + Recent(s[1..], u))[1..] == Recent(s[1..], u);
      }
    }
  }

  /** All of a sequence is old once each of its members is. */
  lemma {:induction false} NothingRecent(s: seq<real>, now: real)
    requires forall i :: 0 <= i < |s| ==> now - s[i] >= 3600.0
    ensures Recent(s, now) == []
  {
    if s != [] {
      NothingRecent(s[1..], now);
    }
  }

  lemma {:induction false} TimesBound(w: World, es: seq<Event>, n: nat, id: string, i: nat)
    requires n <= |es| && Timed(es) && i < |Times(w, es, n, id)|
    ensures n > 0 && Times(w, es, n, id)[i] <= es[n - 1].now + HALF_MS
  {
    if i < |Times(w, es, n - 1, id)| {
      TimesBound(w, es, n - 1, id, i);
    }
  }

  /** The recent times an event reads. */
  function ReadTimes(w: World, es: seq<Event>, n: nat): seq<real>
    requires n < |es|
  {
    var kept := Get(After(w, es, n), es[n].id, es[n].now, es[n].gone);
    Recent(if kept.Some? then kept.value.recent else [], es[n].now)
  }

  /** An entry holds what an event's body says, and when it came, in whole seconds. */
  predicate Says(w: World, e: Event, entry: Entry) {
    && entry.url == Url(w, e) && entry.ts == Ts(w, e) && entry.pub == Pub(w, e)
    && -0.5 <= entry.updated as real - e.now <= 0.5
  }

  /** An event changes the entry of its own id, and that only when it is accepted. */
  lemma {:induction false} OneStep(w: World, es: seq<Event>, n: nat, id: string)
    requires n < |es|
    ensures !AcceptedFor(w, es, n, id) ==>
      (id in After(w, es, n + 1) <==> id in After(w, es, n))
      && (id in After(w, es, n) ==> After(w, es, n + 1)[id] == After(w, es, n)[id])
    ensures AcceptedFor(w, es, n, id) ==>
      && id in After(w, es, n + 1)
      && After(w, es, n + 1)[id].at == es[n].now
      && Says(w, es[n], After(w, es, n + 1)[id].entry)
      && After(w, es, n + 1)[id].entry.recent == ReadTimes(w, es, n) + [RoundMs(es[n].now)]
  {
    hide RoundMs, Recent;
  }

  /** The stored entry is the last accepted write, with the times of all those of its last hour. */
  lemma {:induction false} StoreTracks(w: World, es: seq<Event>, n: nat, id: string)
    requires n <= |es| && Timed(es)
    decreases n, 0
    ensures match Last(w, es, n, id)
      case None => id !in After(w, es, n) && Times(w, es, n, id) == []
      case Some(l) =>
        && id in After(w, es, n)
        && After(w, es, n)[id].at == es[l].now
        && Says(w, es[l], After(w, es, n)[id].entry)
        && After(w, es, n)[id].entry.recent == Recent(Times(w, es, n, id), es[l].now)
  {
    hide PutStep, Accepted, RoundMs, Says;
    if n > 0 {
      StoreTracks(w, es, n - 1, id);
      OneStep(w, es, n - 1, id);
      if AcceptedFor(w, es, n - 1, id) {
        var e := es[n - 1];
        ReadRecent(w, es, n - 1);
        RecentConcat(Times(w, es, n - 1, id), [RoundMs(e.now)], e.now);
        JustWritten(e.now);
      } else {
        assert Times(w, es, n, id) == Times(w, es, n - 1, id);
      }
    }
  }

  /** Whether or not an expired entry comes back, the recent times read are those of the last hour. */
  lemma {:induction false} ReadRecent(w: World, es: seq<Event>, n: nat)
    requires n < |es| && Timed(es)
    decreases n, 1
    ensures ReadTimes(w, es, n) == Recent(Times(w, es, n, es[n].id), es[n].now)
  {
    hide PutStep, Accepted, RoundMs;
    var e := es[n];
    StoreTracks(w, es, n, e.id);
    match Last(w, es, n, e.id)
    case None =>
    case Some(l) =>
      var times := Times(w, es, n, e.id);
      if Get(After(w, es, n), e.id, e.now, e.gone).Some? {
        RecentTwice(times, es[l].now, e.now);
      } else {
        LastTimes(w, es, n, e.id, l);
        forall i | 0 <= i < |times|
          ensures e.now - times[i] >= 3600.0
        {
          TimesBound(w, es, l + 1, e.id, i);
        }
        NothingRecent(times, e.now);
      }
  }

  lemma {:induction false} JustWritten(now: real)
    ensures Recent([RoundMs(now)], now) == [RoundMs(now)]
  {
  }

  lemma {:induction false} LastTimes(w: World, es: seq<Event>, n: nat, id: string, l: nat)
    requires n <= |es| && Last(w, es, n, id) == Some(l)
    ensures Times(w, es, n, id) == Times(w, es, l + 1, id)
  {
    hide AcceptedFor;
    if l + 1 < n {
      LastTimes(w, es, n - 1, id, l);
    }
  }

  // ---------------------------------------------------------------- what every history keeps

  /** What an accepted event passed. */
  lemma {:induction false} AcceptedFacts(w: World, es: seq<Event>, n: nat)
    requires n < |es| && Accepted(w, es, n)
    ensures var e := es[n]; var kept, recent := Get(After(w, es, n), e.id, e.now, e.gone), ReadTimes(w, es, n);
      && -SKEW_S <= e.now - Ts(w, e) <= SKEW_S
      && (kept.Some? ==> kept.value.ts < Ts(w, e))
      && (recent != [] ==> e.now - recent[|recent| - 1] >= MIN_GAP_S)
      && |recent| < MAX_PER_HOUR
      && w.parse(e.req.raw).Body? && w.parse(e.req.raw).pub.Some? && w.decode(w.parse(e.req.raw).pub.value).Some?
      && w.installId(w.decode(w.parse(e.req.raw).pub.value).value) == e.id
  {
  }

  /** An accepted time stamp is later than that of the write before it, expired or not. */
  lemma {:induction false} LaterThanLast(w: World, es: seq<Event>, j: nat, l: nat)
    requires j < |es| && Timed(es) && Accepted(w, es, j) && Last(w, es, j, es[j].id) == Some(l)
    ensures Ts(w, es[l]) < Ts(w, es[j])
  {
    hide PutStep, Accepted, RoundMs, Recent;
    StoreTracks(w, es, j, es[j].id);
    AcceptedFacts(w, es, j);
    AcceptedFacts(w, es, l);
  }

  /** Accepted time stamps of an id strictly increase. */
  lemma {:induction false} TimeStampsIncrease(w: World, es: seq<Event>, i: nat, j: nat)
    requires i < j < |es| && Timed(es) && es[i].id == es[j].id && Accepted(w, es, i) && Accepted(w, es, j)
    ensures Ts(w, es[i]) < Ts(w, es[j])
    decreases j
  {
    hide PutStep, Accepted;
    assert AcceptedFor(w, es, i, es[j].id);
    var l := Last(w, es, j, es[j].id).value;
    LaterThanLast(w, es, j, l);
    if i < l {
      TimeStampsIncrease(w, es, i, l);
    }
  }

  /** No signed body is accepted twice, for the same id or another. */
  lemma {:induction false} NoReplay(w: World, es: seq<Event>, i: nat, j: nat)
    requires i < j < |es| && Timed(es) && Accepted(w, es, i) && Accepted(w, es, j)
    ensures es[i].req.raw != es[j].req.raw
  {
    AcceptedFacts(w, es, i);
    AcceptedFacts(w, es, j);
    if es[i].id == es[j].id {
      TimeStampsIncrease(w, es, i, j);
    }
  }

  /** A write to one id leaves every other entry as it was. */
  lemma {:induction false} OtherIdsKept(w: World, kv: Store, id: string, req: Request, now: real, gone: bool,
                                        other: string)
    requires other != id
    ensures var kv' := PutStep(w, kv, id, req, now, gone).0;
      (other in kv' <==> other in kv) && (other in kv ==> kv'[other] == kv[other])
  {
  }

  /** The writes accepted for id, among the first n events, less than `span` before `now`. */
  function Within(w: World, es: seq<Event>, n: nat, id: string, now: real, span: real): nat
    requires n <= |es|
  {
    if n == 0 then 0
    else
      Within(w, es, n - 1, id, now, span)
      + if AcceptedFor(w, es, n - 1, id) && now - es[n - 1].now < span then 1 else 0
  }

  /** A span short enough that rounding cannot carry a write out of the hour. */
  ghost predicate Covered(es: seq<Event>, now: real, span: real) {
    forall i :: 0 <= i < |es| && now - es[i].now < span ==> now - RoundMs(es[i].now) < 3600.0
  }

  lemma {:induction false} WithinRecent(w: World, es: seq<Event>, n: nat, id: string, now: real, span: real)
    requires n <= |es| && Covered(es, now, span)
    ensures Within(w, es, n, id, now, span) <= |Recent(Times(w, es, n, id), now)|
  {
    hide PutStep, Accepted, RoundMs;
    if n > 0 {
      WithinRecent(w, es, n - 1, id, now, span);
      if AcceptedFor(w, es, n - 1, id) {
        RecentConcat(Times(w, es, n - 1, id), [RoundMs(es[n - 1].now)], now);
      } else {
        assert Times(w, es, n, id) == Times(w, es, n - 1, id);
      }
    }
  }

  /** Of the writes accepted for an id, at most 30 lie in the span that ends with any one of them. */
  lemma {:induction false} ThirtyPerSpan(w: World, es: seq<Event>, j: nat, span: real)
    requires j < |es| && Timed(es) && Accepted(w, es, j) && Covered(es, es[j].now, span)
    ensures Within(w, es, j + 1, es[j].id, es[j].now, span) <= MAX_PER_HOUR
  {
    hide PutStep, Accepted, RoundMs, Recent;
    var e := es[j];
    AcceptedFacts(w, es, j);
    ReadRecent(w, es, j);
    WithinRecent(w, es, j, e.id, e.now, span);
  }

  /** Any hour less half a millisecond, with any clock. */
  lemma {:induction false} ThirtyPerHour(w: World, es: seq<Event>, j: nat)
    requires j < |es| && Timed(es) && Accepted(w, es, j)
    ensures Within(w, es, j + 1, es[j].id, es[j].now, 3600.0 - HALF_MS) <= MAX_PER_HOUR
  {
    ThirtyPerSpan(w, es, j, 3600.0 - HALF_MS);
  }

  /** The whole hour, with the clock of the platform, which counts milliseconds. */
  lemma {:induction false} ThirtyPerHourExactly(w: World, es: seq<Event>, j: nat)
    requires j < |es| && Timed(es) && Accepted(w, es, j)
    requires forall i :: 0 <= i < |es| ==> RoundMs(es[i].now) == es[i].now
    ensures Within(w, es, j + 1, es[j].id, es[j].now, 3600.0) <= MAX_PER_HOUR
  {
    ThirtyPerSpan(w, es, j, 3600.0);
  }

  lemma {:induction false} TimesEnd(w: World, es: seq<Event>, n: nat, id: string)
    requires n <= |es| && Last(w, es, n, id).Some?
    ensures var s := Times(w, es, n, id);
      s != [] && s[|s| - 1] == RoundMs(es[Last(w, es, n, id).value].now)
  {
    hide PutStep, Accepted, RoundMs;
    if !AcceptedFor(w, es, n - 1, id) {
      TimesEnd(w, es, n - 1, id);
    }
  }

  lemma {:induction false} RecentEnd(s: seq<real>, now: real)
    requires s != [] && now - s[|s| - 1] < 3600.0
    ensures var r := Recent(s, now); r != [] && r[|r| - 1] == s[|s| - 1]
  {
    if |s| > 1 {
      RecentEnd(s[1..], now);
    }
  }

  // ---------------------------------------------------------------- what is accepted

  /** The accepted writes whose rounded time is less than an hour back. */
  function InTheHour(w: World, es: seq<Event>, n: nat, id: string, now: real): nat
    requires n <= |es|
  {
    if n == 0 then 0
    else
      InTheHour(w, es, n - 1, id, now)
      + if AcceptedFor(w, es, n - 1, id) && now - RoundMs(es[n - 1].now) < 3600.0 then 1 else 0
  }

  lemma {:induction false} RecentCounts(w: World, es: seq<Event>, n: nat, id: string, now: real)
    requires n <= |es|
    ensures |Recent(Times(w, es, n, id), now)| == InTheHour(w, es, n, id, now)
  {
    hide AcceptedFor, RoundMs;
    if n > 0 {
      RecentCounts(w, es, n - 1, id, now);
      if AcceptedFor(w, es, n - 1, id) {
        RecentConcat(Times(w, es, n - 1, id), [RoundMs(es[n - 1].now)], now);
        RecentOfOne(RoundMs(es[n - 1].now), now);
      } else {
        assert Times(w, es, n, id) == Times(w, es, n - 1, id);
      }
    }
  }

  lemma {:induction false} RecentOfOne(t: real, now: real)
    ensures Recent([t], now) == if now - t < 3600.0 then [t] else []
  {
  }

  /** A request that is small, fresh, well formed and signed with the key of its id, by a caller within the limit. */
  predicate Signed(w: World, e: Event) {
    && e.req.ipOk && e.req.declared <= 1024 && |e.req.raw| <= 1024
    && w.parse(e.req.raw).Body?
    && var body, signature := w.parse(e.req.raw), w.decode(e.req.signature);
    && signature.Some? && |signature.value| == 64
    && body.url.Some? && w.urlAllowed(body.url.value)
    && body.ts.Some? && e.now - 600.0 <= body.ts.value <= e.now + 600.0
    && body.pub.Some?
    && var key := w.decode(body.pub.value);
    && key.Some? && |key.value| == 32 && w.installId(key.value) == e.id
    && w.verifies(key.value, signature.value, e.req.raw)
  }

  /** It follows the last write accepted for its id, and is not one too many. */
  predicate Follows(w: World, es: seq<Event>, n: nat)
    requires n < |es|
  {
    var e := es[n];
    && InTheHour(w, es, n, e.id, e.now) < 30
    && match Last(w, es, n, e.id)
       case None => true
       case Some(l) =>
         && e.now >= RoundMs(es[l].now) + 5.0
         && (!e.gone || e.now < es[l].now + 60.0 * 86400.0 ==> Pub(w, es[l]) == Pub(w, e) && Ts(w, es[l]) < Ts(w, e))
  }

  lemma {:induction false} AcceptedByStore(w: World, es: seq<Event>, n: nat)
    requires n < |es|
    ensures var e := es[n];
            var kept, recent := Get(After(w, es, n), e.id, e.now, e.gone), ReadTimes(w, es, n);
            Accepted(w, es, n) <==>
              && Signed(w, e) && |recent| < MAX_PER_HOUR
              && (recent != [] ==> e.now - recent[|recent| - 1] >= MIN_GAP_S)
              && (kept.Some? ==> kept.value.pub == Pub(w, e) && kept.value.ts < Ts(w, e))
  {
    hide Recent;
  }

  /** The last recent time is the last time, and there is none when that is an hour old. */
  lemma {:induction false} RecentLast(w: World, es: seq<Event>, n: nat, id: string, now: real)
    requires n <= |es| && Timed(es)
    ensures var times := Times(w, es, n, id); var recent := Recent(times, now);
            && (times == [] ==> recent == [])
            && (times != [] && now - times[|times| - 1] < 3600.0 ==>
                  recent != [] && recent[|recent| - 1] == times[|times| - 1])
            && (times != [] && now - times[|times| - 1] >= 3600.0 ==> recent == [])
  {
    var times := Times(w, es, n, id);
    if times != [] {
      if now - times[|times| - 1] < 3600.0 {
        RecentEnd(times, now);
      } else {
        forall i | 0 <= i < |times| ensures now - times[i] >= 3600.0 {
          TimesRise(w, es, n, id, i);
        }
        NothingRecent(times, now);
      }
    }
  }

  lemma {:induction false} RoundMsGrows(a: real, b: real)
    requires a <= b
    ensures RoundMs(a) <= RoundMs(b)
  {
    var x, y := (a * 1000.0 + 0.5).Floor, (b * 1000.0 + 0.5).Floor;
    assert x <= y;
    assert x as real / 1000.0 <= y as real / 1000.0;
  }

  lemma {:induction false} TimesRise(w: World, es: seq<Event>, n: nat, id: string, i: nat)
    requires n <= |es| && Timed(es) && i < |Times(w, es, n, id)|
    ensures var times := Times(w, es, n, id); times[i] <= times[|times| - 1]
    ensures n > 0 && Times(w, es, n, id)[i] <= RoundMs(es[n - 1].now)
  {
    hide AcceptedFor, RoundMs;
    var before := Times(w, es, n - 1, id);
    if i < |before| {
      TimesRise(w, es, n - 1, id, i);
      TimesRise(w, es, n - 1, id, |before| - 1);
      if n > 1 {
        RoundMsGrows(es[n - 2].now, es[n - 1].now);
      }
    }
  }

  /**
    When a write is accepted: exactly when it is small, fresh, well formed and signed with the key of
    its id, comes five seconds or more after the one before it and is at most the thirtieth of the hour,
    and, unless the entry is gone after sixty days, has the same key as that one and a later time stamp.
   */
  lemma {:induction false} AcceptedExactly(w: World, es: seq<Event>, n: nat)
    requires n < |es| && Timed(es)
    ensures Accepted(w, es, n) <==> Signed(w, es[n]) && Follows(w, es, n)
  {
    hide PutStep, Accepted, AcceptedFor, RoundMs, Recent, Signed;
    var e := es[n];
    AcceptedByStore(w, es, n);
    StoreTracks(w, es, n, e.id);
    ReadRecent(w, es, n);
    RecentLast(w, es, n, e.id, e.now);
    RecentCounts(w, es, n, e.id, e.now);
    if Last(w, es, n, e.id).Some? {
      TimesEnd(w, es, n, e.id);
    }
  }

  /** A write that is refused is answered with its own reason, and changes nothing. */
  lemma {:induction false} RefusedFor(w: World, kv: Store, e: Event)
    ensures var (after, status) := PutStep(w, kv, e.id, e.req, e.now, e.gone);
            var body, signature, kept := w.parse(e.req.raw), w.decode(e.req.signature), Get(kv, e.id, e.now, e.gone);
            && status in {200, 400, 401, 403, 409, 413, 429, 500} && (status != 200 ==> after == kv)
            && (status == 413 ==> e.req.declared > 1024 || |e.req.raw| > 1024)
            && (status == 500 ==> body.Null?)
            && (status == 400 ==> body.NotJson? || (body.Body? && !Shaped(w, e)))
            && (status == 401 && signature.Some? && |signature.value| == 64 ==>
                  body.Body? && Shaped(w, e)
                  && !w.verifies(w.decode(body.pub.value).value, signature.value, e.req.raw))
            && (status == 403 ==> body.Body? && Shaped(w, e))
            && (status == 403 && w.installId(w.decode(body.pub.value).value) == e.id ==>
                  kept.Some? && kept.value.pub != body.pub.value)
            && (status == 409 ==> body.Body? && Shaped(w, e) && kept.Some? && body.ts.value <= kept.value.ts)
            && (status == 429 ==> !e.req.ipOk || Hurried(kept, e.now))
  {
    hide Recent;
  }

  /** The fields are there, the key has 32 bytes, the address is allowed and the time stamp is fresh. */
  predicate Shaped(w: World, e: Event)
    requires w.parse(e.req.raw).Body?
  {
    var body := w.parse(e.req.raw);
    && body.pub.Some? && w.decode(body.pub.value).Some? && |w.decode(body.pub.value).value| == 32
    && body.url.Some? && w.urlAllowed(body.url.value)
    && body.ts.Some? && e.now - 600.0 <= body.ts.value <= e.now + 600.0
  }

  /** Too soon after the last write, or too many in an hour. */
  predicate Hurried(kept: Option<Entry>, now: real) {
    var recent := Recent(if kept.Some? then kept.value.recent else [], now);
    |recent| >= 30 || (recent != [] && now - recent[|recent| - 1] < 5.0)
  }

  /** A write is accepted five seconds or more after the rounded time of the one before it. */
  lemma {:induction false} GapAfterLast(w: World, es: seq<Event>, j: nat)
    requires j < |es| && Timed(es) && Accepted(w, es, j) && Last(w, es, j, es[j].id).Some?
    ensures es[j].now - RoundMs(es[Last(w, es, j, es[j].id).value].now) >= MIN_GAP_S
  {
    hide PutStep, Accepted, Recent, RoundMs;
    var e := es[j];
    AcceptedFacts(w, es, j);
    ReadRecent(w, es, j);
    TimesEnd(w, es, j, e.id);
    var s := Times(w, es, j, e.id);
    if e.now - s[|s| - 1] < 3600.0 {
      RecentEnd(s, e.now);
    }
  }

  /** With any clock, accepted writes of an id are at least five seconds apart, less the rounding. */
  lemma {:induction false} FiveSecondsApart(w: World, es: seq<Event>, i: nat, j: nat)
    requires i < j < |es| && Timed(es) && es[i].id == es[j].id && Accepted(w, es, i) && Accepted(w, es, j)
    ensures es[j].now - es[i].now >= MIN_GAP_S - HALF_MS
  {
    hide PutStep, Accepted;
    assert AcceptedFor(w, es, i, es[j].id);
    GapAfterLast(w, es, j);
    assert es[i].now <= es[Last(w, es, j, es[j].id).value].now;
  }

  /** With the clock of the platform, which counts milliseconds, at least five whole seconds. */
  lemma {:induction false} FiveSecondsApartExactly(w: World, es: seq<Event>, i: nat, j: nat)
    requires i < j < |es| && Timed(es) && es[i].id == es[j].id && Accepted(w, es, i) && Accepted(w, es, j)
    requires forall k :: 0 <= k < |es| ==> RoundMs(es[k].now) == es[k].now
    ensures es[j].now - es[i].now >= MIN_GAP_S
  {
    hide PutStep, Accepted, RoundMs;
    assert AcceptedFor(w, es, i, es[j].id);
    GapAfterLast(w, es, j);
    assert es[i].now <= es[Last(w, es, j, es[j].id).value].now;
  }
}
