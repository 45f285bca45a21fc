/**
  Grok's log folded into messages (`grok_fold` in harnesses.py).

  A tool's part is changed through an alias, wherever in the transcript it is; the alias is its
  position, message and part.
 */
module GrokFold {
  import opened Wrappers

  type Json = string

  datatype Kind = Text | Thought

  datatype Call = Call(name: string, title: string, kind: string, input: Option<Json>, status: string)

  /** What a tool_call_update carries; `said` is the text of its content. */
  datatype Change = Change(status: Option<string>, input: Option<Json>, title: Option<string>, name: string,
                           output: Option<Json>, said: string)

  /** An update of the log; absent ids are empty. */
  datatype Update =
    | UserChunk(text: string, mid: string)
    | AgentChunk(kind: Kind, text: string, mid: string)
    | ToolCall(tid: string, call: Call, mid: string)
    | ToolUpdate(tid: string, change: Change)
    | InfoTitle(title: string)
    | CurrentMode(mode: string)
    | Other

  /** A line that is no update is skipped. */
  datatype Line = Skipped | Says(at: Option<string>, u: Update)

  /** `mid or f"grok:{n}"` */
  datatype Id = Named(mid: string) | Numbered(n: nat)

  datatype Part =
    | Said(kind: Kind, text: string, mid: string)
    | Tool(id: string, name: string, title: string, tkind: string, input: Option<Json>, status: string,
           output: Option<Json>)

  datatype Message =
    | User(id: Id, mid: string, at: Option<string>, updated: Option<string>, text: string)
    | Assistant(id: Id, mid: string, at: Option<string>, updated: Option<string>, parts: seq<Part>)

  datatype Info = Info(title: string, mode: string)

  datatype State = State(info: Info, msgs: seq<Message>, tools: map<string, (nat, nat)>)

  const START := State(Info("", ""), [], map[])

  // ---------------------------------------------------------------- one line

  function IdFor(mid: string, n: nat): Id {
    if mid != "" then Named(mid) else Numbered(n)
  }

  function Last(msgs: seq<Message>): Message
    requires msgs != []
  {
    msgs[|msgs| - 1]
  }

  function ReplaceLast(msgs: seq<Message>, m: Message): seq<Message>
    requires msgs != []
  {
    msgs[|msgs| - 1 := m]
  }

  /** The newest message remembers the last stamped line written while it was the newest. */
  function Touch(msgs: seq<Message>, at: Option<string>): seq<Message> {
    if msgs != [] && at.Some? then ReplaceLast(msgs, Last(msgs).(updated := at)) else msgs
  }

  function AddUser(msgs: seq<Message>, n: nat, at: Option<string>, text: string, mid: string): seq<Message> {
    if msgs != [] && Last(msgs).User? && (mid == "" || mid == Last(msgs).mid)
    then ReplaceLast(msgs, Last(msgs).(text := Last(msgs).text + text))
    else msgs + [User(IdFor(mid, n), mid, at, None, text)]
  }

  /** Opens an assistant message unless one is the newest. */
  function WithAssistant(msgs: seq<Message>, n: nat, at: Option<string>, mid: string): (r: seq<Message>)
    ensures r != [] && Last(r).Assistant?
  {
    if msgs != [] && Last(msgs).Assistant? then msgs
    else msgs + [Assistant(IdFor(mid, n), mid, at, None, [])]
  }

  function JoinSaid(parts: seq<Part>, kind: Kind, text: string, mid: string): seq<Part> {
    if parts != [] && parts[|parts| - 1].Said? && parts[|parts| - 1].kind == kind
       && (mid == "" || parts[|parts| - 1].mid == mid)
    then parts[|parts| - 1 := parts[|parts| - 1].(text := parts[|parts| - 1].text + text)]
    else parts + [Said(kind, text, mid)]
  }

  function AddSaid(msgs: seq<Message>, kind: Kind, text: string, mid: string): seq<Message>
    requires msgs != [] && Last(msgs).Assistant?
  {
    ReplaceLast(msgs, Last(msgs).(parts := JoinSaid(Last(msgs).parts, kind, text, mid)))
  }

  function NewTool(tid: string, call: Call): Part {
    Tool(tid, call.name, call.title, call.kind, call.input, call.status, None)
  }

  predicate IsTool(msgs: seq<Message>, i: nat, j: nat) {
    i < |msgs| && msgs[i].Assistant? && j < |msgs[i].parts| && msgs[i].parts[j].Tool?
  }

  function Changed(p: Part, c: Change): Part
    requires p.Tool?
  {
    p.(status := if c.status.Some? then c.status.value else p.status,
       input := if c.input.Some? then c.input else p.input,
       title := if c.title.Some? then c.title.value else p.title,
       name := if c.name != "" then c.name else p.name,
       output := if c.output.Some? then c.output else if c.said != "" then Some(c.said) else p.output)
  }

  function ChangeAt(msgs: seq<Message>, i: nat, j: nat, c: Change): seq<Message> {
    if !IsTool(msgs, i, j) then msgs
    else msgs[i := msgs[i].(parts := msgs[i].parts[j := Changed(msgs[i].parts[j], c)])]
  }

  function Step(s: State, n: nat, line: Line): State {
    match line
    case Skipped => s
    case Says(at, u) =>
      var msgs := Touch(s.msgs, at);
      match u
      case UserChunk(text, mid) => s.(msgs := AddUser(msgs, n, at, text, mid))
      case AgentChunk(kind, text, mid) => s.(msgs := AddSaid(WithAssistant(msgs, n, at, mid), kind, text, mid))
      case ToolCall(tid, call, mid) =>
        var open := WithAssistant(msgs, n, at, mid);
        if tid != "" && tid in s.tools then s.(msgs := open)
        else
          var parts := Last(open).parts;
          s.(msgs := ReplaceLast(open, Last(open).(parts := parts + [NewTool(tid, call)])),
             tools := if tid != "" then s.tools[tid := (|open| - 1, |parts|)] else s.tools)
      case ToolUpdate(tid, change) =>
        if tid in s.tools then s.(msgs := ChangeAt(msgs, s.tools[tid].0, s.tools[tid].1, change))
        else s.(msgs := msgs)
      case InfoTitle(title) => s.(msgs := msgs, info := if title != "" then s.info.(title := title) else s.info)
      case CurrentMode(mode) => s.(msgs := msgs, info := if mode != "" then s.info.(mode := mode) else s.info)
      case Other => s.(msgs := msgs)
  }

  /** The state after a log whose first line is numbered 1. */
  function Fold(lines: seq<Line>): State {
    if lines == [] then START else Step(Fold(lines[..|lines| - 1]), |lines|, lines[|lines| - 1])
  }

  /** The messages as they are returned, without their joining ids. */
  function Public(m: Message): Message {
    match m
    case User(_, _, _, _, _) => m.(mid := "")
    case Assistant(_, _, _, _, parts) =>
      m.(mid := "", parts := seq(|parts|, j requires 0 <= j < |parts| =>
                               if parts[j].Said? then parts[j].(mid := "") else parts[j]))
  }

  function Returned(msgs: seq<Message>): seq<Message> {
    seq(|msgs|, i requires 0 <= i < |msgs| => Public(msgs[i]))
  }

  method GrokFold(lines: seq<Line>) returns (info: Info, out: seq<Message>)
    ensures info == Fold(lines).info && out == Returned(Fold(lines).msgs)
  {
    hide AddUser, AddSaid, ChangeAt, NewTool, Returned;
    info := Info("", "");
    var msgs: seq<Message>, tools: map<string, (nat, nat)> := [], map[];
    var n := 0;
    while n < |lines|
      invariant 0 <= n <= |lines|
      invariant State(info, msgs, tools) == Fold(lines[..n])
    {
      assert lines[..n + 1][..n] == lines[..n];
      var line := lines[n];
      n := n + 1;
      if line.Skipped? {
        continue;
      }
      var at, u := line.at, line.u;
      if msgs != [] && at.Some? {
        msgs := msgs[|msgs| - 1 := msgs[|msgs| - 1].(updated := at)];
      }
      match u {
        case UserChunk(text, mid) =>
          msgs := AddUser(msgs, n, at, text, mid);
        case AgentChunk(kind, text, mid) =>
          msgs := WithAssistant(msgs, n, at, mid);
          msgs := AddSaid(msgs, kind, text, mid);
        case ToolCall(tid, call, mid) =>
          msgs := WithAssistant(msgs, n, at, mid);
          if tid == "" || tid !in tools {
            var parts := Last(msgs).parts;
            msgs := ReplaceLast(msgs, Last(msgs).(parts := parts + [NewTool(tid, call)]));
            if tid != "" {
              tools := tools[tid := (|msgs| - 1, |parts|)];
            }
          }
        case ToolUpdate(tid, change) =>
          if tid in tools {
            msgs := ChangeAt(msgs, tools[tid].0, tools[tid].1, change);
          }
        case InfoTitle(title) =>
          if title != "" {
            info := info.(title := title);
          }
        case CurrentMode(mode) =>
          if mode != "" {
            info := info.(mode := mode);
          }
        case Other =>
      }
    }
    assert lines[..n] == lines;
    out := Returned(msgs);
  }

  // ---------------------------------------------------------------- no word is lost

  /** Whose words: None for the user's, or a kind of the agent's. */
  type Voice = Option<Kind>

  function PartWords(parts: seq<Part>, kind: Kind): string {
    if parts == [] then ""
    else PartWords(parts[..|parts| - 1], kind)
         + if parts[|parts| - 1].Said? && parts[|parts| - 1].kind == kind then parts[|parts| - 1].text else ""
  }

  function MessageWords(m: Message, v: Voice): string {
    match v
    case None => if m.User? then m.text else ""
    case Some(kind) => if m.Assistant? then PartWords(m.parts, kind) else ""
  }

  function Words(msgs: seq<Message>, v: Voice): string {
    if msgs == [] then "" else Words(msgs[..|msgs| - 1], v) + MessageWords(Last(msgs), v)
  }

  function LineWords(line: Line, v: Voice): string {
    match line
    case Says(_, UserChunk(text, _)) => if v.None? then text else ""
    case Says(_, AgentChunk(kind, text, _)) => if v == Some(kind) then text else ""
    case _ => ""
  }

  /** The chunks of one voice, joined in file order. */
  function Spoken(lines: seq<Line>, v: Voice): string {
    if lines == [] then "" else Spoken(lines[..|lines| - 1], v) + LineWords(lines[|lines| - 1], v)
  }

  lemma {:induction false} WordsReplaceLast(msgs: seq<Message>, m: Message, v: Voice)
    requires msgs != []
    ensures Words(ReplaceLast(msgs, m), v) == Words(msgs[..|msgs| - 1], v) + MessageWords(m, v)
  {
    assert ReplaceLast(msgs, m)[..|msgs| - 1] == msgs[..|msgs| - 1];
  }

  lemma {:induction false} WordsPush(msgs: seq<Message>, m: Message, v: Voice)
    ensures Words(msgs + [m], v) == Words(msgs, v) + MessageWords(m, v)
  {
    assert (msgs + [m])[..|msgs|] == msgs;
  }

  lemma {:induction false} WordsTouch(msgs: seq<Message>, at: Option<string>, v: Voice)
    ensures Words(Touch(msgs, at), v) == Words(msgs, v)
  {
    if msgs != [] && at.Some? {
      WordsReplaceLast(msgs, Last(msgs).(updated := at), v);
    }
  }

  lemma {:induction false} WordsWithAssistant(msgs: seq<Message>, n: nat, at: Option<string>, mid: string, v: Voice)
    ensures Words(WithAssistant(msgs, n, at, mid), v) == Words(msgs, v)
  {
    if !(msgs != [] && Last(msgs).Assistant?) {
      WordsPush(msgs, Assistant(IdFor(mid, n), mid, at, None, []), v);
      assert Words(msgs, v) + "" == Words(msgs, v);
    }
  }

  lemma {:induction false} PartWordsJoin(parts: seq<Part>, kind: Kind, text: string, mid: string, k: Kind)
    ensures PartWords(JoinSaid(parts, kind, text, mid), k) == PartWords(parts, k) + if k == kind then text else ""
  {
    var r := JoinSaid(parts, kind, text, mid);
    if |r| == |parts| {
      var front, last := parts[..|parts| - 1], parts[|parts| - 1].text;
      assert r[..|r| - 1] == front;
      Reassociate(PartWords(front, k), last, text);
    } else {
      assert r[..|parts|] == parts;
    }
  }

  lemma {:induction false} PartWordsTool(parts: seq<Part>, p: Part, k: Kind)
    requires p.Tool?
    ensures PartWords(parts + [p], k) == PartWords(parts, k)
  {
    assert (parts + [p])[..|parts|] == parts;
  }

  lemma {:induction false} PartWordsChanged(parts: seq<Part>, j: nat, p: Part, k: Kind)
    requires j < |parts| && parts[j].Tool? && p.Tool?
    ensures PartWords(parts[j := p], k) == PartWords(parts, k)
  {
    var m := |parts| - 1;
    if j == m {
      assert parts[j := p][..m] == parts[..m];
    } else {
      PartWordsChanged(parts[..m], j, p, k);
      assert parts[j := p][..m] == parts[..m][j := p];
    }
  }

  lemma {:induction false} WordsSame(msgs: seq<Message>, i: nat, m: Message, v: Voice)
    requires i < |msgs| && MessageWords(m, v) == MessageWords(msgs[i], v)
    ensures Words(msgs[i := m], v) == Words(msgs, v)
  {
    hide MessageWords;
    var k := |msgs| - 1;
    if i == k {
      assert msgs[i := m][..k] == msgs[..k];
    } else {
      WordsSame(msgs[..k], i, m, v);
      assert msgs[i := m][..k] == msgs[..k][i := m];
    }
  }

  lemma {:induction false} UserWords(msgs: seq<Message>, n: nat, at: Option<string>, text: string, mid: string,
                                     v: Voice)
    ensures Words(AddUser(msgs, n, at, text, mid), v) == Words(msgs, v) + if v.None? then text else ""
  {
    if msgs != [] && Last(msgs).User? && (mid == "" || mid == Last(msgs).mid) {
      hide Words;
      var m := Last(msgs).(text := Last(msgs).text + text);
      WordsReplaceLast(msgs, m, v);
      WordsLast(msgs, v);
      if v.None? {
        Reassociate(Words(msgs[..|msgs| - 1], v), Last(msgs).text, text);
      }
    } else {
      WordsPush(msgs, User(IdFor(mid, n), mid, at, None, text), v);
    }
  }

  lemma {:induction false} WordsLast(msgs: seq<Message>, v: Voice)
    requires msgs != []
    ensures Words(msgs, v) == Words(msgs[..|msgs| - 1], v) + MessageWords(Last(msgs), v)
  {
    hide MessageWords;
  }

  lemma {:induction false} Reassociate(a: string, b: string, c: string)
    ensures a + b + c == a + (b + c)
  {
  }

  lemma {:induction false} SaidWords(msgs: seq<Message>, kind: Kind, text: string, mid: string, v: Voice)
    requires msgs != [] && Last(msgs).Assistant?
    ensures Words(AddSaid(msgs, kind, text, mid), v) == Words(msgs, v) + if v == Some(kind) then text else ""
  {
    hide JoinSaid, Words, PartWords;
    var m := Last(msgs).(parts := JoinSaid(Last(msgs).parts, kind, text, mid));
    WordsReplaceLast(msgs, m, v);
    WordsLast(msgs, v);
    if v.Some? {
      PartWordsJoin(Last(msgs).parts, kind, text, mid, v.value);
      var added := if v == Some(kind) then text else "";
      Reassociate(Words(msgs[..|msgs| - 1], v), PartWords(Last(msgs).parts, v.value), added);
    }
  }

  lemma {:induction false} ToolWords(open: seq<Message>, p: Part, v: Voice)
    requires open != [] && Last(open).Assistant? && p.Tool?
    ensures Words(ReplaceLast(open, Last(open).(parts := Last(open).parts + [p])), v) == Words(open, v)
  {
    var m := Last(open).(parts := Last(open).parts + [p]);
    WordsReplaceLast(open, m, v);
    if v.Some? {
      PartWordsTool(Last(open).parts, p, v.value);
    }
    assert MessageWords(m, v) == MessageWords(Last(open), v);
  }

  lemma {:induction false} StepWords(s: State, n: nat, line: Line, v: Voice)
    ensures Words(Step(s, n, line).msgs, v) == Words(s.msgs, v) + LineWords(line, v)
  {
    hide Touch, AddUser, WithAssistant, AddSaid, ChangeAt, Words;
    if line.Says? {
      var msgs := Touch(s.msgs, line.at);
      WordsTouch(s.msgs, line.at, v);
      match line.u
      case UserChunk(text, mid) =>
        UserWords(msgs, n, line.at, text, mid, v);
      case AgentChunk(kind, text, mid) =>
        WordsWithAssistant(msgs, n, line.at, mid, v);
        SaidWords(WithAssistant(msgs, n, line.at, mid), kind, text, mid, v);
      case ToolCall(tid, call, mid) =>
        WordsWithAssistant(msgs, n, line.at, mid, v);
        ToolWords(WithAssistant(msgs, n, line.at, mid), NewTool(tid, call), v);
      case ToolUpdate(tid, change) =>
        if tid in s.tools {
          ChangeKeepsWords(msgs, s.tools[tid].0, s.tools[tid].1, change, v);
        }
      case InfoTitle(_) =>
      case CurrentMode(_) =>
      case Other =>
    }
  }

  lemma {:induction false} ChangeKeepsWords(msgs: seq<Message>, i: nat, j: nat, c: Change, v: Voice)
    ensures Words(ChangeAt(msgs, i, j, c), v) == Words(msgs, v)
  {
    if IsTool(msgs, i, j) {
      var m := msgs[i].(parts := msgs[i].parts[j := Changed(msgs[i].parts[j], c)]);
      if v.Some? {
        PartWordsChanged(msgs[i].parts, j, Changed(msgs[i].parts[j], c), v.value);
      }
      WordsSame(msgs, i, m, v);
    }
  }

  lemma {:induction false} FoldKeepsWords(lines: seq<Line>, v: Voice)
    ensures Words(Fold(lines).msgs, v) == Spoken(lines, v)
  {
    if lines != [] {
      FoldKeepsWords(lines[..|lines| - 1], v);
      StepWords(Fold(lines[..|lines| - 1]), |lines|, lines[|lines| - 1], v);
    }
  }

  lemma {:induction false} PublicPartWords(parts: seq<Part>, parts': seq<Part>, k: Kind)
    requires |parts| == |parts'|
    requires forall j :: 0 <= j < |parts| ==> parts'[j] == if parts[j].Said? then parts[j].(mid := "") else parts[j]
    ensures PartWords(parts', k) == PartWords(parts, k)
  {
    if parts != [] {
      PublicPartWords(parts[..|parts| - 1], parts'[..|parts| - 1], k);
    }
  }

  lemma {:induction false} ReturnedWords(msgs: seq<Message>, v: Voice)
    ensures Words(Returned(msgs), v) == Words(msgs, v)
  {
    if msgs != [] {
      ReturnedWords(msgs[..|msgs| - 1], v);
      assert Returned(msgs)[..|msgs| - 1] == Returned(msgs[..|msgs| - 1]);
      var m := Last(msgs);
      if m.Assistant? && v.Some? {
        PublicPartWords(m.parts, Public(m).parts, v.value);
      }
    }
  }

  /** Everything each voice said is in the returned messages, in order and once. */
  lemma {:induction false} TextConserved(lines: seq<Line>, v: Voice)
    ensures Words(Returned(Fold(lines).msgs), v) == Spoken(lines, v)
  {
    FoldKeepsWords(lines, v);
    ReturnedWords(Fold(lines).msgs, v);
  }

  // ---------------------------------------------------------------- how the words were cut does not matter

  /** A message without its stamps and without the line number an unnamed one takes its id from. */
  function Forget(m: Message): Message {
    m.(id := if m.id.Numbered? then Numbered(0) else m.id, at := None, updated := None)
  }

  ghost predicate Alike(a: seq<Message>, b: seq<Message>) {
    |a| == |b| && forall i :: 0 <= i < |a| ==> Forget(a[i]) == Forget(b[i])
  }

  ghost predicate AlikeStates(s: State, t: State) {
    s.info == t.info && s.tools == t.tools && Alike(s.msgs, t.msgs)
  }

  lemma {:induction false} TouchAlike(a: seq<Message>, b: seq<Message>, at: Option<string>, at': Option<string>)
    requires Alike(a, b)
    ensures Alike(Touch(a, at), Touch(b, at'))
  {
  }

  lemma {:induction false} ReplaceLastAlike(a: seq<Message>, b: seq<Message>, m: Message, m': Message)
    requires a != [] && Alike(a, b) && Forget(m) == Forget(m')
    ensures Alike(ReplaceLast(a, m), ReplaceLast(b, m'))
  {
  }

  lemma {:induction false} UserAlike(a: seq<Message>, b: seq<Message>, n: nat, n': nat, at: Option<string>,
                                     at': Option<string>,
                                     text: string, mid: string)
    requires Alike(a, b)
    ensures Alike(AddUser(a, n, at, text, mid), AddUser(b, n', at', text, mid))
  {
    if a != [] {
      assert Forget(Last(a)) == Forget(Last(b));
      if Last(a).User? {
        ReplaceLastAlike(a, b, Last(a).(text := Last(a).text + text), Last(b).(text := Last(b).text + text));
      }
    }
  }

  lemma {:induction false} OpenAlike(a: seq<Message>, b: seq<Message>, n: nat, n': nat, at: Option<string>,
                                     at': Option<string>, mid: string)
    requires Alike(a, b)
    ensures Alike(WithAssistant(a, n, at, mid), WithAssistant(b, n', at', mid))
  {
    if a != [] {
      assert Forget(Last(a)) == Forget(Last(b));
    }
  }

  /** Giving the newest messages the same parts keeps two transcripts alike. */
  lemma {:induction false} PartsAlike(a: seq<Message>, b: seq<Message>, parts: seq<Part>)
    requires a != [] && Last(a).Assistant? && Alike(a, b)
    ensures Last(b).Assistant? && Last(b).parts == Last(a).parts
    ensures Alike(ReplaceLast(a, Last(a).(parts := parts)), ReplaceLast(b, Last(b).(parts := parts)))
  {
    assert Forget(Last(a)) == Forget(Last(b));
    ReplaceLastAlike(a, b, Last(a).(parts := parts), Last(b).(parts := parts));
  }

  lemma {:induction false} ChangeAlike(a: seq<Message>, b: seq<Message>, i: nat, j: nat, c: Change)
    requires Alike(a, b)
    ensures Alike(ChangeAt(a, i, j, c), ChangeAt(b, i, j, c))
  {
    hide Changed;
    if i < |a| {
      assert Forget(a[i]) == Forget(b[i]);
    }
  }

  lemma {:induction false} StepAlike(s: State, t: State, n: nat, n': nat, at: Option<string>, at': Option<string>,
                                     u: Update)
    requires AlikeStates(s, t)
    ensures AlikeStates(Step(s, n, Says(at, u)), Step(t, n', Says(at', u)))
  {
    hide Touch, AddUser, WithAssistant, ChangeAt, JoinSaid, NewTool, Alike;
    var a, b := Touch(s.msgs, at), Touch(t.msgs, at');
    TouchAlike(s.msgs, t.msgs, at, at');
    match u
    case UserChunk(text, mid) => UserAlike(a, b, n, n', at, at', text, mid);
    case AgentChunk(kind, text, mid) =>
      var a', b' := WithAssistant(a, n, at, mid), WithAssistant(b, n', at', mid);
      OpenAlike(a, b, n, n', at, at', mid);
      PartsAlike(a', b', JoinSaid(Last(a').parts, kind, text, mid));
    case ToolCall(tid, call, mid) =>
      var a', b' := WithAssistant(a, n, at, mid), WithAssistant(b, n', at', mid);
      OpenAlike(a, b, n, n', at, at', mid);
      PartsAlike(a', b', Last(a').parts + [NewTool(tid, call)]);
      AlikeLength(a', b');
    case ToolUpdate(tid, change) =>
      if tid in s.tools {
        ChangeAlike(a, b, s.tools[tid].0, s.tools[tid].1, change);
      }
    case InfoTitle(_) =>
    case CurrentMode(_) =>
    case Other =>
  }

  lemma {:induction false} AlikeLength(a: seq<Message>, b: seq<Message>)
    requires Alike(a, b)
    ensures |a| == |b|
  {
  }

  /** A chunk: the user's, or one kind of the agent's. */
  function Chunk(v: Voice, text: string, mid: string): Update {
    match v
    case None => UserChunk(text, mid)
    case Some(kind) => AgentChunk(kind, text, mid)
  }

  lemma {:induction false} UserTwice(a: seq<Message>, b: seq<Message>, n: nat, n1: nat, n2: nat, at: Option<string>,
                                     at1: Option<string>,
                                     at2: Option<string>, x: string, y: string, mid: string)
    requires Alike(a, b)
    ensures Alike(AddUser(a, n, at, x + y, mid), AddUser(Touch(AddUser(b, n1, at1, x, mid), at2), n2, at2, y, mid))
  {
    hide *;
    UserAlike(a, b, n, n1, at, at1, x + y, mid);
    UserInTwo(b, n1, n2, at1, at2, x, y, mid);
    AlikeTwice(AddUser(a, n, at, x + y, mid), AddUser(b, n1, at1, x + y, mid),
               AddUser(Touch(AddUser(b, n1, at1, x, mid), at2), n2, at2, y, mid));
  }

  lemma {:induction false} AlikeTwice(a: seq<Message>, b: seq<Message>, c: seq<Message>)
    requires Alike(a, b) && Alike(b, c)
    ensures Alike(a, c)
  {
    hide Forget;
    forall i | 0 <= i < |a| ensures Forget(a[i]) == Forget(c[i]) {
      assert Forget(a[i]) == Forget(b[i]);
    }
  }

  /** Two chunks of a user's, as one chunk, but for the stamp of the message they are in. */
  lemma {:induction false} UserInTwo(b: seq<Message>, n1: nat, n2: nat, at1: Option<string>, at2: Option<string>,
                                     x: string, y: string, mid: string)
    ensures Alike(AddUser(b, n1, at1, x + y, mid),
                  AddUser(Touch(AddUser(b, n1, at1, x, mid), at2), n2, at2, y, mid))
  {
    if b != [] && Last(b).User? && (mid == "" || mid == Last(b).mid) {
      Reassociate(Last(b).text, x, y);
    }
  }

  lemma {:induction false} JoinTwice(parts: seq<Part>, kind: Kind, x: string, y: string, mid: string)
    ensures JoinSaid(JoinSaid(parts, kind, x, mid), kind, y, mid) == JoinSaid(parts, kind, x + y, mid)
  {
    if parts != [] && parts[|parts| - 1].Said? {
      assert parts[|parts| - 1].text + (x + y) == (parts[|parts| - 1].text + x) + y;
    }
  }

  lemma {:induction false} SaidTwice(a: seq<Message>, b: seq<Message>, at: Option<string>, kind: Kind, x: string,
                                     y: string, mid: string)
    requires a != [] && Last(a).Assistant? && Alike(a, b)
    ensures Last(b).Assistant?
    ensures var once := Touch(AddSaid(b, kind, x, mid), at);
            once != [] && Last(once).Assistant? && Alike(AddSaid(a, kind, x + y, mid), AddSaid(once, kind, y, mid))
  {
    hide JoinSaid;
    var p := Last(a).parts;
    PartsAlike(a, b, p);
    JoinTwice(p, kind, x, y, mid);
  }

  /** One line's words said on two lines, whatever their stamps. */
  lemma {:induction false} ChunkTwice(s: State, n: nat, at: Option<string>, at1: Option<string>, at2: Option<string>,
                                      v: Voice, x: string, y: string, mid: string)
    ensures AlikeStates(Step(s, n, Says(at, Chunk(v, x + y, mid))),
                        Step(Step(s, n, Says(at1, Chunk(v, x, mid))), n + 1, Says(at2, Chunk(v, y, mid))))
  {
    var a, b := Touch(s.msgs, at), Touch(s.msgs, at1);
    TouchAlike(s.msgs, s.msgs, at, at1);
    match v
    case None =>
      hide Touch, AddUser, Alike;
      UserTwice(a, b, n, n, n + 1, at, at1, at2, x, y, mid);
    case Some(kind) =>
      hide Touch, AddSaid, Alike;
      OpenAlike(a, b, n, n, at, at1, mid);
      var b' := WithAssistant(b, n, at1, mid);
      SaidTwice(WithAssistant(a, n, at, mid), b', at2, kind, x, y, mid);
  }

  /**
    Cutting any chunk of any log in two, both pieces with its messageId, changes nothing but the
    stamps and the ids that are line numbers.
   */
  lemma {:induction false} CutDoesNotMatter(before: seq<Line>, after: seq<Line>, at: Option<string>,
                                            at1: Option<string>,
                                            at2: Option<string>, v: Voice, x: string, y: string, mid: string)
    ensures AlikeStates(Fold(before + [Says(at, Chunk(v, x + y, mid))] + after),
                        Fold(before + [Says(at1, Chunk(v, x, mid)), Says(at2, Chunk(v, y, mid))] + after))
    decreases |after|
  {
    hide Chunk;
    var one, two := [Says(at, Chunk(v, x + y, mid))], [Says(at1, Chunk(v, x, mid)), Says(at2, Chunk(v, y, mid))];
    if after == [] {
      var n := |before| + 1;
      var whole, cut := before + one, before + two;
      assert before + one + after == whole && whole[..n - 1] == before;
      assert before + two + after == cut && cut[..n] == before + [two[0]] && (before + [two[0]])[..n - 1] == before;
      assert Fold(before + [two[0]]) == Step(Fold(before), n, two[0]);
      ChunkTwice(Fold(before), n, at, at1, at2, v, x, y, mid);
    } else {
      var k := |after| - 1;
      CutDoesNotMatter(before, after[..k], at, at1, at2, v, x, y, mid);
      FoldPush(before + one, after);
      FoldPush(before + two, after);
      if after[k].Says? {
        StepAlike(Fold(before + one + after[..k]), Fold(before + two + after[..k]),
                  |before + one + after|, |before + two + after|, after[k].at, after[k].at, after[k].u);
      }
    }
  }

  lemma {:induction false} FoldPush(before: seq<Line>, after: seq<Line>)
    requires after != []
    ensures Fold(before + after) == Step(Fold(before + after[..|after| - 1]), |before + after|, after[|after| - 1])
  {
    assert (before + after)[..|before + after| - 1] == before + after[..|after| - 1];
  }

  // ---------------------------------------------------------------- one part a tool

  /** The table holds exactly the tools that have an id, each at its own place. */
  ghost predicate Located(msgs: seq<Message>, tools: map<string, (nat, nat)>) {
    && (forall t :: t in tools ==> t != "" && IsTool(msgs, tools[t].0, tools[t].1)
                                   && msgs[tools[t].0].parts[tools[t].1].id == t)
    && (forall i: nat, j: nat :: IsTool(msgs, i, j) && msgs[i].parts[j].id != "" ==>
          msgs[i].parts[j].id in tools && tools[msgs[i].parts[j].id] == (i, j))
  }

  /** The same tools at the same places, and perhaps other things. */
  ghost predicate SameTools(a: seq<Message>, b: seq<Message>) {
    && (forall i: nat, j: nat :: IsTool(a, i, j) ==> IsTool(b, i, j) && b[i].parts[j].id == a[i].parts[j].id)
    && (forall i: nat, j: nat :: IsTool(b, i, j) ==> IsTool(a, i, j))
  }

  lemma {:induction false} LocatedCarries(a: seq<Message>, b: seq<Message>, tools: map<string, (nat, nat)>)
    requires Located(a, tools) && SameTools(a, b)
    ensures Located(b, tools)
  {
  }

  lemma {:induction false} ReplaceLastTools(msgs: seq<Message>, m: Message)
    requires msgs != [] && SameTools([Last(msgs)], [m])
    ensures SameTools(msgs, ReplaceLast(msgs, m))
  {
    var r, k := ReplaceLast(msgs, m), |msgs| - 1;
    forall i: nat, j: nat | IsTool(msgs, i, j)
      ensures IsTool(r, i, j) && r[i].parts[j].id == msgs[i].parts[j].id
    {
      if i == k {
        assert IsTool([Last(msgs)], 0, j);
      }
    }
    forall i: nat, j: nat | IsTool(r, i, j) ensures IsTool(msgs, i, j) {
      if i == k {
        assert IsTool([m], 0, j);
        assert IsTool([Last(msgs)], 0, j);
      }
    }
  }

  lemma {:induction false} TouchTools(msgs: seq<Message>, at: Option<string>)
    ensures SameTools(msgs, Touch(msgs, at))
  {
  }

  lemma {:induction false} UserTools(msgs: seq<Message>, n: nat, at: Option<string>, text: string, mid: string)
    ensures SameTools(msgs, AddUser(msgs, n, at, text, mid))
  {
  }

  lemma {:induction false} OpenTools(msgs: seq<Message>, n: nat, at: Option<string>, mid: string)
    ensures SameTools(msgs, WithAssistant(msgs, n, at, mid))
  {
  }

  lemma {:induction false} SaidTools(msgs: seq<Message>, kind: Kind, text: string, mid: string)
    requires msgs != [] && Last(msgs).Assistant?
    ensures SameTools(msgs, AddSaid(msgs, kind, text, mid))
  {
    var m := Last(msgs).(parts := JoinSaid(Last(msgs).parts, kind, text, mid));
    ReplaceLastTools(msgs, m);
  }

  lemma {:induction false} ChangeTools(msgs: seq<Message>, i: nat, j: nat, c: Change)
    ensures SameTools(msgs, ChangeAt(msgs, i, j, c))
  {
    if IsTool(msgs, i, j) {
      var p := Changed(msgs[i].parts[j], c);
      assert p.Tool? && p.id == msgs[i].parts[j].id;
      hide Changed;
    }
  }

  lemma {:induction false} NewToolLocated(open: seq<Message>, tools: map<string, (nat, nat)>, tid: string, p: Part)
    requires open != [] && Last(open).Assistant? && Located(open, tools) && p.Tool? && p.id == tid
    requires tid == "" || tid !in tools
    ensures Located(ReplaceLast(open, Last(open).(parts := Last(open).parts + [p])),
                    if tid != "" then tools[tid := (|open| - 1, |Last(open).parts|)] else tools)
  {
    var r, k, e := ReplaceLast(open, Last(open).(parts := Last(open).parts + [p])), |open| - 1, |Last(open).parts|;
    assert IsTool(r, k, e);
    forall i: nat, j: nat | IsTool(r, i, j)
      ensures (i, j) == (k, e) || (IsTool(open, i, j) && r[i].parts[j] == open[i].parts[j])
    {
    }
    forall i: nat, j: nat | IsTool(open, i, j)
      ensures (i, j) != (k, e) && IsTool(r, i, j) && r[i].parts[j] == open[i].parts[j]
    {
    }
  }

  lemma {:induction false} StepLocated(s: State, n: nat, line: Line)
    requires Located(s.msgs, s.tools)
    ensures Located(Step(s, n, line).msgs, Step(s, n, line).tools)
  {
    hide Touch, AddUser, WithAssistant, AddSaid, ChangeAt, Located, SameTools;
    if line.Says? {
      var msgs := Touch(s.msgs, line.at);
      TouchTools(s.msgs, line.at);
      LocatedCarries(s.msgs, msgs, s.tools);
      match line.u
      case UserChunk(text, mid) =>
        UserTools(msgs, n, line.at, text, mid);
        LocatedCarries(msgs, AddUser(msgs, n, line.at, text, mid), s.tools);
      case AgentChunk(kind, text, mid) =>
        var open := WithAssistant(msgs, n, line.at, mid);
        OpenTools(msgs, n, line.at, mid);
        LocatedCarries(msgs, open, s.tools);
        SaidTools(open, kind, text, mid);
        LocatedCarries(open, AddSaid(open, kind, text, mid), s.tools);
      case ToolCall(tid, call, mid) =>
        var open := WithAssistant(msgs, n, line.at, mid);
        OpenTools(msgs, n, line.at, mid);
        LocatedCarries(msgs, open, s.tools);
        if tid == "" || tid !in s.tools {
          NewToolLocated(open, s.tools, tid, NewTool(tid, call));
        }
      case ToolUpdate(tid, change) =>
        if tid in s.tools {
          ChangeTools(msgs, s.tools[tid].0, s.tools[tid].1, change);
          LocatedCarries(msgs, ChangeAt(msgs, s.tools[tid].0, s.tools[tid].1, change), s.tools);
        }
      case InfoTitle(_) =>
      case CurrentMode(_) =>
      case Other =>
    }
  }

  lemma {:induction false} AllLocated(lines: seq<Line>)
    ensures Located(Fold(lines).msgs, Fold(lines).tools)
  {
    if lines != [] {
      AllLocated(lines[..|lines| - 1]);
      StepLocated(Fold(lines[..|lines| - 1]), |lines|, lines[|lines| - 1]);
    }
  }

  /** A non-empty tool id is on one part at most of what is returned. */
  lemma {:induction false} OnePartATool(lines: seq<Line>, i: nat, j: nat, i': nat, j': nat)
    requires IsTool(Returned(Fold(lines).msgs), i, j) && IsTool(Returned(Fold(lines).msgs), i', j')
    requires Returned(Fold(lines).msgs)[i].parts[j].id == Returned(Fold(lines).msgs)[i'].parts[j'].id != ""
    ensures (i, j) == (i', j')
  {
    AllLocated(lines);
    var msgs := Fold(lines).msgs;
    assert IsTool(msgs, i, j) && IsTool(msgs, i', j');
  }

  /** An update of a tool that was called reaches that tool's part and leaves every other part alone. */
  lemma {:induction false} UpdateReachesItsTool(lines: seq<Line>, at: Option<string>, tid: string, c: Change)
    requires tid in Fold(lines).tools
    ensures var s, t := Fold(lines), Fold(lines + [Says(at, ToolUpdate(tid, c))]);
            var (i, j) := s.tools[tid];
            && IsTool(s.msgs, i, j) && IsTool(t.msgs, i, j)
            && t.msgs[i].parts == s.msgs[i].parts[j := Changed(s.msgs[i].parts[j], c)]
            && (forall k :: 0 <= k < |s.msgs| && k != i ==> k < |t.msgs| && Forget(t.msgs[k]) == Forget(s.msgs[k]))
            && |t.msgs| == |s.msgs| && t.tools == s.tools
  {
    hide Changed, Touch;
    var s, all := Fold(lines), lines + [Says(at, ToolUpdate(tid, c))];
    AllLocated(lines);
    assert all[..|all| - 1] == lines;
    TouchAlike(s.msgs, s.msgs, at, None);
    TouchNothing(s.msgs);
    var msgs := Touch(s.msgs, at);
    var (i, j) := s.tools[tid];
    assert Forget(msgs[i]) == Forget(s.msgs[i]);
    assert IsTool(msgs, i, j) && msgs[i].parts == s.msgs[i].parts;
    assert Fold(all) == s.(msgs := ChangeAt(msgs, i, j, c));
    assert Fold(all).msgs[i].parts == s.msgs[i].parts[j := Changed(s.msgs[i].parts[j], c)];
    ChangeTools(msgs, i, j, c);
  }

  lemma {:induction false} TouchNothing(msgs: seq<Message>)
    ensures Touch(msgs, None) == msgs
  {
  }

  // ---------------------------------------------------------------- what is joined and what is not

  /** Words in a row of one kind are one part, unless the later ones name another message. */
  ghost predicate PartsJoined(parts: seq<Part>) {
    forall j :: 0 < j < |parts| && parts[j].Said? && parts[j - 1].Said? && parts[j].kind == parts[j - 1].kind ==>
      parts[j].mid != "" && parts[j].mid != parts[j - 1].mid
  }

  /** What may follow what. */
  ghost predicate MayFollow(a: Message, b: Message) {
    match (a, b)
    case (User(_, _, _, _, _), User(_, _, _, _, _)) => b.mid != "" && b.mid != a.mid
    case (Assistant(_, _, _, _, _), Assistant(_, _, _, _, _)) => false
    case _ => true
  }

  /** One assistant message between two prompts, and one prompt a messageId. */
  ghost predicate Joined(msgs: seq<Message>) {
    && (forall k :: 0 < k < |msgs| ==> MayFollow(msgs[k - 1], msgs[k]))
    && (forall k :: 0 <= k < |msgs| && msgs[k].Assistant? ==> PartsJoined(msgs[k].parts))
  }

  lemma {:induction false} JoinedReplace(msgs: seq<Message>, i: nat, m: Message)
    requires Joined(msgs) && i < |msgs| && m.mid == msgs[i].mid && m.User? == msgs[i].User?
    requires m.Assistant? ==> PartsJoined(m.parts)
    ensures Joined(msgs[i := m])
  {
    hide PartsJoined;
    var r := msgs[i := m];
    forall k | 0 < k < |r| ensures MayFollow(r[k - 1], r[k]) {
      assert MayFollow(msgs[k - 1], msgs[k]);
    }
  }

  lemma {:induction false} JoinedPush(msgs: seq<Message>, m: Message)
    requires Joined(msgs) && (msgs != [] ==> MayFollow(Last(msgs), m))
    requires m.Assistant? ==> PartsJoined(m.parts)
    ensures Joined(msgs + [m])
  {
  }

  lemma {:induction false} SaidJoined(parts: seq<Part>, kind: Kind, text: string, mid: string)
    requires PartsJoined(parts)
    ensures PartsJoined(JoinSaid(parts, kind, text, mid))
  {
  }

  lemma {:induction false} ChangedJoined(parts: seq<Part>, j: nat, p: Part)
    requires PartsJoined(parts) && j < |parts| && parts[j].Tool? && p.Tool?
    ensures PartsJoined(parts[j := p])
  {
  }

  lemma {:induction false} StepJoined(s: State, n: nat, line: Line)
    requires Joined(s.msgs)
    ensures Joined(Step(s, n, line).msgs)
  {
    hide Joined, PartsJoined, JoinSaid, Changed;
    if line.Says? {
      var msgs := Touch(s.msgs, line.at);
      TouchJoined(s.msgs, line.at);
      match line.u
      case UserChunk(text, mid) => UserJoined(msgs, n, line.at, text, mid);
      case AgentChunk(kind, text, mid) =>
        var open := WithAssistant(msgs, n, line.at, mid);
        OpenJoined(msgs, n, line.at, mid);
        var parts := Last(open).parts;
        LastJoined(open);
        SaidJoined(parts, kind, text, mid);
        JoinedReplace(open, |open| - 1, Last(open).(parts := JoinSaid(parts, kind, text, mid)));
      case ToolCall(tid, call, mid) =>
        var open := WithAssistant(msgs, n, line.at, mid);
        OpenJoined(msgs, n, line.at, mid);
        LastJoined(open);
        ToolJoined(Last(open).parts, NewTool(tid, call));
        JoinedReplace(open, |open| - 1, Last(open).(parts := Last(open).parts + [NewTool(tid, call)]));
      case ToolUpdate(tid, change) =>
        if tid in s.tools {
          ChangeJoined(msgs, s.tools[tid].0, s.tools[tid].1, change);
        }
      case InfoTitle(_) =>
      case CurrentMode(_) =>
      case Other =>
    }
  }

  lemma {:induction false} TouchJoined(msgs: seq<Message>, at: Option<string>)
    requires Joined(msgs)
    ensures Joined(Touch(msgs, at))
  {
    if msgs != [] && at.Some? {
      JoinedReplace(msgs, |msgs| - 1, Last(msgs).(updated := at));
    }
  }

  lemma {:induction false} UserJoined(msgs: seq<Message>, n: nat, at: Option<string>, text: string, mid: string)
    requires Joined(msgs)
    ensures Joined(AddUser(msgs, n, at, text, mid))
  {
    hide Joined;
    if msgs != [] && Last(msgs).User? && (mid == "" || mid == Last(msgs).mid) {
      JoinedReplace(msgs, |msgs| - 1, Last(msgs).(text := Last(msgs).text + text));
    } else {
      JoinedPush(msgs, User(IdFor(mid, n), mid, at, None, text));
    }
  }

  lemma {:induction false} OpenJoined(msgs: seq<Message>, n: nat, at: Option<string>, mid: string)
    requires Joined(msgs)
    ensures Joined(WithAssistant(msgs, n, at, mid))
  {
    if !(msgs != [] && Last(msgs).Assistant?) {
      JoinedPush(msgs, Assistant(IdFor(mid, n), mid, at, None, []));
    }
  }

  lemma {:induction false} LastJoined(msgs: seq<Message>)
    requires Joined(msgs) && msgs != [] && Last(msgs).Assistant?
    ensures PartsJoined(Last(msgs).parts)
  {
  }

  lemma {:induction false} ToolJoined(parts: seq<Part>, p: Part)
    requires PartsJoined(parts) && p.Tool?
    ensures PartsJoined(parts + [p])
  {
  }

  lemma {:induction false} ChangeJoined(msgs: seq<Message>, i: nat, j: nat, c: Change)
    requires Joined(msgs)
    ensures Joined(ChangeAt(msgs, i, j, c))
  {
    if IsTool(msgs, i, j) {
      var p := Changed(msgs[i].parts[j], c);
      ChangedJoined(msgs[i].parts, j, p);
      JoinedReplace(msgs, i, msgs[i].(parts := msgs[i].parts[j := p]));
    }
  }

  lemma {:induction false} AllJoined(lines: seq<Line>)
    ensures Joined(Fold(lines).msgs)
  {
    if lines != [] {
      AllJoined(lines[..|lines| - 1]);
      StepJoined(Fold(lines[..|lines| - 1]), |lines|, lines[|lines| - 1]);
    }
  }
}
