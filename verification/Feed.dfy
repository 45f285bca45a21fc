/**
  CDATA sections as `feed.py` prints them, read back by section 2.7 of XML 1.0: a section begins
  with `<![CDATA[` and ends at the first `]]>` after it.
 */
module Feed {
  import opened Wrappers

  const OPEN := "<![CDATA["
  const CLOSE := "]]>"
  const SPLIT := "]]]]><![CDATA[>"

  /** Python's `text.replace("]]>", SPLIT)`: left to right, never overlapping. */
  function Replace(text: string): string {
    if |text| < 3 then text
    else if text[..3] == CLOSE then SPLIT + Replace(text[3..])
    else [text[0]] + Replace(text[1..])
  }

  function Cdata(text: string): string {
    OPEN + Replace(text) + CLOSE
  }

  predicate ClosesAt(s: string, i: nat) {
    i + 3 <= |s| && s[i..i + 3] == CLOSE
  }

  /** Where the first `]]>` from i on begins. */
  function FirstClose(s: string, i: nat): (r: Option<nat>)
    requires i <= |s|
    ensures r.Some? ==> i <= r.value && ClosesAt(s, r.value) && forall j :: i <= j < r.value ==> !ClosesAt(s, j)
    ensures r.None? ==> forall j :: i <= j ==> !ClosesAt(s, j)
    decreases |s| - i
  {
    if ClosesAt(s, i) then Some(i)
    else if i == |s| then None
    else FirstClose(s, i + 1)
  }

  /** The joined contents of a string made of nothing but CDATA sections. */
  function Read(s: string): Option<string>
    decreases |s|
  {
    if s == "" then Some("")
    else if |s| < 9 || s[..9] != OPEN then None
    else
      match FirstClose(s, 9)
      case None => None
      case Some(c) =>
        match Read(s[c + 3..])
        case None => None
        case Some(rest) => Some(s[9..c] + rest)
  }

  /** Read, from inside a section whose content begins here. */
  function ReadInside(s: string): Option<string> {
    Read(OPEN + s)
  }

  // ---------------------------------------------------------------- reading one character

  lemma {:induction false} FirstCloseShift(s: string, t: string, i: nat)
    requires i <= |t|
    ensures FirstClose(s + t, |s| + i) == match FirstClose(t, i) case None => None case Some(c) => Some(|s| + c)
    decreases |t| - i
  {
    hide ClosesAt;
    ClosesShift(s, t, i);
    if i < |t| && !ClosesAt(t, i) {
      FirstCloseShift(s, t, i + 1);
      assert |s| + (i + 1) == |s| + i + 1;
    }
  }

  lemma {:induction false} ClosesShift(s: string, t: string, i: nat)
    ensures ClosesAt(s + t, |s| + i) <==> ClosesAt(t, i)
  {
    if i + 3 <= |t| {
      assert (s + t)[|s| + i..|s| + i + 3] == t[i..i + 3];
    }
  }

  /** A section's content runs to the first close. */
  lemma {:induction false} InsideMeaning(t: string)
    ensures ReadInside(t) == match FirstClose(t, 0)
      case None => None
      case Some(c) => match Read(t[c + 3..]) case None => None case Some(rest) => Some(t[..c] + rest)
  {
    var s := OPEN + t;
    assert s[..9] == OPEN;
    CloseInside(OPEN, t);
    match FirstClose(t, 0)
    case None =>
    case Some(c) =>
      assert s[9 + c + 3..] == t[c + 3..];
      assert s[9..9 + c] == t[..c];
  }

  lemma {:induction false} CloseInside(open: string, t: string)
    requires |open| == 9
    ensures FirstClose(open + t, 9) == match FirstClose(t, 0) case None => None case Some(c) => Some(9 + c)
  {
    hide ClosesAt;
    FirstCloseShift(open, t, 0);
  }

  lemma {:induction false} InsideClosed(t: string)
    requires ClosesAt(t, 0)
    ensures ReadInside(t) == Read(t[3..])
  {
    InsideMeaning(t);
    match Read(t[3..])
    case None =>
    case Some(rest) => assert t[..0] + rest == rest;
  }

  lemma {:induction false} InsideChar(t: string)
    requires t != "" && !ClosesAt(t, 0)
    ensures ReadInside(t) == match ReadInside(t[1..]) case None => None case Some(rest) => Some([t[0]] + rest)
  {
    hide Read, ReadInside;
    var u := t[1..];
    InsideMeaning(t);
    InsideMeaning(u);
    assert t == [t[0]] + u;
    FirstCloseShift([t[0]], u, 0);
    match FirstClose(u, 0)
    case None =>
    case Some(c) =>
      assert t[1 + c + 3..] == u[c + 3..];
      match Read(u[c + 3..])
      case None =>
      case Some(rest) => assert t[..1 + c] + rest == [t[0]] + (u[..c] + rest);
  }

  // ---------------------------------------------------------------- the round trip

  /** The replaced text opens with the text's first character, or with `]` for an escaped `]]>`. */
  lemma {:induction false} ReplaceHead(text: string)
    ensures |Replace(text)| >= |text|
    ensures text != "" ==> Replace(text)[0] == text[0]
    ensures |text| >= 2 && !ClosesAt(text, 0) ==> Replace(text)[1] == text[1]
    ensures ClosesAt(text, 0) ==> Replace(text)[1] == ']'
  {
    if |text| >= 3 && text[..3] != CLOSE {
      ReplaceHead(text[1..]);
    } else if |text| >= 3 {
      ReplaceHead(text[3..]);
    }
  }

  /** A `]]>` appears at the front of the escaped text only when the text has run out. */
  lemma {:induction false} NoEarlyClose(text: string)
    requires text != "" && !ClosesAt(text, 0)
    ensures !ClosesAt(Replace(text) + CLOSE, 0)
  {
    ReplaceHead(text);
    var s := Replace(text) + CLOSE;
    assert s[..3] == [s[0], s[1], s[2]];
    if |text| >= 3 {
      ReplaceHead(text[1..]);
      assert text[..3] == [text[0], text[1], text[2]];
    }
  }

  lemma {:induction false} InsideEnd()
    ensures ReadInside(CLOSE) == Some("")
  {
    InsideClosed(CLOSE);
    assert CLOSE[3..] == "";
  }

  lemma {:induction false} InsideRoundTrip(text: string)
    ensures ReadInside(Replace(text) + CLOSE) == Some(text)
  {
    hide Read, ReadInside, FirstClose;
    if text == "" {
      assert Replace(text) + CLOSE == CLOSE;
      InsideEnd();
    } else if ClosesAt(text, 0) {
      InsideRoundTrip(text[3..]);
      EscapedClose(Replace(text[3..]) + CLOSE);
      assert Replace(text) + CLOSE == SPLIT + (Replace(text[3..]) + CLOSE);
      assert text == CLOSE + text[3..];
    } else {
      NoEarlyClose(text);
      var s := Replace(text) + CLOSE;
      InsideRoundTrip(text[1..]);
      assert s == [text[0]] + (Replace(text[1..]) + CLOSE) by {
        ReplaceStep(text);
      }
      InsideChar(s);
      assert s[1..] == Replace(text[1..]) + CLOSE;
      assert text == [text[0]] + text[1..];
    }
  }

  lemma {:induction false} ReplaceStep(text: string)
    requires text != "" && !ClosesAt(text, 0)
    ensures Replace(text) == [text[0]] + Replace(text[1..])
  {
  }

  function Prefixed(head: string, r: Option<string>): Option<string> {
    match r case None => None case Some(rest) => Some(head + rest)
  }

  lemma {:induction false} InsideBracket(t: string)
    requires t != "" && t[0] == ']' && (|t| == 1 || t[1] != '>')
    ensures ReadInside("]" + t) == Prefixed("]", ReadInside(t))
  {
    var s := "]" + t;
    assert s[1..] == t;
    if |s| >= 3 {
      assert s[..3] == [s[0], s[1], s[2]];
    }
    InsideChar(s);
  }

  lemma {:induction false} InsideAngle(t: string)
    ensures ReadInside(">" + t) == Prefixed(">", ReadInside(t))
  {
    var s := ">" + t;
    assert s[1..] == t;
    if |s| >= 3 {
      assert s[..3][0] == '>';
    }
    InsideChar(s);
  }

  lemma {:induction false} InsideReopened(t: string)
    ensures ReadInside(CLOSE + (OPEN + t)) == ReadInside(t)
  {
    var s := CLOSE + (OPEN + t);
    assert s[..3] == CLOSE && s[3..] == OPEN + t;
    InsideClosed(s);
  }

  /** `]]` ends a section just before its `]]>`, and `>` begins the next. */
  lemma {:induction false} EscapedClose(rest: string)
    ensures ReadInside(SPLIT + rest) == Prefixed(CLOSE, ReadInside(rest))
  {
    hide Read, ReadInside, FirstClose;
    var s := CLOSE + (OPEN + (">" + rest));
    assert SPLIT + rest == "]" + ("]" + s);
    InsideBracket("]" + s);
    InsideBracket(s);
    InsideReopened(">" + rest);
    InsideAngle(rest);
    match ReadInside(rest)
    case None =>
    case Some(r) => assert "]" + ("]" + (">" + r)) == CLOSE + r;
  }

  /** Every text comes back, whatever brackets it holds or ends in. */
  lemma {:induction false} CdataRoundTrip(text: string)
    ensures Read(Cdata(text)) == Some(text)
  {
    InsideRoundTrip(text);
    assert Cdata(text) == OPEN + (Replace(text) + CLOSE);
  }

  lemma {:induction false} CdataInjective(text1: string, text2: string)
    requires Cdata(text1) == Cdata(text2)
    ensures text1 == text2
  {
    CdataRoundTrip(text1);
    CdataRoundTrip(text2);
  }
}
