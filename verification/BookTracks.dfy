/**
  The growing library item (`export_session`, `track_name`, `chapters_from` in book_tracks.py).

  A conversation's clips become numbered files of one folder, turn by turn, over any number of
  runs; the manifest says what has been written, the folder what is there.
 */
module BookTracks {
  import opened Wrappers

  type Clip = string

  datatype Turn = Turn(at: real, title: string, clips: seq<Clip>, sentences: seq<string>)

  /** A turn as the manifest keeps it. */
  datatype Entry = Entry(at: real, title: string, files: seq<string>)

  /** A name made safe, a clip with no audio of its own, and whether a clip can be put under a name. */
  datatype World = World(safe: string -> string, device: Clip -> bool, place: (Clip, string) -> bool)

  /** The manifest, None before the first, and the names in the folder. */
  datatype Shelf = Shelf(manifest: Option<seq<Entry>>, disk: set<string>)

  // ---------------------------------------------------------------- names

  function Digit(d: nat): char
    requires d < 10
  {
    ('0' as int + d) as char
  }

  function Decimal(n: nat): string {
    if n < 10 then [Digit(n)] else Decimal(n / 10) + [Digit(n % 10)]
  }

  /** The last k digits. */
  function Fixed(n: nat, k: nat): string {
    if k == 0 then [] else Fixed(n / 10, k - 1) + [Digit(n % 10)]
  }

  /** At least four digits. */
  function Padded(n: nat): string {
    if n < 10000 then Fixed(n, 4) else Decimal(n)
  }

  const DASH := " - "

  function TrackName(w: World, n: nat, said: string, fallback: string): string {
    Padded(n) + DASH + w.safe(if said != "" then said else fallback) + ".mp3"
  }

  // ---------------------------------------------------------------- a run

  function Said(turn: Turn, i: nat): string {
    if i < |turn.sentences| then turn.sentences[i] else ""
  }

  predicate Device(w: World, turn: Turn) {
    exists c :: c in turn.clips && w.device(c)
  }

  /** The clips of a turn from i on, after `index` tracks: the names given, how many are new, the folder. */
  function Placed(w: World, turn: Turn, i: nat, index: nat, disk: set<string>): (r: (seq<string>, nat, set<string>))
    requires i <= |turn.clips|
    ensures r.1 == 0 ==> r.2 == disk
    decreases |turn.clips| - i
  {
    if i == |turn.clips| then ([], 0, disk)
    else
      var name := TrackName(w, index + 1, Said(turn, i), turn.title);
      if name in disk then
        var (files, added, after) := Placed(w, turn, i + 1, index + 1, disk);
        ([name] + files, added, after)
      else if w.place(turn.clips[i], name) then
        var (files, added, after) := Placed(w, turn, i + 1, index + 1, disk + {name});
        ([name] + files, added + 1, after)
      else ([], 0, disk)
  }

  function Flat(entries: seq<Entry>): seq<string> {
    if entries == [] then [] else Flat(entries[..|entries| - 1]) + entries[|entries| - 1].files
  }

  function Times(entries: seq<Entry>): set<real> {
    set k | 0 <= k < |entries| :: entries[k].at
  }

  /** How far a run has come; `stop` is the turn none of whose clips would go. */
  datatype Walked = Walked(written: seq<Entry>, added: nat, disk: set<string>, stop: Option<nat>)

  predicate Skips(w: World, done: set<real>, turn: Turn) {
    turn.at in done || turn.clips == [] || Device(w, turn)
  }

  /** The turns from k on. */
  function Walk(w: World, done: set<real>, turns: seq<Turn>, k: nat, s: Walked): (r: Walked)
    requires k <= |turns|
    ensures s.stop.None? && r.stop.Some? ==> k <= r.stop.value < |turns|
    decreases |turns| - k
  {
    if k == |turns| then s
    else if Skips(w, done, turns[k]) then Walk(w, done, turns, k + 1, s)
    else
      var (files, added, disk) := Placed(w, turns[k], 0, |Flat(s.written)|, s.disk);
      if files == [] then s.(stop := Some(k))
      else
        Walk(w, done, turns, k + 1,
             s.(written := s.written + [Entry(turns[k].at, turns[k].title, files)],
                added := s.added + added, disk := disk))
  }

  function Entries(shelf: Shelf): seq<Entry> {
    match shelf.manifest case None => [] case Some(e) => e
  }

  function Whole(w: World, turns: seq<Turn>, shelf: Shelf): Walked {
    Walk(w, Times(Entries(shelf)), turns, 0, Walked(Entries(shelf), 0, shelf.disk, None))
  }

  /** The manifest is only written when something was added, or when there was none. */
  function Export(w: World, turns: seq<Turn>, shelf: Shelf): (Shelf, nat) {
    var r := Whole(w, turns, shelf);
    (Shelf(if r.added > 0 || shelf.manifest.None? then Some(r.written) else shelf.manifest, r.disk), r.added)
  }

  lemma {:induction false} FlatPush(entries: seq<Entry>, e: Entry)
    ensures Flat(entries + [e]) == Flat(entries) + e.files
  {
    assert (entries + [e])[..|entries|] == entries;
  }

  method PlaceTurn(w: World, turn: Turn, index0: nat, disk0: set<string>)
    returns (files: seq<string>, index: nat, added: nat, disk: set<string>)
    ensures (files, added, disk) == Placed(w, turn, 0, index0, disk0) && index == index0 + |files|
  {
    hide TrackName, Said;
    files, index, added, disk := [], index0, 0, disk0;
    var i := 0;
    assert [] + Placed(w, turn, 0, index0, disk0).0 == Placed(w, turn, 0, index0, disk0).0;
    while i < |turn.clips|
      invariant i <= |turn.clips| && index == index0 + |files|
      invariant var (rest, more, after) := Placed(w, turn, i, index, disk);
                Placed(w, turn, 0, index0, disk0) == (files + rest, added + more, after)
    {
      var name := TrackName(w, index + 1, Said(turn, i), turn.title);
      ghost var rest := Placed(w, turn, i + 1, index + 1, disk + {name}).0;
      assert (files + [name]) + rest == files + ([name] + rest);
      if name in disk {
        assert disk + {name} == disk;
      } else if w.place(turn.clips[i], name) {
        added, disk := added + 1, disk + {name};
      } else {
        assert files + [] == files;
        return;
      }
      index, files := index + 1, files + [name];
      i := i + 1;
    }
    assert files + [] == files;
  }

  method ExportSession(w: World, turns: seq<Turn>, shelf: Shelf) returns (after: Shelf, added: nat)
    ensures (after, added) == Export(w, turns, shelf)
  {
    hide Device, Times, Placed, Flat, Entries;
    var done := Times(Entries(shelf));
    var written, disk, index := Entries(shelf), shelf.disk, |Flat(Entries(shelf))|;
    added := 0;
    var k := 0;
    while k < |turns|
      invariant k <= |turns| && index == |Flat(written)|
      invariant Whole(w, turns, shelf) == Walk(w, done, turns, k, Walked(written, added, disk, None))
    {
      var turn := turns[k];
      if turn.at in done || turn.clips == [] || Device(w, turn) {
        k := k + 1;
        continue;
      }
      var files, index', more, disk' := PlaceTurn(w, turn, index, disk);
      if files == [] {
        break;
      }
      FlatPush(written, Entry(turn.at, turn.title, files));
      index, disk, added := index', disk', added + more;
      written := written + [Entry(turn.at, turn.title, files)];
      k := k + 1;
    }
    after := Shelf(if added > 0 || shelf.manifest.None? then Some(written) else shelf.manifest, disk);
  }

  // ---------------------------------------------------------------- a name gives its number

  predicate IsDigit(c: char) {
    '0' <= c <= '9'
  }

  function DigitValue(c: char): nat
    requires IsDigit(c)
  {
    c as int - '0' as int
  }

  function Value(s: string): nat
    requires forall c :: c in s ==> IsDigit(c)
  {
    if s == [] then 0 else assert s[|s| - 1] in s; 10 * Value(s[..|s| - 1]) + DigitValue(s[|s| - 1])
  }

  lemma {:induction false} ValuePush(s: string, d: nat)
    requires d < 10 && forall c :: c in s ==> IsDigit(c)
    ensures forall c :: c in s + [Digit(d)] ==> IsDigit(c)
    ensures Value(s + [Digit(d)]) == 10 * Value(s) + d
  {
    assert (s + [Digit(d)])[..|s|] == s;
  }

  lemma {:induction false} DecimalValue(n: nat)
    ensures Decimal(n) != [] && forall c :: c in Decimal(n) ==> IsDigit(c)
    ensures Value(Decimal(n)) == n
  {
    if n < 10 {
      ValuePush([], n);
      assert [] + [Digit(n)] == [Digit(n)];
    } else {
      DecimalValue(n / 10);
      ValuePush(Decimal(n / 10), n % 10);
    }
  }

  function Pow10(k: nat): (p: nat)
    ensures p >= 1
  {
    if k == 0 then 1 else 10 * Pow10(k - 1)
  }

  lemma {:induction false} FixedValue(n: nat, k: nat)
    requires n < Pow10(k)
    ensures |Fixed(n, k)| == k && forall c :: c in Fixed(n, k) ==> IsDigit(c)
    ensures Value(Fixed(n, k)) == n
  {
    if k > 0 {
      FixedValue(n / 10, k - 1);
      ValuePush(Fixed(n / 10, k - 1), n % 10);
    }
  }

  lemma {:induction false} TenThousand()
    ensures Pow10(4) == 10000
  {
    assert Pow10(2) == 100;
  }

  lemma {:induction false} PaddedValue(n: nat)
    ensures forall c :: c in Padded(n) ==> IsDigit(c)
    ensures Value(Padded(n)) == n
  {
    TenThousand();
    if n < 10000 {
      FixedValue(n, 4);
    } else {
      DecimalValue(n);
    }
  }

  /** The n-th name of an item, whatever is said under it. */
  ghost predicate Named(n: nat, name: string) {
    exists rest :: name == Padded(n) + DASH + rest
  }

  /** Digits go on until the dash. */
  lemma {:induction false} DigitsEnd(p: string, x: string, q: string, y: string)
    requires p + DASH + x == q + DASH + y
    requires forall c :: c in q ==> IsDigit(c)
    ensures |q| <= |p|
  {
    var name := q + DASH + y;
    assert (p + DASH + x)[|p|] == ' ';
    assert forall k :: 0 <= k < |q| ==> q[k] in q && name[k] == q[k];
  }

  lemma {:induction false} PaddedDigits(n: nat)
    ensures forall c :: c in Padded(n) ==> IsDigit(c)
  {
    PaddedValue(n);
  }

  lemma {:induction false} PaddedIsInjective(m: nat, n: nat)
    requires Padded(m) == Padded(n)
    ensures m == n
  {
    hide Padded;
    PaddedValue(m);
    PaddedValue(n);
  }

  lemma {:induction false} NumberOfName(m: nat, n: nat, name: string)
    requires Named(m, name) && Named(n, name)
    ensures m == n
  {
    hide Padded;
    var x :| name == Padded(m) + DASH + x;
    var y :| name == Padded(n) + DASH + y;
    PaddedDigits(m);
    PaddedDigits(n);
    DigitsEnd(Padded(m), x, Padded(n), y);
    DigitsEnd(Padded(n), y, Padded(m), x);
    assert Padded(m) == name[..|Padded(m)|] == Padded(n);
    PaddedIsInjective(m, n);
  }

  // ---------------------------------------------------------------- what every run keeps

  /** Numbered 1, 2, 3 and so on. */
  ghost predicate Numbered(files: seq<string>) {
    forall k :: 0 <= k < |files| ==> Named(k + 1, files[k])
  }

  lemma {:induction false} NumberedAreDistinct(files: seq<string>, i: nat, j: nat)
    requires Numbered(files) && i < j < |files|
    ensures files[i] != files[j]
  {
    if files[i] == files[j] {
      NumberOfName(i + 1, j + 1, files[i]);
    }
  }

  lemma {:induction false} TrackIsNamed(w: World, n: nat, said: string, fallback: string)
    ensures Named(n, TrackName(w, n, said, fallback))
  {
    var rest := w.safe(if said != "" then said else fallback) + ".mp3";
    assert TrackName(w, n, said, fallback) == Padded(n) + DASH + rest;
  }

  /** The clips that go are the turn's first ones, each under its number and words, up to one that will not. */
  lemma {:induction false} PlacedNames(w: World, turn: Turn, i: nat, index: nat, disk: set<string>)
    requires i <= |turn.clips|
    ensures var (files, _, after) := Placed(w, turn, i, index, disk);
            && i + |files| <= |turn.clips|
            && (forall j: nat :: j < |files| ==> files[j] == TrackName(w, index + j + 1, Said(turn, i + j), turn.title))
            && (i + |files| < |turn.clips| ==>
                  var name := TrackName(w, index + |files| + 1, Said(turn, i + |files|), turn.title);
                  name !in after && !w.place(turn.clips[i + |files|], name))
    decreases |turn.clips| - i
  {
    hide TrackName, Said;
    if i < |turn.clips| {
      var name := TrackName(w, index + 1, Said(turn, i), turn.title);
      PlacedNames(w, turn, i + 1, index + 1, disk + {name});
      assert name in disk ==> disk + {name} == disk;
    }
  }

  /** The name of clip j, when clip i is to be number `index` + 1. */
  function NameOf(w: World, turn: Turn, i: nat, index: nat, j: nat): string
    requires i <= j
  {
    TrackName(w, index + (j - i) + 1, Said(turn, j), turn.title)
  }

  /** Clip j's name is in the folder, or it can be put there. */
  predicate Goes(w: World, turn: Turn, i: nat, index: nat, j: nat, disk: set<string>)
    requires i <= j < |turn.clips|
  {
    NameOf(w, turn, i, index, j) in disk || w.place(turn.clips[j], NameOf(w, turn, i, index, j))
  }

  lemma {:induction false} OtherNumberOtherName(w: World, m: nat, n: nat, said: string, fallback: string, said': string,
                                                fallback': string)
    requires m != n
    ensures TrackName(w, m, said, fallback) != TrackName(w, n, said', fallback')
  {
    TrackIsNamed(w, m, said, fallback);
    TrackIsNamed(w, n, said', fallback');
    if TrackName(w, m, said, fallback) == TrackName(w, n, said', fallback') {
      NumberOfName(m, n, TrackName(w, m, said, fallback));
    }
  }

  ghost predicate AllGo(w: World, turn: Turn, i: nat, index: nat, disk: set<string>) {
    forall j: nat :: i <= j < |turn.clips| ==> Goes(w, turn, i, index, j, disk)
  }

  /** The clips from i on are all placed exactly when each of them goes, under its own number. */
  lemma {:induction false} WholeTurn(w: World, turn: Turn, i: nat, index: nat, disk: set<string>)
    requires i <= |turn.clips|
    ensures |Placed(w, turn, i, index, disk).0| == |turn.clips| - i <==> AllGo(w, turn, i, index, disk)
    decreases |turn.clips| - i
  {
    hide Goes, Placed;
    if i == |turn.clips| {
      NonePlaced(w, turn, index, disk);
    } else {
      var after := disk + {TrackName(w, index + 1, Said(turn, i), turn.title)};
      PlacedOne(w, turn, i, index, disk);
      WholeTurn(w, turn, i + 1, index + 1, after);
      if |Placed(w, turn, i, index, disk).0| == |turn.clips| - i {
        forall j: nat | i <= j < |turn.clips| ensures Goes(w, turn, i, index, j, disk) {
          if i < j {
            StillGoes(w, turn, i, index, j, disk);
          }
        }
      }
      if AllGo(w, turn, i, index, disk) {
        var next, at := i + 1, index + 1;
        forall j: nat | next <= j < |turn.clips| ensures Goes(w, turn, next, at, j, after) {
          StillGoes(w, turn, i, index, j, disk);
        }
      }
    }
  }

  lemma {:induction false} NonePlaced(w: World, turn: Turn, index: nat, disk: set<string>)
    ensures Placed(w, turn, |turn.clips|, index, disk) == ([], 0, disk)
  {
  }

  /** A clip placed before takes no later one's name. */
  lemma {:induction false} StillGoes(w: World, turn: Turn, i: nat, index: nat, j: nat, disk: set<string>)
    requires i < j < |turn.clips|
    ensures var name := TrackName(w, index + 1, Said(turn, i), turn.title);
            Goes(w, turn, i, index, j, disk) <==> Goes(w, turn, i + 1, index + 1, j, disk + {name})
  {
    hide TrackName, Said;
    OtherNumberOtherName(w, index + 1, index + (j - i) + 1, Said(turn, i), turn.title, Said(turn, j), turn.title);
  }

  lemma {:induction false} PlacedOne(w: World, turn: Turn, i: nat, index: nat, disk: set<string>)
    requires i < |turn.clips|
    ensures var name := TrackName(w, index + 1, Said(turn, i), turn.title);
            |Placed(w, turn, i, index, disk).0|
            == if Goes(w, turn, i, index, i, disk) then 1 + |Placed(w, turn, i + 1, index + 1, disk + {name}).0| else 0
  {
    hide TrackName, Said;
    var name := TrackName(w, index + 1, Said(turn, i), turn.title);
    assert name in disk ==> disk + {name} == disk;
  }

  function SetOf(files: seq<string>): set<string> {
    set f | f in files
  }

  lemma {:induction false} SetOfCons(disk: set<string>, name: string, files: seq<string>)
    ensures disk + {name} + SetOf(files) == disk + SetOf([name] + files)
  {
    assert forall f :: f in [name] + files <==> f == name || f in files;
  }

  lemma {:induction false} SetOfAppend(a: seq<string>, b: seq<string>)
    ensures SetOf(a + b) == SetOf(a) + SetOf(b)
  {
  }

  /** What is new in the folder is what was named, and is counted once. */
  lemma {:induction false} PlacedDisk(w: World, turn: Turn, i: nat, index: nat, disk: set<string>)
    requires i <= |turn.clips|
    ensures var (files, added, after) := Placed(w, turn, i, index, disk);
            after == disk + SetOf(files) && |after| == |disk| + added
    decreases |turn.clips| - i
  {
    hide TrackName, Said, SetOf;
    if i == |turn.clips| {
      NoFiles(disk);
    } else {
      var name := TrackName(w, index + 1, Said(turn, i), turn.title);
      NoFiles(disk);
      PlacedDisk(w, turn, i + 1, index + 1, disk + {name});
      SetOfCons(disk, name, Placed(w, turn, i + 1, index + 1, disk + {name}).0);
      if name in disk {
        assert disk + {name} == disk;
      } else {
        assert |disk + {name}| == |disk| + 1;
      }
    }
  }

  lemma {:induction false} NoFiles(disk: set<string>)
    ensures disk + SetOf([]) == disk
  {
  }

  /** One more turn written. */
  function Writes(w: World, turn: Turn, s: Walked): Walked {
    var (files, added, disk) := Placed(w, turn, 0, |Flat(s.written)|, s.disk);
    if files == [] then s
    else s.(written := s.written + [Entry(turn.at, turn.title, files)], added := s.added + added, disk := disk)
  }

  lemma {:induction false} WritesKeeps(w: World, turn: Turn, s: Walked)
    ensures var r := Writes(w, turn, s);
            && s.written <= r.written && s.added <= r.added
            && (Numbered(Flat(s.written)) ==> Numbered(Flat(r.written)))
            && r.added - s.added == |r.disk| - |s.disk|
            && Flat(s.written) <= Flat(r.written)
            && r.disk == s.disk + SetOf(Flat(r.written)[|Flat(s.written)|..])
            && (r.added == s.added ==> r.disk == s.disk)
  {
    hide Numbered, SetOf;
    var (files, added, disk) := Placed(w, turn, 0, |Flat(s.written)|, s.disk);
    if files != [] {
      FlatPush(s.written, Entry(turn.at, turn.title, files));
      PlacedDisk(w, turn, 0, |Flat(s.written)|, s.disk);
      SetOfAppend(Flat(s.written), files);
      NumberedOn(w, turn, Flat(s.written), s.disk);
      assert (Flat(s.written) + files)[|Flat(s.written)|..] == files;
    } else {
      NoNewFiles(s.disk, Flat(s.written));
    }
  }

  /** A run writes on from where the manifest ends, and the numbers with it. */
  lemma {:induction false} WalkKeeps(w: World, done: set<real>, turns: seq<Turn>, k: nat, s: Walked)
    requires k <= |turns|
    ensures var r := Walk(w, done, turns, k, s);
            && s.written <= r.written && s.added <= r.added
            && (Numbered(Flat(s.written)) ==> Numbered(Flat(r.written)))
            && r.added - s.added == |r.disk| - |s.disk|
            && Flat(s.written) <= Flat(r.written)
            && r.disk == s.disk + SetOf(Flat(r.written)[|Flat(s.written)|..])
            && (r.added == s.added ==> r.disk == s.disk)
    decreases |turns| - k
  {
    hide Numbered, Skips, Placed, SetOf;
    if k < |turns| {
      if Skips(w, done, turns[k]) {
        WalkKeeps(w, done, turns, k + 1, s);
      } else if Placed(w, turns[k], 0, |Flat(s.written)|, s.disk).0 != [] {
        var t := Writes(w, turns[k], s);
        WritesKeeps(w, turns[k], s);
        WalkKeeps(w, done, turns, k + 1, t);
        var r := Walk(w, done, turns, k, s);
        NewFiles(Flat(s.written), Flat(t.written), Flat(r.written));
      } else {
        NoNewFiles(s.disk, Flat(s.written));
      }
    } else {
      NoNewFiles(s.disk, Flat(s.written));
    }
  }

  lemma {:induction false} NoNewFiles(disk: set<string>, files: seq<string>)
    ensures disk + SetOf(files[|files|..]) == disk
  {
    assert files[|files|..] == [];
  }

  lemma {:induction false} NewFiles(a: seq<string>, b: seq<string>, c: seq<string>)
    requires a <= b <= c
    ensures SetOf(c[|a|..]) == SetOf(b[|a|..]) + SetOf(c[|b|..])
  {
    assert c[|a|..] == b[|a|..] + c[|b|..];
  }

  lemma {:induction false} NumberedOn(w: World, turn: Turn, before: seq<string>, disk: set<string>)
    ensures Numbered(before) ==> Numbered(before + Placed(w, turn, 0, |before|, disk).0)
  {
    var files := Placed(w, turn, 0, |before|, disk).0;
    PlacedNames(w, turn, 0, |before|, disk);
    if Numbered(before) {
      forall k | 0 <= k < |before + files| ensures Named(k + 1, (before + files)[k]) {
        if k >= |before| {
          var j: nat := k - |before|;
          TrackIsNamed(w, |before| + j + 1, Said(turn, 0 + j), turn.title);
        }
      }
    }
  }

  // ---------------------------------------------------------------- any number of runs

  /** Each run has its own turns, and finds whatever is in the folder by then. */
  datatype Session = Session(w: World, turns: seq<Turn>, disk: set<string>)

  function ManifestFrom(manifest: Option<seq<Entry>>, runs: seq<Session>, n: nat): Option<seq<Entry>>
    requires n <= |runs|
  {
    if n == 0 then manifest
    else
      var run := runs[n - 1];
      Export(run.w, run.turns, Shelf(ManifestFrom(manifest, runs, n - 1), run.disk)).0.manifest
  }

  function ManifestAfter(runs: seq<Session>, n: nat): Option<seq<Entry>>
    requires n <= |runs|
  {
    ManifestFrom(None, runs, n)
  }

  function FilesAfter(runs: seq<Session>, n: nat): seq<string>
    requires n <= |runs|
  {
    match ManifestAfter(runs, n) case None => [] case Some(entries) => Flat(entries)
  }

  /** One run: what it keeps of the manifest, what it adds to the folder, what it counts. */
  lemma {:induction false} ExportKeeps(w: World, turns: seq<Turn>, shelf: Shelf)
    ensures var (after, added) := Export(w, turns, shelf);
            && after.manifest.Some?
            && Entries(shelf) <= Entries(after)
            && (Numbered(Flat(Entries(shelf))) ==> Numbered(Flat(Entries(after))))
            && added == |after.disk| - |shelf.disk|
            && (added > 0 ==> Flat(Entries(shelf)) <= Flat(Entries(after))
                              && after.disk == shelf.disk + SetOf(Flat(Entries(after))[|Flat(Entries(shelf))|..]))
            && (added == 0 ==> after.disk == shelf.disk)
  {
    hide Numbered, SetOf, Flat;
    WalkKeeps(w, Times(Entries(shelf)), turns, 0, Walked(Entries(shelf), 0, shelf.disk, None));
  }

  /** The files of the manifest are numbered from 1 without a gap, whatever the runs were given. */
  lemma {:induction false} NumberedForever(runs: seq<Session>, n: nat)
    requires n <= |runs|
    ensures Numbered(FilesAfter(runs, n))
  {
    hide Numbered, Export, SetOf, Flat, ManifestAfter;
    if n == 0 {
      NothingYet(runs);
      NothingIsNumbered();
    } else {
      NumberedForever(runs, n - 1);
      OneRunMore(runs, n);
      ExportKeeps(runs[n - 1].w, runs[n - 1].turns, Shelf(ManifestAfter(runs, n - 1), runs[n - 1].disk));
      NothingFlat();
    }
  }

  lemma {:induction false} NothingYet(runs: seq<Session>)
    ensures ManifestAfter(runs, 0).None?
  {
  }

  lemma {:induction false} NothingFlat()
    ensures Flat([]) == []
  {
  }

  lemma {:induction false} OneRunMore(runs: seq<Session>, n: nat)
    requires 0 < n <= |runs|
    ensures var run := runs[n - 1];
            ManifestAfter(runs, n) == Export(run.w, run.turns, Shelf(ManifestAfter(runs, n - 1), run.disk)).0.manifest
  {
    hide Export;
  }

  lemma {:induction false} NothingIsNumbered()
    ensures Numbered([])
  {
  }

  /** And no file is named twice. */
  lemma {:induction false} NamedOnce(runs: seq<Session>, n: nat, i: nat, j: nat)
    requires n <= |runs| && i < j < |FilesAfter(runs, n)|
    ensures FilesAfter(runs, n)[i] != FilesAfter(runs, n)[j]
  {
    NumberedForever(runs, n);
    NumberedAreDistinct(FilesAfter(runs, n), i, j);
  }

  /** What has been written is never rewritten. */
  lemma {:induction false} ManifestGrows(runs: seq<Session>, m: nat, n: nat)
    requires 0 < m <= n <= |runs|
    ensures ManifestAfter(runs, m).Some? && ManifestAfter(runs, n).Some?
    ensures ManifestAfter(runs, m).value <= ManifestAfter(runs, n).value
  {
    hide Export;
    ExportKeeps(runs[n - 1].w, runs[n - 1].turns, Shelf(ManifestAfter(runs, n - 1), runs[n - 1].disk));
    if m < n {
      ManifestGrows(runs, m, n - 1);
    }
  }

  /** What a run appends has none of the times it found done. */
  lemma {:induction false} WalkIsFresh(w: World, done: set<real>, turns: seq<Turn>, k: nat, s: Walked, j: nat)
    requires k <= |turns|
    ensures var r := Walk(w, done, turns, k, s); |s.written| <= j < |r.written| ==> r.written[j].at !in done
    decreases |turns| - k
  {
    hide Placed, Flat, Device;
    if k < |turns| {
      if Skips(w, done, turns[k]) {
        WalkIsFresh(w, done, turns, k + 1, s, j);
      } else if Placed(w, turns[k], 0, |Flat(s.written)|, s.disk).0 != [] {
        var t := Writes(w, turns[k], s);
        WalkIsFresh(w, done, turns, k + 1, t, j);
        WalkPrefix(w, done, turns, k + 1, t);
        assert j == |s.written| ==> Walk(w, done, turns, k, s).written[j] == t.written[j];
      }
    }
  }

  lemma {:induction false} WalkPrefix(w: World, done: set<real>, turns: seq<Turn>, k: nat, s: Walked)
    requires k <= |turns|
    ensures s.written <= Walk(w, done, turns, k, s).written
  {
    hide Numbered, SetOf, Walk;
    WalkKeeps(w, done, turns, k, s);
  }

  /**
    A turn is written once for good: whatever runs follow, none appends an entry with the time of one
    already in the manifest. So what was left out of a turn when it was written stays left out.
   */
  lemma {:induction false} WrittenForGood(runs: seq<Session>, m: nat, n: nat, j: nat)
    requires 0 < m <= n <= |runs|
    ensures ManifestAfter(runs, m).Some? && ManifestAfter(runs, n).Some?
    ensures var old', new' := ManifestAfter(runs, m).value, ManifestAfter(runs, n).value;
            && old' <= new'
            && (|old'| <= j < |new'| ==> new'[j].at !in Times(old'))
  {
    hide Export, Times;
    ManifestGrows(runs, m, n);
    if m < n {
      WrittenForGood(runs, m, n - 1, j);
      ManifestGrows(runs, m, n - 1);
      var before, run := ManifestAfter(runs, n - 1).value, runs[n - 1];
      ExportIsFresh(run.w, run.turns, Shelf(Some(before), run.disk), j);
      TimesPrefix(ManifestAfter(runs, m).value, before);
      ManifestGrows(runs, n - 1, n);
    }
  }

  lemma {:induction false} ExportIsFresh(w: World, turns: seq<Turn>, shelf: Shelf, j: nat)
    ensures var after := Entries(Export(w, turns, shelf).0);
            |Entries(shelf)| <= j < |after| ==> after[j].at !in Times(Entries(shelf))
  {
    hide Walk, Times;
    WalkIsFresh(w, Times(Entries(shelf)), turns, 0, Walked(Entries(shelf), 0, shelf.disk, None), j);
  }

  /**
    A clip that will not go stops its turn only: the next turn takes its number, and a later run, in
    any world, has nothing left to do.
   */
  lemma {:induction false} TurnIsCutShort(later: World) returns (w: World, turns: seq<Turn>)
    ensures |turns| == 2 && turns[0].clips == ["good", "bad"] && DistinctTimes(turns)
    ensures var after := Export(w, turns, Shelf(None, {})).0;
            && after.manifest == Some([Entry(turns[0].at, turns[0].title, [TrackName(w, 1, "", turns[0].title)]),
                                       Entry(turns[1].at, turns[1].title, [TrackName(w, 2, "", turns[1].title)])])
            && Export(later, turns, after) == (after, 0)
  {
    w := World(t => t, c => false, (c, n) => c == "good");
    turns := [Turn(1.0, "a", ["good", "bad"], []), Turn(2.0, "b", ["good"], [])];
    hide TrackName, Placed, Flat, Times;
    var one, two := TrackName(w, 1, "", "a"), TrackName(w, 2, "", "b");
    var e, f := Entry(1.0, "a", [one]), Entry(2.0, "b", [two]);
    OneOfTwo(w, turns[0]);
    OtherNumberOtherName(w, 1, 2, "", "a", "", "b");
    OneClip(w, turns[1], 1, {one});
    OneEntry(e);
    TimesPush([e], f);
    FlatPush([e], f);
    assert [e] + [f] == [e, f] && {} + {one} == {one};
    assert Walk(w, {}, turns, 1, Walked([e], 1, {one}, None)) == Walked([e, f], 2, {one} + {two}, None);
    assert Whole(w, turns, Shelf(None, {})) == Walked([e, f], 2, {one} + {two}, None);
    var after := Shelf(Some([e, f]), {one} + {two});
    assert Whole(later, turns, after) == Walked([e, f], 0, {one} + {two}, None);
  }

  lemma {:induction false} OneOfTwo(w: World, turn: Turn)
    requires |turn.clips| == 2 && turn.sentences == []
    requires var one := TrackName(w, 1, "", turn.title);
             w.place(turn.clips[0], one) && forall n :: !w.place(turn.clips[1], n)
    ensures var one := TrackName(w, 1, "", turn.title); Placed(w, turn, 0, 0, {}) == ([one], 1, {one})
  {
    hide TrackName;
    var one, two := TrackName(w, 1, "", turn.title), TrackName(w, 2, "", turn.title);
    OtherNumberOtherName(w, 1, 2, "", turn.title, "", turn.title);
    assert Placed(w, turn, 1, 1, {one}) == ([], 0, {one});
    assert {} + {one} == {one} && [one] + [] == [one];
  }

  // ---------------------------------------------------------------- what is written

  /** The turns a run has something to do for. */
  function Audible(w: World, done: set<real>, turns: seq<Turn>, k: nat): seq<Turn>
    requires k <= |turns|
    decreases |turns| - k
  {
    if k == |turns| then []
    else (if Skips(w, done, turns[k]) then [] else [turns[k]]) + Audible(w, done, turns, k + 1)
  }

  /** When every clip can be placed, each of them is written, whole and in order. */
  lemma {:induction false} AllAreWritten(w: World, done: set<real>, turns: seq<Turn>, k: nat, s: Walked)
    requires k <= |turns| && forall c, n :: w.place(c, n)
    ensures var r, a, b := Walk(w, done, turns, k, s), Audible(w, done, turns, k), |s.written|;
            && r.stop == s.stop && |r.written| == b + |a| && s.written <= r.written
            && forall i :: 0 <= i < |a| ==> r.written[b + i].at == a[i].at && r.written[b + i].title == a[i].title
                                            && |r.written[b + i].files| == |a[i].clips|
    decreases |turns| - k
  {
    hide Placed, Flat;
    if k < |turns| {
      PlacedNames(w, turns[k], 0, |Flat(s.written)|, s.disk);
      if Skips(w, done, turns[k]) {
        AllAreWritten(w, done, turns, k + 1, s);
      } else {
        var t := Writes(w, turns[k], s);
        AllAreWritten(w, done, turns, k + 1, t);
      }
    }
  }

  // ---------------------------------------------------------------- a turn cut short

  /** The run writes its manifest. */
  predicate Saved(w: World, turns: seq<Turn>, shelf: Shelf) {
    shelf.manifest.None? || Export(w, turns, shelf).1 > 0
  }

  /** The run gets to turn j and places some of its clips, and not all. */
  ghost predicate CutAt(w: World, turns: seq<Turn>, shelf: Shelf, j: nat)
    requires j < |turns|
  {
    var before := Whole(w, turns[..j], shelf);
    && before.stop.None? && !Skips(w, Times(Entries(shelf)), turns[j])
    && 0 < |Placed(w, turns[j], 0, |Flat(before.written)|, before.disk).0| < |turns[j].clips|
  }

  /** After n runs from this shelf's manifest, entry k is new and has this time. */
  ghost predicate Appends(shelf: Shelf, runs: seq<Session>, n: nat, k: nat, at: real) {
    && n <= |runs| && ManifestFrom(shelf.manifest, runs, n).Some?
    && |Entries(shelf)| <= k < |ManifestFrom(shelf.manifest, runs, n).value|
    && ManifestFrom(shelf.manifest, runs, n).value[k].at == at
  }

  /** No runs, in whatever worlds and with whatever turns and folders, write a turn of this time. */
  ghost predicate NeverAgain(shelf: Shelf, at: real) {
    forall runs: seq<Session>, n: nat, k: nat :: !Appends(shelf, runs, n, k, at)
  }

  lemma {:induction false} WalkSplit(w: World, done: set<real>, turns: seq<Turn>, k: nat, s: Walked, j: nat)
    requires k <= j <= |turns| && s.stop.None? && Walk(w, done, turns[..j], k, s).stop.None?
    ensures Walk(w, done, turns, k, s) == Walk(w, done, turns, j, Walk(w, done, turns[..j], k, s))
    decreases j - k
  {
    hide Placed, Flat, Skips;
    if k < j {
      if Skips(w, done, turns[k]) {
        WalkSplit(w, done, turns, k + 1, s, j);
      } else if Placed(w, turns[k], 0, |Flat(s.written)|, s.disk).0 != [] {
        WalkSplit(w, done, turns, k + 1, Writes(w, turns[k], s), j);
      }
    }
  }

  /** What a run writes of a turn that it cuts short. */
  lemma {:induction false} CutIsWritten(w: World, turns: seq<Turn>, shelf: Shelf, j: nat) returns (k: nat)
    requires j < |turns| && CutAt(w, turns, shelf, j)
    ensures var r := Whole(w, turns, shelf);
            && |Entries(shelf)| <= k < |r.written| && r.written[k].at == turns[j].at
            && r.written[k].title == turns[j].title && 0 < |r.written[k].files| < |turns[j].clips|
  {
    hide Placed, Flat, Skips, Times;
    var done, start := Times(Entries(shelf)), Walked(Entries(shelf), 0, shelf.disk, None);
    var before := Whole(w, turns[..j], shelf);
    WalkSplit(w, done, turns, 0, start, j);
    WalkPrefix(w, done, turns[..j], 0, start);
    WalkPrefix(w, done, turns, j + 1, Writes(w, turns[j], before));
    k := |before.written|;
  }

  lemma {:induction false} InAudible(w: World, done: set<real>, turns: seq<Turn>, k: nat, j: nat) returns (i: nat)
    requires k <= j < |turns| && !Skips(w, done, turns[j])
    ensures i < |Audible(w, done, turns, k)| && Audible(w, done, turns, k)[i] == turns[j]
    decreases j - k
  {
    hide Skips;
    if k == j {
      i := 0;
    } else {
      i := InAudible(w, done, turns, k + 1, j);
      if !Skips(w, done, turns[k]) {
        i := i + 1;
      }
    }
  }

  /** The same names and the same clips with audio, and every clip can be placed. */
  ghost predicate Able(w: World, later: World) {
    later.safe == w.safe && later.device == w.device && forall c, n :: later.place(c, n)
  }

  /** Where it adds nothing, every name was there, and what can be placed makes no difference. */
  lemma {:induction false} PlacedLater(w: World, later: World, turn: Turn, i: nat, index: nat, disk: set<string>)
    requires i <= |turn.clips| && Able(w, later) && Placed(later, turn, i, index, disk).1 == 0
    ensures Placed(w, turn, i, index, disk) == Placed(later, turn, i, index, disk)
    ensures |Placed(w, turn, i, index, disk).0| == |turn.clips| - i
    decreases |turn.clips| - i
  {
    hide Said;
    if i < |turn.clips| {
      var name := TrackName(w, index + 1, Said(turn, i), turn.title);
      assert TrackName(later, index + 1, Said(turn, i), turn.title) == name;
      assert later.place(turn.clips[i], name);
      PlacedLater(w, later, turn, i + 1, index + 1, disk);
    }
  }

  /** Whoever can place everything adds something, where a turn was cut short and nothing was added. */
  lemma {:induction false} LaterAdds(w: World, later: World, done: set<real>, turns: seq<Turn>, k: nat, s: Walked,
                                     j: nat)
    requires k <= j < |turns| && Able(w, later) && s.stop.None?
    requires var before := Walk(w, done, turns[..j], k, s);
             && before.stop.None? && !Skips(w, done, turns[j])
             && |Placed(w, turns[j], 0, |Flat(before.written)|, before.disk).0| < |turns[j].clips|
    requires Walk(w, done, turns, k, s).added == s.added
    ensures Walk(later, done, turns, k, s).added > s.added
    decreases j - k
  {
    hide Placed, Flat, Numbered, SetOf;
    assert Skips(w, done, turns[k]) <==> Skips(later, done, turns[k]);
    var index := |Flat(s.written)|;
    var (files, added, _) := Placed(w, turns[k], 0, index, s.disk);
    if Skips(w, done, turns[k]) {
      LaterAdds(w, later, done, turns, k + 1, s, j);
    } else if Placed(later, turns[k], 0, index, s.disk).1 == 0 {
      PlacedLater(w, later, turns[k], 0, index, s.disk);
      LaterAdds(w, later, done, turns, k + 1, Writes(w, turns[k], s), j);
    } else {
      NoneIsNothing(later, turns[k], 0, index, s.disk);
      WalkKeeps(later, done, turns, k + 1, Writes(later, turns[k], s));
    }
  }

  lemma {:induction false} NoneIsNothing(w: World, turn: Turn, i: nat, index: nat, disk: set<string>)
    requires i <= |turn.clips|
    ensures Placed(w, turn, i, index, disk).0 == [] ==> Placed(w, turn, i, index, disk).1 == 0
  {
    hide TrackName, Said;
  }

  /**
    A turn cut short by a run that did not write its manifest is not lost: a run that can place
    everything, on the folder as it was left, writes it whole.
   */
  lemma {:induction false} CutIsMended(w: World, later: World, turns: seq<Turn>, shelf: Shelf, j: nat) returns (k: nat)
    requires j < |turns| && CutAt(w, turns, shelf, j) && !Saved(w, turns, shelf) && Able(w, later)
    ensures Export(w, turns, shelf) == (shelf, 0) && Saved(later, turns, shelf)
    ensures var after := Entries(Export(later, turns, shelf).0);
            && |Entries(shelf)| <= k < |after| && after[k].at == turns[j].at && after[k].title == turns[j].title
            && |after[k].files| == |turns[j].clips|
  {
    hide Placed, Flat, Times, Numbered, SetOf, Walk;
    var done, start := Times(Entries(shelf)), Walked(Entries(shelf), 0, shelf.disk, None);
    WalkKeeps(w, done, turns, 0, start);
    LaterAdds(w, later, done, turns, 0, start, j);
    AllAreWritten(later, done, turns, 0, start);
    var i := InAudible(later, done, turns, 0, j);
    k := |Entries(shelf)| + i;
  }

  lemma {:induction false} FromIsFresh(shelf: Shelf, runs: seq<Session>, n: nat, k: nat)
    requires n <= |runs| && shelf.manifest.Some?
    ensures ManifestFrom(shelf.manifest, runs, n).Some?
    ensures var m := ManifestFrom(shelf.manifest, runs, n).value;
            Entries(shelf) <= m && (|Entries(shelf)| <= k < |m| ==> m[k].at !in Times(Entries(shelf)))
  {
    hide Export, Times;
    if n > 0 {
      FromIsFresh(shelf, runs, n - 1, k);
      var before, run := ManifestFrom(shelf.manifest, runs, n - 1).value, runs[n - 1];
      ExportKeeps(run.w, run.turns, Shelf(Some(before), run.disk));
      ExportIsFresh(run.w, run.turns, Shelf(Some(before), run.disk), k);
      TimesPrefix(Entries(shelf), before);
    }
  }

  lemma {:induction false} WrittenIsDone(entries: seq<Entry>, k: nat)
    requires k < |entries|
    ensures entries[k].at in Times(entries)
  {
  }

  /**
    A turn that a run cuts short has lost the rest for good, whatever runs follow, exactly when that
    run wrote its manifest; and it wrote it exactly when it placed something new or there was none.
   */
  lemma {:induction false} CutForGood(w: World, turns: seq<Turn>, shelf: Shelf, j: nat)
    requires j < |turns| && CutAt(w, turns, shelf, j)
    ensures NeverAgain(Export(w, turns, shelf).0, turns[j].at) <==> Saved(w, turns, shelf)
  {
    hide Placed, Flat, Times, Walk;
    var after, at := Export(w, turns, shelf).0, turns[j].at;
    if Saved(w, turns, shelf) {
      var k := CutIsWritten(w, turns, shelf, j);
      WrittenIsDone(Entries(after), k);
      forall runs: seq<Session>, n: nat, i: nat ensures !Appends(after, runs, n, i, at) {
        if n <= |runs| {
          FromIsFresh(after, runs, n, i);
        }
      }
    } else {
      var later := World(w.safe, w.device, (c, n) => true);
      var k := CutIsMended(w, later, turns, shelf, j);
      var run := Session(later, turns, shelf.disk);
      OneRun(shelf.manifest, run);
      assert Appends(after, [run], 1, k, at);
    }
  }

  lemma {:induction false} OneRun(manifest: Option<seq<Entry>>, run: Session)
    ensures ManifestFrom(manifest, [run], 1) == Export(run.w, run.turns, Shelf(manifest, run.disk)).0.manifest
  {
    hide Export;
    assert ManifestFrom(manifest, [run], 0) == manifest;
  }

  /** As after a run that was killed before it wrote its manifest: nothing is added, so nothing is written, yet. */
  lemma {:induction false} CutAndMended(later: World) returns (w: World, turns: seq<Turn>, shelf: Shelf)
    requires forall c, n :: later.place(c, n)
    requires !later.device("good") && !later.device("bad")
    ensures |turns| == 1 && turns[0].clips == ["good", "bad"] && w.safe == later.safe
    ensures var one, two := TrackName(w, 1, "", turns[0].title), TrackName(w, 2, "", turns[0].title);
            && shelf == Shelf(Some([]), {one}) && CutAt(w, turns, shelf, 0) && Export(w, turns, shelf) == (shelf, 0)
            && Export(later, turns, shelf).0.manifest == Some([Entry(turns[0].at, turns[0].title, [one, two])])
  {
    hide TrackName, Flat, Times;
    w := World(later.safe, later.device, (c, n) => c == "good");
    turns := [Turn(1.0, "a", ["good", "bad"], [])];
    var turn := turns[0];
    var one := SameName(w, later, 1, "", "a");
    var two := SameName(w, later, 2, "", "a");
    shelf := Shelf(Some([]), {one});
    OneEntry(Entry(1.0, "a", []));
    OtherNumberOtherName(w, 1, 2, "", "a", "", "a");
    assert turns[..0] == [];
    assert Placed(w, turn, 1, 1, {one}) == ([], 0, {one});
    assert [one] + [] == [one];
    assert Placed(w, turn, 0, 0, {one}) == ([one], 0, {one});
    assert Placed(later, turn, 2, 2, {one} + {two}) == ([], 0, {one} + {two});
    assert [two] + [] == [two] && [one] + [two] == [one, two];
    assert Placed(later, turn, 1, 1, {one}) == ([two], 1, {one} + {two});
    assert Placed(later, turn, 0, 0, {one}) == ([one, two], 1, {one} + {two});
    assert !Skips(w, {}, turn) && !Skips(later, {}, turn);
    assert [] + [Entry(1.0, "a", [one, two])] == [Entry(1.0, "a", [one, two])];
    assert Whole(w, turns, shelf).added == 0 && Whole(w, turns, shelf).disk == {one};
    assert Whole(later, turns, shelf) == Walked([Entry(1.0, "a", [one, two])], 1, {one} + {two}, None);
  }

  lemma {:induction false} SameName(w: World, later: World, n: nat, said: string, title: string) returns (name: string)
    requires w.safe == later.safe
    ensures name == TrackName(w, n, said, title) == TrackName(later, n, said, title)
  {
    name := TrackName(w, n, said, title);
  }

  // ---------------------------------------------------------------- the same run again

  lemma {:induction false} SkipsMore(w: World, done: set<real>, all: set<real>, turn: Turn)
    requires done <= all
    ensures Skips(w, all, turn) <==> Skips(w, done, turn) || turn.at in all
  {
  }

  lemma {:induction false} TimesPrefix(a: seq<Entry>, b: seq<Entry>)
    requires a <= b
    ensures Times(a) <= Times(b)
  {
    forall x | x in Times(a) ensures x in Times(b) {
      var k :| 0 <= k < |a| && a[k].at == x;
      assert b[k].at == x;
    }
  }

  /**
    Walking the turns again from what a walk left: everything up to where it stopped is skipped, and
    there it stops again, unless that turn has since been written under the same time.
   */
  lemma {:induction false} WalkAgain(w: World, done: set<real>, turns: seq<Turn>, k: nat, s: Walked, again: Walked)
    requires k <= |turns| && s.stop.None?
    requires var r := Walk(w, done, turns, k, s); again == Walked(r.written, 0, r.disk, None)
    requires done <= Times(again.written)
    ensures var r, all := Walk(w, done, turns, k, s), Times(again.written);
            Walk(w, all, turns, k, again) ==
               match r.stop
               case None => again
               case Some(j) => if turns[j].at in all then Walk(w, all, turns, j + 1, again) else again.(stop := Some(j))
    decreases |turns| - k
  {
    hide Times, Placed, Skips, Flat;
    if k < |turns| {
      var all := Times(again.written);
      SkipsMore(w, done, all, turns[k]);
      if Skips(w, done, turns[k]) {
        WalkAgain(w, done, turns, k + 1, s, again);
      } else if Placed(w, turns[k], 0, |Flat(s.written)|, s.disk).0 != [] {
        var t := Writes(w, turns[k], s);
        WalkAgain(w, done, turns, k + 1, t, again);
        WalkKeeps(w, done, turns, k + 1, t);
        WrittenTime(s.written, t.written[|s.written|]);
        TimesPrefix(t.written, again.written);
      }
    }
  }

  lemma {:induction false} WrittenTime(entries: seq<Entry>, e: Entry)
    ensures e.at in Times(entries + [e])
  {
    assert (entries + [e])[|entries|] == e;
  }

  /** A run that wrote no manifest can be run again for ever. */
  lemma {:induction false} SecondRunUnwritten(w: World, turns: seq<Turn>, shelf: Shelf)
    requires shelf.manifest.Some? && Export(w, turns, shelf).1 == 0
    ensures Export(w, turns, Export(w, turns, shelf).0) == (Export(w, turns, shelf).0, 0)
  {
    hide Times, Placed, Numbered, SetOf;
    WalkKeeps(w, Times(Entries(shelf)), turns, 0, Walked(Entries(shelf), 0, shelf.disk, None));
    assert Export(w, turns, shelf).0 == shelf;
  }

  /**
    One that wrote it leaves nothing to do, unless the turn it stopped at has the time of one that
    is written: then the next run takes it for done and goes on behind it.
   */
  lemma {:induction false} SecondRun(w: World, turns: seq<Turn>, shelf: Shelf)
    requires shelf.manifest.None? || Export(w, turns, shelf).1 > 0
    ensures var r, after := Whole(w, turns, shelf), Export(w, turns, shelf).0;
            && after == Shelf(Some(r.written), r.disk)
            && Whole(w, turns, after) ==
               if r.stop.Some? && turns[r.stop.value].at in Times(r.written)
               then Walk(w, Times(r.written), turns, r.stop.value + 1, Walked(r.written, 0, r.disk, None))
               else Walked(r.written, 0, r.disk, r.stop)
  {
    hide Times, Placed, Numbered, SetOf;
    var start, r := Walked(Entries(shelf), 0, shelf.disk, None), Whole(w, turns, shelf);
    WalkKeeps(w, Times(Entries(shelf)), turns, 0, start);
    TimesPrefix(Entries(shelf), r.written);
    WalkAgain(w, Times(Entries(shelf)), turns, 0, start, Walked(r.written, 0, r.disk, None));
  }

  /** Turn j has audio to write, and its first clip will not go under the number that follows the turns before it. */
  ghost predicate StopsAt(w: World, turns: seq<Turn>, shelf: Shelf, j: nat)
    requires j < |turns|
  {
    var before := Whole(w, turns[..j], shelf);
    && before.stop.None? && !Skips(w, Times(Entries(shelf)), turns[j])
    && !Goes(w, turns[j], 0, |Flat(before.written)|, 0, before.disk)
  }

  /** An earlier turn has audio to write and the same time. */
  ghost predicate HasTwin(w: World, done: set<real>, turns: seq<Turn>, j: nat)
    requires j < |turns|
  {
    exists i :: 0 <= i < j && !Skips(w, done, turns[i]) && turns[i].at == turns[j].at
  }

  lemma {:induction false} FirstWillNotGo(w: World, turn: Turn, index: nat, disk: set<string>)
    requires turn.clips != []
    ensures Placed(w, turn, 0, index, disk).0 == [] <==> !Goes(w, turn, 0, index, 0, disk)
  {
    hide TrackName, Said;
  }

  lemma {:induction false} WalkStops(w: World, done: set<real>, turns: seq<Turn>, k: nat, s: Walked, j: nat)
    requires k <= j < |turns| && s.stop.None?
    ensures var before := Walk(w, done, turns[..j], k, s);
            Walk(w, done, turns, k, s).stop == Some(j) <==>
            before.stop.None? && !Skips(w, done, turns[j])
            && Placed(w, turns[j], 0, |Flat(before.written)|, before.disk).0 == []
    decreases j - k
  {
    hide Placed, Flat, Skips;
    if k < j {
      if Skips(w, done, turns[k]) {
        WalkStops(w, done, turns, k + 1, s, j);
      } else if Placed(w, turns[k], 0, |Flat(s.written)|, s.disk).0 != [] {
        WalkStops(w, done, turns, k + 1, Writes(w, turns[k], s), j);
      }
    }
  }

  /** A run that stops at turn j has written every turn before that had anything to write, and no other. */
  lemma {:induction false} WalkTimes(w: World, done: set<real>, turns: seq<Turn>, k: nat, s: Walked, j: nat, x: real)
    requires k <= |turns| && s.stop.None? && Walk(w, done, turns, k, s).stop == Some(j)
    ensures x in Times(Walk(w, done, turns, k, s).written) <==>
            x in Times(s.written) || exists i: nat :: k <= i < j && !Skips(w, done, turns[i]) && turns[i].at == x
    decreases |turns| - k
  {
    hide Placed, Flat, Skips, Times;
    if k < |turns| {
      if Skips(w, done, turns[k]) {
        WalkTimes(w, done, turns, k + 1, s, j, x);
      } else if Placed(w, turns[k], 0, |Flat(s.written)|, s.disk).0 != [] {
        var t := Writes(w, turns[k], s);
        WalkTimes(w, done, turns, k + 1, t, j, x);
        TimesPush(s.written, t.written[|s.written|]);
      }
    }
  }

  /**
    The second run by its turns: it changes nothing, unless the turn whose first clip will not go has
    the time of an earlier one; then it goes on behind that turn, and does what is to do there.
   */
  lemma {:induction false} SecondRunByTurns(w: World, turns: seq<Turn>, shelf: Shelf, j: nat)
    requires shelf.manifest.None? || Export(w, turns, shelf).1 > 0
    ensures var done, after := Times(Entries(shelf)), Export(w, turns, shelf).0;
            && (j < |turns| && StopsAt(w, turns, shelf, j) && HasTwin(w, done, turns, j) ==>
                  Whole(w, turns, after)
                  == Walk(w, Times(Entries(after)), turns, j + 1, Walked(Entries(after), 0, after.disk, None)))
            && ((forall i: nat :: i < |turns| && StopsAt(w, turns, shelf, i) ==> !HasTwin(w, done, turns, i)) ==>
                  Export(w, turns, after) == (after, 0))
  {
    hide Times, Walk, Placed, Goes, Flat;
    var done, start, r := Times(Entries(shelf)), Walked(Entries(shelf), 0, shelf.disk, None), Whole(w, turns, shelf);
    SecondRun(w, turns, shelf);
    if j < |turns| && StopsAt(w, turns, shelf, j) {
      StopIs(w, turns, shelf, j);
      WalkTimes(w, done, turns, 0, start, j, turns[j].at);
    }
    if r.stop.Some? {
      var i := r.stop.value;
      StopIs(w, turns, shelf, i);
      WalkTimes(w, done, turns, 0, start, i, turns[i].at);
      assert StopsAt(w, turns, shelf, i);
    }
  }

  lemma {:induction false} StopIs(w: World, turns: seq<Turn>, shelf: Shelf, j: nat)
    requires j < |turns|
    ensures Whole(w, turns, shelf).stop == Some(j) <==> StopsAt(w, turns, shelf, j)
  {
    hide Walk, Placed, Goes, Flat, Times;
    var done, start := Times(Entries(shelf)), Walked(Entries(shelf), 0, shelf.disk, None);
    WalkStops(w, done, turns, 0, start, j);
    if !Skips(w, done, turns[j]) {
      var before := Whole(w, turns[..j], shelf);
      FirstWillNotGo(w, turns[j], |Flat(before.written)|, before.disk);
    }
  }

  /** Clip k is the first that is not in the folder, and can be put there. */
  ghost predicate IsNew(w: World, turn: Turn, i: nat, index: nat, k: nat, disk: set<string>)
    requires i <= k < |turn.clips|
  {
    && (forall l: nat :: i <= l < k ==> NameOf(w, turn, i, index, l) in disk)
    && NameOf(w, turn, i, index, k) !in disk && w.place(turn.clips[k], NameOf(w, turn, i, index, k))
  }

  ghost predicate PutsNew(w: World, turn: Turn, i: nat, index: nat, disk: set<string>) {
    exists k: nat :: i <= k < |turn.clips| && IsNew(w, turn, i, index, k, disk)
  }

  /** A turn adds something exactly when its first clip not in the folder can be placed. */
  lemma {:induction false} PlacesNew(w: World, turn: Turn, i: nat, index: nat, disk: set<string>)
    requires i <= |turn.clips|
    ensures Placed(w, turn, i, index, disk).1 > 0 <==> PutsNew(w, turn, i, index, disk)
    decreases |turn.clips| - i
  {
    hide TrackName, Said;
    if i < |turn.clips| {
      var name, next, at := NameOf(w, turn, i, index, i), i + 1, index + 1;
      if name in disk {
        PlacesNew(w, turn, next, at, disk);
        NewBehind(w, turn, i, index, disk);
      } else if w.place(turn.clips[i], name) {
        assert IsNew(w, turn, i, index, i, disk);
      } else if k: nat :| i <= k < |turn.clips| && IsNew(w, turn, i, index, k, disk) {
        assert false;
      }
    }
  }

  lemma {:induction false} NewBehind(w: World, turn: Turn, i: nat, index: nat, disk: set<string>)
    requires i < |turn.clips| && NameOf(w, turn, i, index, i) in disk
    ensures PutsNew(w, turn, i, index, disk) <==> PutsNew(w, turn, i + 1, index + 1, disk)
  {
    hide TrackName, Said;
    var next, at := i + 1, index + 1;
    forall k: nat | next <= k < |turn.clips|
      ensures IsNew(w, turn, i, index, k, disk) <==> IsNew(w, turn, next, at, k, disk)
    {
      forall l: nat | next <= l <= k ensures NameOf(w, turn, i, index, l) == NameOf(w, turn, next, at, l) {
      }
    }
  }

  /** Turn m is reached from k on, has audio to write, and something of it is new. */
  ghost predicate AddsAt(w: World, done: set<real>, turns: seq<Turn>, k: nat, s: Walked, m: nat)
    requires k <= m < |turns|
  {
    var before := Walk(w, done, turns[..m], k, s);
    && before.stop.None? && !Skips(w, done, turns[m])
    && PutsNew(w, turns[m], 0, |Flat(before.written)|, before.disk)
  }

  ghost predicate AddsFrom(w: World, done: set<real>, turns: seq<Turn>, k: nat, s: Walked) {
    exists m: nat :: k <= m < |turns| && AddsAt(w, done, turns, k, s, m)
  }

  lemma {:induction false} WalkAdds(w: World, done: set<real>, turns: seq<Turn>, k: nat, s: Walked)
    requires k <= |turns| && s.stop.None?
    ensures Walk(w, done, turns, k, s).added > s.added <==> AddsFrom(w, done, turns, k, s)
    decreases |turns| - k
  {
    hide Placed, Flat, Skips, PutsNew, Numbered, SetOf, AddsAt;
    if k < |turns| {
      var next, t := k + 1, Writes(w, turns[k], s);
      AddsHere(w, done, turns, k, s);
      AddsBehind(w, done, turns, k, s);
      if Skips(w, done, turns[k]) {
        WalkAdds(w, done, turns, next, s);
      } else if Placed(w, turns[k], 0, |Flat(s.written)|, s.disk).0 != [] {
        WalkAdds(w, done, turns, next, t);
        WalkKeeps(w, done, turns, next, t);
      }
    }
  }

  lemma {:induction false} AddsHere(w: World, done: set<real>, turns: seq<Turn>, k: nat, s: Walked)
    requires k < |turns| && s.stop.None?
    ensures AddsAt(w, done, turns, k, s, k)
            <==> !Skips(w, done, turns[k]) && Placed(w, turns[k], 0, |Flat(s.written)|, s.disk).1 > 0
    ensures Placed(w, turns[k], 0, |Flat(s.written)|, s.disk).0 == []
            ==> Placed(w, turns[k], 0, |Flat(s.written)|, s.disk).1 == 0
  {
    hide Placed, Flat, Skips, PutsNew;
    assert Walk(w, done, turns[..k], k, s) == s;
    PlacesNew(w, turns[k], 0, |Flat(s.written)|, s.disk);
    NoneIsNothing(w, turns[k], 0, |Flat(s.written)|, s.disk);
  }

  lemma {:induction false} AddsBehind(w: World, done: set<real>, turns: seq<Turn>, k: nat, s: Walked)
    requires k < |turns| && s.stop.None?
    ensures AddsFrom(w, done, turns, k, s) <==>
            AddsAt(w, done, turns, k, s, k)
            || (if Skips(w, done, turns[k]) then AddsFrom(w, done, turns, k + 1, s)
                else Placed(w, turns[k], 0, |Flat(s.written)|, s.disk).0 != []
                     && AddsFrom(w, done, turns, k + 1, Writes(w, turns[k], s)))
  {
    hide Placed, Flat, Skips, PutsNew;
    var next := k + 1;
    var t := if Skips(w, done, turns[k]) then s else Writes(w, turns[k], s);
    var on := Skips(w, done, turns[k]) || Placed(w, turns[k], 0, |Flat(s.written)|, s.disk).0 != [];
    forall m: nat | next <= m < |turns|
      ensures AddsAt(w, done, turns, k, s, m) <==> on && AddsAt(w, done, turns, next, t, m)
    {
      assert turns[..m][k] == turns[k];
    }
    if m: nat :| k <= m < |turns| && AddsAt(w, done, turns, k, s, m) {
      assert m > k ==> AddsAt(w, done, turns, next, t, m);
    }
  }

  /** The second run takes turn j for written, goes on behind it, and places something there. */
  ghost predicate GoesOnBehind(w: World, turns: seq<Turn>, shelf: Shelf, j: nat)
    requires j < |turns|
  {
    var after := Export(w, turns, shelf).0;
    && StopsAt(w, turns, shelf, j) && HasTwin(w, Times(Entries(shelf)), turns, j)
    && AddsFrom(w, Times(Entries(after)), turns, j + 1, Walked(Entries(after), 0, after.disk, None))
  }

  /**
    A second run at once changes something exactly when the first wrote its manifest and some turn
    whose first clip would not go has the time of an earlier one, and behind it a turn that is
    reached has a clip that is the first not in the folder and can be placed.
   */
  lemma {:induction false} SecondRunExactly(w: World, turns: seq<Turn>, shelf: Shelf)
    ensures var after := Export(w, turns, shelf).0;
            Export(w, turns, after) == (after, 0) <==>
            !(Saved(w, turns, shelf) && exists j: nat :: j < |turns| && GoesOnBehind(w, turns, shelf, j))
  {
    hide Times, Walk, Placed, Flat, StopsAt, HasTwin, AddsFrom, Export;
    if !Saved(w, turns, shelf) {
      SecondRunUnwritten(w, turns, shelf);
    } else {
      forall j: nat | j < |turns| && StopsAt(w, turns, shelf, j) && HasTwin(w, Times(Entries(shelf)), turns, j)
        ensures GoesOnBehind(w, turns, shelf, j) <==> !SecondRunIdle(w, turns, shelf)
      {
        IdleBehind(w, turns, shelf, j);
      }
      SecondRunByTurns(w, turns, shelf, 0);
    }
  }

  ghost predicate SecondRunIdle(w: World, turns: seq<Turn>, shelf: Shelf) {
    var after := Export(w, turns, shelf).0; Export(w, turns, after) == (after, 0)
  }

  lemma {:induction false} IdleBehind(w: World, turns: seq<Turn>, shelf: Shelf, j: nat)
    requires Saved(w, turns, shelf) && j < |turns| && StopsAt(w, turns, shelf, j)
    requires HasTwin(w, Times(Entries(shelf)), turns, j)
    ensures GoesOnBehind(w, turns, shelf, j) <==> !SecondRunIdle(w, turns, shelf)
  {
    hide Times, Walk, Placed, Flat, StopsAt, HasTwin, AddsFrom, Numbered, SetOf;
    var after := Export(w, turns, shelf).0;
    var done, s := Times(Entries(after)), Walked(Entries(after), 0, after.disk, None);
    SecondRunByTurns(w, turns, shelf, j);
    WalkAdds(w, done, turns, j + 1, s);
    WalkKeeps(w, done, turns, j + 1, s);
  }

  ghost predicate DistinctTimes(turns: seq<Turn>) {
    forall i, j :: 0 <= i < j < |turns| ==> turns[i].at != turns[j].at
  }

  lemma {:induction false} TimesPush(entries: seq<Entry>, e: Entry)
    ensures Times(entries + [e]) == Times(entries) + {e.at}
  {
    var all := entries + [e];
    assert all[|entries|] == e;
    forall x | x in Times(entries) ensures x in Times(all) {
      var k :| 0 <= k < |entries| && entries[k].at == x;
      assert all[k].at == x;
    }
  }

  /** A turn that stops the run has not been written under another one's time. */
  lemma {:induction false} StopIsNotWritten(w: World, done: set<real>, turns: seq<Turn>, k: nat, s: Walked)
    requires k <= |turns| && s.stop.None? && DistinctTimes(turns)
    requires forall i :: k <= i < |turns| && turns[i].at in Times(s.written) ==> turns[i].at in done
    ensures var r := Walk(w, done, turns, k, s); r.stop.Some? ==> turns[r.stop.value].at !in Times(r.written)
    decreases |turns| - k
  {
    hide Times, Placed, Device;
    if k < |turns| {
      if Skips(w, done, turns[k]) {
        StopIsNotWritten(w, done, turns, k + 1, s);
      } else if Placed(w, turns[k], 0, |Flat(s.written)|, s.disk).0 != [] {
        var t := Writes(w, turns[k], s);
        TimesPush(s.written, t.written[|s.written|]);
        StopIsNotWritten(w, done, turns, k + 1, t);
      }
    }
  }

  /** When no two turns have the same time, running again at once changes nothing and adds nothing. */
  lemma {:induction false} SecondRunAddsNothing(w: World, turns: seq<Turn>, shelf: Shelf)
    requires DistinctTimes(turns)
    ensures var after := Export(w, turns, shelf).0; Export(w, turns, after) == (after, 0)
  {
    hide Times, Walk;
    if shelf.manifest.Some? && Export(w, turns, shelf).1 == 0 {
      SecondRunUnwritten(w, turns, shelf);
    } else {
      SecondRun(w, turns, shelf);
      StopIsNotWritten(w, Times(Entries(shelf)), turns, 0, Walked(Entries(shelf), 0, shelf.disk, None));
    }
  }

  lemma {:induction false} OneEntry(e: Entry)
    ensures [] + [e] == [e] && Times([]) == {} && Times([e]) == {e.at}
    ensures Flat([]) == [] && Flat([e]) == e.files
  {
    FlatPush([], e);
    TimesPush([], e);
    assert [] + [e] == [e] && [] + e.files == e.files;
  }

  /** A turn of one clip that goes, and one of one clip that does not. */
  lemma {:induction false} OneClip(w: World, turn: Turn, index: nat, disk: set<string>)
    requires |turn.clips| == 1 && turn.sentences == []
    ensures var name := TrackName(w, index + 1, "", turn.title);
            name !in disk ==>
              Placed(w, turn, 0, index, disk)
              == if w.place(turn.clips[0], name) then ([name], 1, disk + {name}) else ([], 0, disk)
  {
    hide TrackName;
    var name := TrackName(w, index + 1, "", turn.title);
    assert Placed(w, turn, 1, index + 1, disk + {name}) == ([], 0, disk + {name});
    assert [name] + [] == [name];
  }

  /**
    With two turns of one time it may add: the second stops the first run, is taken for written by
    the next, and what comes after it goes.
   */
  lemma {:induction false} SecondRunAdds() returns (w: World, turns: seq<Turn>)
    ensures |turns| == 3 && turns[0].at == turns[1].at
    ensures Export(w, turns, Export(w, turns, Shelf(None, {})).0).1 == 1
  {
    w := World(t => t, c => false, (c, n) => c == "good");
    turns := [Turn(1.0, "a", ["good"], []), Turn(1.0, "b", ["bad"], []), Turn(2.0, "c", ["good"], [])];
    hide TrackName, Placed, Flat, Times;
    var one := TrackName(w, 1, "", "a");
    OneClip(w, turns[0], 0, {});
    OneClip(w, turns[1], 1, {one});
    OneClip(w, turns[2], 1, {one});
    OtherNumberOtherName(w, 1, 2, "", "a", "", "b");
    OtherNumberOtherName(w, 1, 2, "", "a", "", "c");
    var e := Entry(1.0, "a", [one]);
    OneEntry(e);
    assert {} + {one} == {one};
    var first := Walked([e], 1, {one}, None);
    assert Walk(w, {}, turns, 1, first) == first.(stop := Some(1));
    assert Whole(w, turns, Shelf(None, {})) == first.(stop := Some(1));
    var again := Walked([e], 0, {one}, None);
    assert Walk(w, {1.0}, turns, 2, again).added == 1;
  }

  // ---------------------------------------------------------------- the order names sort in

  /** The order of strings by their characters. */
  predicate Before(a: string, b: string) {
    if b == [] then false
    else if a == [] then true
    else if a[0] != b[0] then a[0] < b[0]
    else Before(a[1..], b[1..])
  }

  lemma {:induction false} BeforeCommon(p: string, x: string, y: string)
    ensures Before(p + x, p + y) == Before(x, y)
  {
    if p == [] {
      assert p + x == x && p + y == y;
    } else {
      BeforeCommon(p[1..], x, y);
      assert (p + x)[1..] == p[1..] + x && (p + y)[1..] == p[1..] + y;
    }
  }

  /** Numbers of the same width sort as numbers. */
  lemma {:induction false} FixedSorts(m: nat, n: nat, k: nat, x: string, y: string)
    requires m < n < Pow10(k)
    ensures Before(Fixed(m, k) + x, Fixed(n, k) + y)
    decreases k
  {
    var a, b := Fixed(m / 10, k - 1), Fixed(n / 10, k - 1);
    var x', y' := [Digit(m % 10)] + x, [Digit(n % 10)] + y;
    assert Fixed(m, k) + x == a + x' && Fixed(n, k) + y == b + y';
    if m / 10 < n / 10 {
      FixedSorts(m / 10, n / 10, k - 1, x', y');
    } else {
      BeforeCommon(a, x', y');
    }
  }

  /** Up to 9999 tracks sort in the order they play; from 10000 on they do not. */
  lemma {:induction false} SortsUpTo9999(files: seq<string>)
    requires Numbered(files)
    ensures (forall i, j :: 0 <= i < j < |files| ==> Before(files[i], files[j])) <==> |files| <= 9999
  {
    if |files| <= 9999 {
      forall i, j | 0 <= i < j < |files| ensures Before(files[i], files[j]) {
        NamesSort(i + 1, j + 1, files[i], files[j]);
      }
    } else {
      TenThousandIsFirst(files[9998], files[9999]);
    }
  }

  lemma {:induction false} PaddedShort(n: nat)
    requires n <= 9999
    ensures Padded(n) == Fixed(n, 4)
  {
    hide Fixed;
  }

  lemma {:induction false} NamesSort(m: nat, n: nat, a: string, b: string)
    requires Named(m, a) && Named(n, b) && m < n <= 9999
    ensures Before(a, b)
  {
    hide Fixed, Before, Padded;
    var x :| a == Padded(m) + DASH + x;
    var y :| b == Padded(n) + DASH + y;
    TenThousand();
    PaddedShort(m);
    PaddedShort(n);
    FixedSorts(m, n, 4, DASH + x, DASH + y);
    assert a == Fixed(m, 4) + (DASH + x) && b == Fixed(n, 4) + (DASH + y);
  }

  lemma {:induction false} TenThousandIsFirst(a: string, b: string)
    requires Named(9999, a) && Named(10000, b)
    ensures !Before(a, b)
  {
    var x :| a == Padded(9999) + DASH + x;
    var y :| b == Padded(10000) + DASH + y;
    assert Fixed(99, 2) == "99";
    assert Fixed(9999, 4)[0] == '9';
    assert Decimal(100) == "100";
    assert Decimal(10000)[0] == '1';
  }
}
