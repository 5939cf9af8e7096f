/**
 The start of a stream: records on disk above a floor go out oldest first, up to a cut in the
 newest file from which live reads take over.
 */
module Backfill {
  import opened Types
  import opened Lines

  const MAX_BACKFILL_FILES: nat := 4

  /** A file, the block height found near its head, and whether it can be opened to be read. */
  datatype File = File(content: Text, head: Option<nat>, opens: bool)

  /** Above the floor, or of unknown height. */
  predicate Relevant(fmt: Format, floor: nat, record: Text) {
    fmt.height(record).None? || fmt.height(record).value > floor
  }

  function Keep(fmt: Format, floor: nat, records: seq<Text>): seq<Text> {
    if records == [] then []
    else (if Relevant(fmt, floor, records[0]) then [records[0]] else []) + Keep(fmt, floor, records[1..])
  }

  /** The records of a text above the floor. */
  function Due(fmt: Format, floor: nat, s: Text): seq<Text> {
    Keep(fmt, floor, Records(fmt, Whole(s)))
  }

  // ----- reading one file -----

  /** Lines emitted, and the position reached. */
  datatype Progress = Progress(lines: seq<Text>, pos: nat)

  /** The read loop ends at a damaged encoding, at the limit, and at an unterminated tail. */
  predicate Stops(fmt: Format, segment: Text, limit: Option<nat>, pos: nat) {
    fmt.kind(segment).NotUtf8? || (limit.Some? && pos + |segment| > limit.value) || !Terminated(segment)
  }

  /** The read loop, line by line. */
  function ReadOn(fmt: Format, floor: nat, s: Text, limit: Option<nat>, p: Progress): Progress
    decreases |s|
  {
    if s == [] then p
    else
      var n := FirstLen(s);
      if Stops(fmt, s[..n], limit, p.pos) then p
      else
        var kind := fmt.kind(s[..n]);
        var lines := if kind.Line? && Relevant(fmt, floor, kind.text) then p.lines + [kind.text] else p.lines;
        ReadOn(fmt, floor, s[n..], limit, Progress(lines, p.pos + n))
  }

  function ReadFile(fmt: Format, floor: nat, s: Text, limit: Option<nat>): Progress {
    ReadOn(fmt, floor, s, limit, Progress([], 0))
  }

  // ----- the walk over files, newest first -----

  predicate GoesOn(f: File, floor: nat) {
    f.head.Some? && f.head.value > floor
  }

  /** How many files are read, and whether the walk was cut short by the limit on files. */
  function Walk(fs: seq<File>, floor: nat, n: nat): (nat, bool)
    decreases |fs|
  {
    if fs == [] then (n, false)
    else if n >= MAX_BACKFILL_FILES then (n, true)
    else if GoesOn(fs[0], floor) then Walk(fs[1..], floor, n + 1)
    else (n + 1, false)
  }

  /** What an older file yields; one that cannot be opened yields nothing. */
  function ReadOld(fmt: Format, floor: nat, f: File): seq<Text> {
    if f.opens then ReadFile(fmt, floor, f.content, None).lines else []
  }

  /** Records of whole files, oldest file first. */
  function ReadOlder(fmt: Format, floor: nat, fs: seq<File>): seq<Text> {
    if fs == [] then [] else ReadOlder(fmt, floor, fs[1..]) + ReadOld(fmt, floor, fs[0])
  }

  /** Everything due in these files, oldest file first. */
  function DueOlder(fmt: Format, floor: nat, fs: seq<File>): seq<Text> {
    if fs == [] then [] else DueOlder(fmt, floor, fs[1..]) + Due(fmt, floor, fs[0].content)
  }

  // ----- what reading a file yields -----

  lemma {:induction false} KeepConcat(fmt: Format, floor: nat, a: seq<Text>, b: seq<Text>)
    ensures Keep(fmt, floor, a + b) == Keep(fmt, floor, a) + Keep(fmt, floor, b)
  {
    if a == [] {
      assert a + b == b;
    } else {
      assert (a + b)[1..] == a[1..] + b && (a + b)[0] == a[0];
      KeepConcat(fmt, floor, a[1..], b);
    }
  }

  /** What one terminated segment is worth. */
  function DueOne(fmt: Format, floor: nat, segment: Text): seq<Text> {
    var kind := fmt.kind(segment);
    if kind.Line? && Relevant(fmt, floor, kind.text) then [kind.text] else []
  }

  lemma DueOfLine(fmt: Format, floor: nat, line: Text, rest: Text)
    requires IsLine(line)
    ensures Due(fmt, floor, line + rest) == DueOne(fmt, floor, line) + Due(fmt, floor, rest)
  {
    LineComesOff(line, rest);
    var first := if fmt.kind(line).Line? then [fmt.kind(line).text] else [];
    assert ([line] + Whole(rest))[1..] == Whole(rest);
    assert Records(fmt, [line] + Whole(rest)) == first + Records(fmt, Whole(rest));
    KeepConcat(fmt, floor, first, Records(fmt, Whole(rest)));
    assert Keep(fmt, floor, first) == DueOne(fmt, floor, line);
  }

  lemma ReadOnLine(fmt: Format, floor: nat, line: Text, rest: Text, limit: Option<nat>, p: Progress)
    requires IsLine(line)
    ensures ReadOn(fmt, floor, line + rest, limit, p)
         == if Stops(fmt, line, limit, p.pos) then p
            else ReadOn(fmt, floor, rest, limit, Progress(p.lines + DueOne(fmt, floor, line), p.pos + |line|))
  {
    LineComesOff(line, rest);
    assert p.lines + [] == p.lines;
  }

  /** Whole lines in front can be judged on their own. */
  lemma DueConcat(fmt: Format, floor: nat, a: Text, b: Text)
    requires Tail(a) == []
    ensures Due(fmt, floor, a + b) == Due(fmt, floor, a) + Due(fmt, floor, b)
  {
    SplitExtends(a, b);
    assert [] + b == b;
    RecordsConcat(fmt, Whole(a), Whole(b));
    KeepConcat(fmt, floor, Records(fmt, Whole(a)), Records(fmt, Whole(b)));
  }

  /** Of `s` the whole lines `done` were read, and exactly what is due in them was emitted. */
  ghost predicate ReadTo(fmt: Format, floor: nat, s: Text, p: Progress, p': Progress, done: Text, left: Text) {
    && s == done + left
    && Tail(done) == []
    && p'.pos == p.pos + |done|
    && p'.lines == p.lines + Due(fmt, floor, done)
  }

  lemma ReadToLine(
    fmt: Format, floor: nat, s: Text, line: Text, rest: Text, p: Progress, p1: Progress, p': Progress, done: Text, left: Text)
    requires IsLine(line) && p1 == Progress(p.lines + DueOne(fmt, floor, line), p.pos + |line|)
    requires s == line + rest && ReadTo(fmt, floor, rest, p1, p', done, left)
    ensures ReadTo(fmt, floor, s, p, p', line + done, left)
  {
    DueOfLine(fmt, floor, line, done);
    LineComesOff(line, done);
    Regroup(line, done, left);
    Regroup(p.lines, DueOne(fmt, floor, line), Due(fmt, floor, done));
  }

  /** What the loop leaves unread: from the first line on that stops it. */
  function Unread(fmt: Format, s: Text, limit: Option<nat>, pos: nat): Text
    decreases |s|
  {
    if s == [] || Stops(fmt, s[..FirstLen(s)], limit, pos) then s
    else Unread(fmt, s[FirstLen(s)..], limit, pos + FirstLen(s))
  }

  /** The loop stops at a line boundary, having emitted exactly what is due before it. */
  lemma {:induction false} ReadOnIsDue(fmt: Format, floor: nat, s: Text, limit: Option<nat>, p: Progress)
    returns (done: Text, left: Text, p': Progress)
    ensures p' == ReadOn(fmt, floor, s, limit, p) && left == Unread(fmt, s, limit, p.pos)
    ensures ReadTo(fmt, floor, s, p, p', done, left)
    ensures limit.Some? && done != [] ==> p'.pos <= limit.value
    decreases |s|
  {
    var stop, line, rest := FirstStep(fmt, floor, s, limit, p);
    if stop {
      done, left, p' := [], s, p;
      StopHere(fmt, floor, s, p);
    } else {
      var p1 := Progress(p.lines + DueOne(fmt, floor, line), p.pos + |line|);
      done, left, p' := ReadOnIsDue(fmt, floor, rest, limit, p1);
      assert left == Unread(fmt, rest, limit, p.pos + |line|);
      ReadToLine(fmt, floor, s, line, rest, p, p1, p', done, left);
      done := line + done;
    }
  }

  /** One turn of the loop: it ends here, or a line comes off. */
  lemma FirstStep(fmt: Format, floor: nat, s: Text, limit: Option<nat>, p: Progress)
    returns (stop: bool, line: Text, rest: Text)
    ensures stop ==> ReadOn(fmt, floor, s, limit, p) == p && Unread(fmt, s, limit, p.pos) == s
    ensures !stop ==> s == line + rest && IsLine(line) && !Stops(fmt, line, limit, p.pos)
    ensures !stop ==> ReadOn(fmt, floor, s, limit, p)
                      == ReadOn(fmt, floor, rest, limit, Progress(p.lines + DueOne(fmt, floor, line), p.pos + |line|))
    ensures !stop ==> Unread(fmt, s, limit, p.pos) == Unread(fmt, rest, limit, p.pos + |line|)
  {
    stop, line, rest := true, [], [];
    if s != [] && !Stops(fmt, s[..FirstLen(s)], limit, p.pos) {
      FirstIsLine(s);
      stop, line, rest := false, s[..FirstLen(s)], s[FirstLen(s)..];
      ReadOnLine(fmt, floor, line, rest, limit, p);
      UnreadOpens(fmt, s, FirstLen(s), limit, p.pos);
    }
  }

  lemma UnreadOpens(fmt: Format, s: Text, n: nat, limit: Option<nat>, pos: nat)
    requires s != [] && n == FirstLen(s) && !Stops(fmt, s[..n], limit, pos)
    ensures Unread(fmt, s, limit, pos) == Unread(fmt, s[n..], limit, pos + n)
  {
  }

  lemma StopHere(fmt: Format, floor: nat, s: Text, p: Progress)
    ensures ReadTo(fmt, floor, s, p, p, [], s)
  {
    assert [] + s == s && p.lines + [] == p.lines;
  }

  // ----- older files -----

  /** What is due in an older file but stands behind its first line that is not UTF-8, or in one that does not open. */
  function MissedIn(fmt: Format, floor: nat, f: File): seq<Text> {
    if f.opens then Due(fmt, floor, Unread(fmt, f.content, None, 0)) else Due(fmt, floor, f.content)
  }

  lemma ReadOldMisses(fmt: Format, floor: nat, f: File)
    ensures Due(fmt, floor, f.content) == ReadOld(fmt, floor, f) + MissedIn(fmt, floor, f)
  {
    if f.opens {
      var done, left, p := ReadOnIsDue(fmt, floor, f.content, None, Progress([], 0));
      DueConcat(fmt, floor, done, left);
      assert [] + Due(fmt, floor, done) == Due(fmt, floor, done);
    } else {
      assert [] + Due(fmt, floor, f.content) == Due(fmt, floor, f.content);
    }
  }

  /** What reading only the first `k` of these files misses. */
  function Missed(fmt: Format, floor: nat, fs: seq<File>, k: nat): seq<Text>
    requires k <= |fs|
    decreases |fs|
  {
    if k == 0 then DueOlder(fmt, floor, fs)
    else Missed(fmt, floor, fs[1..], k - 1) + MissedIn(fmt, floor, fs[0])
  }

  lemma NothingMissed<T>(a: seq<T>, am: seq<T>, ad: seq<T>, b: seq<T>, bm: seq<T>, bd: seq<T>)
    requires am == [] ==> a == ad
    requires bd == b + bm
    ensures am + bm == [] ==> a + b == ad + bd
  {
    if am + bm == [] {
      assert |am + bm| == 0;
      assert am == [] && bm == [];
      assert b + bm == b;
    }
  }

  lemma {:induction false} OlderMissed(fmt: Format, floor: nat, fs: seq<File>, k: nat)
    requires k <= |fs|
    ensures |ReadOlder(fmt, floor, fs[..k])| + |Missed(fmt, floor, fs, k)| == |DueOlder(fmt, floor, fs)|
    ensures Missed(fmt, floor, fs, k) == [] ==> ReadOlder(fmt, floor, fs[..k]) == DueOlder(fmt, floor, fs)
    decreases |fs|
  {
    if k > 0 {
      assert fs[..k][1..] == fs[1..][..k - 1];
      OlderMissed(fmt, floor, fs[1..], k - 1);
      ReadOldMisses(fmt, floor, fs[0]);
      NothingMissed(ReadOlder(fmt, floor, fs[1..][..k - 1]), Missed(fmt, floor, fs[1..], k - 1), DueOlder(fmt, floor, fs[1..]),
                    ReadOld(fmt, floor, fs[0]), MissedIn(fmt, floor, fs[0]), Due(fmt, floor, fs[0].content));
    }
  }

  /** Reading the first `k` files delivers all that is due in them all, in order, exactly when nothing is missed. */
  lemma OlderDeliveredIff(fmt: Format, floor: nat, fs: seq<File>, k: nat)
    requires k <= |fs|
    ensures ReadOlder(fmt, floor, fs[..k]) == DueOlder(fmt, floor, fs) <==> Missed(fmt, floor, fs, k) == []
  {
    OlderMissed(fmt, floor, fs, k);
  }

  // ----- the newest file and live tracking -----

  lemma {:induction false} KeepIsStable(fmt: Format, floor: nat, records: seq<Text>)
    ensures Keep(fmt, floor, Keep(fmt, floor, records)) == Keep(fmt, floor, records)
  {
    if records != [] {
      var first := if Relevant(fmt, floor, records[0]) then [records[0]] else [];
      KeepConcat(fmt, floor, first, Keep(fmt, floor, records[1..]));
      assert Keep(fmt, floor, first) == first;
      KeepIsStable(fmt, floor, records[1..]);
    }
  }

  /**
   The cut is exact: what the backfill of the newest file emits, then what live tracking reads
   from the cut on, is everything due in it, whatever was appended after the length was recorded.
   */
  lemma CutIsExact(fmt: Format, floor: nat, content: Text, recorded: nat, readLen: nat)
    requires recorded <= readLen <= |content|
    ensures var p := ReadFile(fmt, floor, content[..readLen], Some(recorded));
            && p.pos <= recorded
            && p.lines + Due(fmt, floor, content[p.pos..]) == Due(fmt, floor, content)
            && Keep(fmt, floor, p.lines) == p.lines
  {
    var s, more := content[..readLen], content[readLen..];
    var done, left, p := ReadOnIsDue(fmt, floor, s, Some(recorded), Progress([], 0));
    assert [] + Due(fmt, floor, done) == Due(fmt, floor, done);
    CutLeaves(content, readLen, done, left);
    DueConcat(fmt, floor, done, content[|done|..]);
    KeepIsStable(fmt, floor, Records(fmt, Whole(done)));
  }

  lemma CutLeaves(content: Text, readLen: nat, done: Text, left: Text)
    requires readLen <= |content| && content[..readLen] == done + left
    ensures |done| <= readLen && content == done + content[|done|..]
  {
    assert done == content[..|done|] by {
      forall i | 0 <= i < |done|
        ensures done[i] == content[i]
      {
        assert (done + left)[i] == content[..readLen][i];
      }
    }
  }

  /** Nothing is left, or its first line, at this position, is one that stops the loop. */
  ghost predicate StoppedAt(fmt: Format, left: Text, limit: Option<nat>, pos: nat) {
    left != [] ==>
      var line := left[..FirstLen(left)];
      fmt.kind(line).NotUtf8? || !Terminated(line) || (limit.Some? && pos + |line| > limit.value)
  }

  lemma SuffixOfSuffix(s: Text, n: nat, k: nat)
    requires n + k <= |s|
    ensures s[n..][|s| - n - k..] == s[|s| - k..]
  {
  }

  /** What is left unread begins with the line that stopped the loop, or is nothing. */
  lemma {:induction false} UnreadStops(fmt: Format, s: Text, limit: Option<nat>, pos: nat)
    ensures var left := Unread(fmt, s, limit, pos);
            |left| <= |s| && left == s[|s| - |left|..] && StoppedAt(fmt, left, limit, pos + (|s| - |left|))
    decreases |s|
  {
    if s != [] && !Stops(fmt, s[..FirstLen(s)], limit, pos) {
      var n := FirstLen(s);
      UnreadOpens(fmt, s, n, limit, pos);
      UnreadStops(fmt, s[n..], limit, pos + n);
      SuffixOfSuffix(s, n, |Unread(fmt, s, limit, pos)|);
    }
  }

  /** The cut is as late as it can be: at the end of what was read, or in front of a line that is not UTF-8, not terminated, or reaches past the recorded length. */
  lemma CutIsLatest(fmt: Format, floor: nat, content: Text, recorded: nat, readLen: nat)
    requires recorded <= readLen <= |content|
    ensures var p := ReadFile(fmt, floor, content[..readLen], Some(recorded));
            && p.pos <= readLen
            && StoppedAt(fmt, content[p.pos..readLen], Some(recorded), p.pos)
  {
    var s := content[..readLen];
    var done, left, p := ReadOnIsDue(fmt, floor, s, Some(recorded), Progress([], 0));
    UnreadStops(fmt, s, Some(recorded), 0);
    assert |done| == |s| - |left|;
    assert s[|done|..] == content[|done|..readLen];
  }

  /** Backfilling the newest file: the lines emitted and the cut, which is the recorded length when it does not open. */
  function ReadNewest(fmt: Format, floor: nat, f: File, recorded: nat, readLen: nat): (p: Progress)
    requires recorded <= readLen <= |f.content|
    ensures p.pos <= recorded
  {
    CutIsExact(fmt, floor, f.content, recorded, readLen);
    if f.opens then ReadFile(fmt, floor, f.content[..readLen], Some(recorded)) else Progress([], recorded)
  }

  /** What comes of the newest file: the lines emitted, and what is due from the cut on. */
  function NewestYield(fmt: Format, floor: nat, f: File, recorded: nat, readLen: nat): seq<Text>
    requires recorded <= readLen <= |f.content|
  {
    var p := ReadNewest(fmt, floor, f, recorded, readLen);
    p.lines + Due(fmt, floor, f.content[p.pos..])
  }

  /** What is due in front of the cut of a newest file that does not open. */
  function MissedInNewest(fmt: Format, floor: nat, f: File, recorded: nat): seq<Text>
    requires recorded <= |f.content|
  {
    if f.opens then [] else Due(fmt, floor, f.content[..recorded])
  }

  /** A newest file that does not open loses what is in front of its cut, a line boundary, and nothing else. */
  lemma NewestMisses(fmt: Format, floor: nat, f: File, recorded: nat, readLen: nat)
    requires recorded <= readLen <= |f.content| && (f.opens || Tail(f.content[..recorded]) == [])
    ensures Due(fmt, floor, f.content) == MissedInNewest(fmt, floor, f, recorded) + NewestYield(fmt, floor, f, recorded, readLen)
    ensures Keep(fmt, floor, ReadNewest(fmt, floor, f, recorded, readLen).lines) == ReadNewest(fmt, floor, f, recorded, readLen).lines
  {
    CutIsExact(fmt, floor, f.content, recorded, readLen);
    if f.opens {
      assert [] + Due(fmt, floor, f.content) == Due(fmt, floor, f.content);
    } else {
      var a, b := f.content[..recorded], f.content[recorded..];
      assert f.content == a + b;
      DueConcat(fmt, floor, a, b);
      assert [] + Due(fmt, floor, b) == Due(fmt, floor, b);
    }
  }

  // ----- where the walk stops -----

  ghost predicate HasRecordAt(fmt: Format, f: File, h: nat) {
    exists i :: 0 <= i < |Records(fmt, Whole(f.content))| && fmt.height(Records(fmt, Whole(f.content))[i]) == Some(h)
  }

  /** The height found near the head is that of one of the file's records. */
  ghost predicate HeadReadable(fmt: Format, f: File) {
    f.head.Some? && HasRecordAt(fmt, f, f.head.value)
  }

  /** Every record of this file has a height, none above `h`. */
  ghost predicate AllAtMost(fmt: Format, f: File, h: nat) {
    forall i :: 0 <= i < |Records(fmt, Whole(f.content))| ==> (
      var height := fmt.height(Records(fmt, Whole(f.content))[i]); height.Some? && height.value <= h)
  }

  /** Heights do not decrease from an older file to a newer one. */
  ghost predicate HeightsGrow(fmt: Format, fs: seq<File>) {
    forall i, j, h :: 0 <= i < j < |fs| && HasRecordAt(fmt, fs[i], h) ==> AllAtMost(fmt, fs[j], h)
  }

  lemma {:induction false} NoneRelevant(fmt: Format, floor: nat, records: seq<Text>)
    requires forall i :: 0 <= i < |records| ==> !Relevant(fmt, floor, records[i])
    ensures Keep(fmt, floor, records) == []
  {
    if records != [] {
      NoneRelevant(fmt, floor, records[1..]);
    }
  }

  lemma {:induction false} NothingDue(fmt: Format, floor: nat, fs: seq<File>)
    requires forall j :: 0 <= j < |fs| ==> AllAtMost(fmt, fs[j], floor)
    ensures DueOlder(fmt, floor, fs) == []
  {
    if fs != [] {
      assert AllAtMost(fmt, fs[0], floor);
      NoneRelevant(fmt, floor, Records(fmt, Whole(fs[0].content)));
      forall j | 0 <= j < |fs[1..]|
        ensures AllAtMost(fmt, fs[1..][j], floor)
      {
        assert fs[1..][j] == fs[j + 1];
      }
      NothingDue(fmt, floor, fs[1..]);
    }
  }

  lemma AtMostIsMonotone(fmt: Format, f: File, h: nat, floor: nat)
    requires AllAtMost(fmt, f, h) && h <= floor
    ensures AllAtMost(fmt, f, floor)
  {
  }

  /** What the walk leaves out, unless it was cut short, has nothing due. */
  ghost predicate LeavesNothing(fmt: Format, floor: nat, fs: seq<File>, n: nat, k: nat, cutShort: bool) {
    n <= k <= n + |fs| && (!cutShort ==> DueOlder(fmt, floor, fs[k - n..]) == [])
  }

  lemma WalkOn(fmt: Format, floor: nat, fs: seq<File>, n: nat, k: nat, cutShort: bool)
    requires fs != [] && LeavesNothing(fmt, floor, fs[1..], n + 1, k, cutShort)
    ensures LeavesNothing(fmt, floor, fs, n, k, cutShort)
  {
    assert fs[1..][k - n - 1..] == fs[k - n..];
  }

  lemma {:induction false} WalkLeaves(fmt: Format, floor: nat, fs: seq<File>, n: nat)
    requires HeightsGrow(fmt, fs) && forall i :: 0 <= i < |fs| ==> HeadReadable(fmt, fs[i])
    ensures LeavesNothing(fmt, floor, fs, n, Walk(fs, floor, n).0, Walk(fs, floor, n).1)
    decreases |fs|
  {
    if fs == [] || n >= MAX_BACKFILL_FILES {
      assert fs == [] ==> fs[0..] == [];
    } else if GoesOn(fs[0], floor) {
      TailGrows(fmt, fs);
      WalkLeaves(fmt, floor, fs[1..], n + 1);
      var (k, cutShort) := Walk(fs[1..], floor, n + 1);
      WalkOn(fmt, floor, fs, n, k, cutShort);
    } else {
      assert HeadReadable(fmt, fs[0]);
      OlderThanTheStop(fmt, floor, fs);
      assert fs[n + 1 - n..] == fs[1..];
    }
  }

  /** Unless it says otherwise, the walk leaves out only files with nothing due. */
  lemma WalkLeavesNothing(fmt: Format, floor: nat, fs: seq<File>, n: nat)
    requires HeightsGrow(fmt, fs) && forall i :: 0 <= i < |fs| ==> HeadReadable(fmt, fs[i])
    ensures n <= Walk(fs, floor, n).0 <= n + |fs|
    ensures !Walk(fs, floor, n).1 ==> DueOlder(fmt, floor, fs[Walk(fs, floor, n).0 - n..]) == []
  {
    WalkLeaves(fmt, floor, fs, n);
  }

  lemma OlderThanTheStop(fmt: Format, floor: nat, fs: seq<File>)
    requires fs != [] && HeightsGrow(fmt, fs) && HeadReadable(fmt, fs[0]) && !GoesOn(fs[0], floor)
    ensures DueOlder(fmt, floor, fs[1..]) == []
  {
    var h := fs[0].head.value;
    forall j | 0 <= j < |fs[1..]|
      ensures AllAtMost(fmt, fs[1..][j], floor)
    {
      assert fs[1..][j] == fs[j + 1];
      assert HasRecordAt(fmt, fs[0], h);
      AtMostIsMonotone(fmt, fs[j + 1], h, floor);
    }
    NothingDue(fmt, floor, fs[1..]);
  }

  lemma TailGrows(fmt: Format, fs: seq<File>)
    requires fs != [] && HeightsGrow(fmt, fs) && forall i :: 0 <= i < |fs| ==> HeadReadable(fmt, fs[i])
    ensures HeightsGrow(fmt, fs[1..]) && forall i :: 0 <= i < |fs[1..]| ==> HeadReadable(fmt, fs[1..][i])
  {
    var rest := fs[1..];
    forall i, j, h | 0 <= i < j < |rest| && HasRecordAt(fmt, rest[i], h)
      ensures AllAtMost(fmt, rest[j], h)
    {
      assert HasRecordAt(fmt, fs[i + 1], h) && rest[j] == fs[j + 1];
    }
    forall i | 0 <= i < |rest|
      ensures HeadReadable(fmt, rest[i])
    {
      assert rest[i] == fs[i + 1];
    }
  }

  // ----- everything due, once and in order -----

  /** What a start delivers: the older files walked, the newest up to the cut, then what live tracking reads. */
  function Delivered(fmt: Format, floor: nat, older: seq<File>, p: Progress, live: Reader): seq<Text> {
    (ReadOlder(fmt, floor, older) + p.lines) + live.lines
  }

  lemma ReadOldIsRelevant(fmt: Format, floor: nat, f: File)
    ensures Keep(fmt, floor, ReadOld(fmt, floor, f)) == ReadOld(fmt, floor, f)
  {
    if f.opens {
      var done, left, p := ReadOnIsDue(fmt, floor, f.content, None, Progress([], 0));
      assert [] + Due(fmt, floor, done) == Due(fmt, floor, done);
      KeepIsStable(fmt, floor, Records(fmt, Whole(done)));
    }
  }

  lemma {:induction false} ReadOlderIsRelevant(fmt: Format, floor: nat, fs: seq<File>)
    ensures Keep(fmt, floor, ReadOlder(fmt, floor, fs)) == ReadOlder(fmt, floor, fs)
  {
    if fs != [] {
      ReadOlderIsRelevant(fmt, floor, fs[1..]);
      ReadOldIsRelevant(fmt, floor, fs[0]);
      KeepConcat(fmt, floor, ReadOlder(fmt, floor, fs[1..]), ReadOld(fmt, floor, fs[0]));
    }
  }

  /** What is delivered, filtered by the floor, is what the older files and the newest yield. */
  lemma DeliveredAboveFloor(
    fmt: Format, floor: nat, older: seq<File>, f: File, recorded: nat, readLen: nat, chunks: seq<Text>)
    requires recorded <= readLen <= |f.content| && (f.opens || Tail(f.content[..recorded]) == [])
    requires Concat(chunks) == f.content[ReadNewest(fmt, floor, f, recorded, readLen).pos..]
    requires !FeedAll(fmt, NEW_READER, chunks).desynced
    ensures var p := ReadNewest(fmt, floor, f, recorded, readLen);
            Keep(fmt, floor, Delivered(fmt, floor, older, p, FeedAll(fmt, NEW_READER, chunks)))
            == ReadOlder(fmt, floor, older) + NewestYield(fmt, floor, f, recorded, readLen)
  {
    var p, live := ReadNewest(fmt, floor, f, recorded, readLen), FeedAll(fmt, NEW_READER, chunks);
    var first := ReadOlder(fmt, floor, older);
    NewestMisses(fmt, floor, f, recorded, readLen);
    QuietReaderMissesNothing(fmt, chunks);
    ReadOlderIsRelevant(fmt, floor, older);
    KeepConcat(fmt, floor, first + p.lines, live.lines);
    KeepConcat(fmt, floor, first, p.lines);
    Regroup(first, p.lines, Due(fmt, floor, f.content[p.pos..]));
  }

  /** Leaving out something makes a sequence another one. */
  lemma LeftOut<T>(x: seq<T>, y: seq<T>, a: seq<T>, am: seq<T>, b: seq<T>, m: seq<T>, d: seq<T>)
    requires x == a + d && y == b + (m + d)
    requires |a| + |am| == |b| && (am == [] ==> a == b)
    ensures x == y <==> am == [] && m == []
  {
    if am == [] && m == [] {
      assert m + d == d;
    }
    if x == y {
      assert |a + d| == |b + (m + d)|;
    }
  }

  /**
   The start is exact exactly when nothing due stands in a file the walk left out, or that does not
   open, or behind a line that is not UTF-8 in an older file it read.
   */
  lemma DeliveredIffNothingMissed(
    fmt: Format, floor: nat, fs: seq<File>, k: nat, recorded: nat, readLen: nat, chunks: seq<Text>)
    requires 0 < k <= |fs| && recorded <= readLen <= |fs[0].content| && (fs[0].opens || Tail(fs[0].content[..recorded]) == [])
    requires Concat(chunks) == fs[0].content[ReadNewest(fmt, floor, fs[0], recorded, readLen).pos..]
    requires !FeedAll(fmt, NEW_READER, chunks).desynced
    ensures var p := ReadNewest(fmt, floor, fs[0], recorded, readLen);
            Keep(fmt, floor, Delivered(fmt, floor, fs[1..][..k - 1], p, FeedAll(fmt, NEW_READER, chunks))) == DueOlder(fmt, floor, fs)
            <==> Missed(fmt, floor, fs[1..], k - 1) == [] && MissedInNewest(fmt, floor, fs[0], recorded) == []
  {
    var x := Keep(fmt, floor, Delivered(fmt, floor, fs[1..][..k - 1], ReadNewest(fmt, floor, fs[0], recorded, readLen),
                                        FeedAll(fmt, NEW_READER, chunks)));
    DeliveredAboveFloor(fmt, floor, fs[1..][..k - 1], fs[0], recorded, readLen, chunks);
    YieldIffNothingMissed(fmt, floor, fs, k, recorded, readLen, x);
  }

  lemma YieldIffNothingMissed(fmt: Format, floor: nat, fs: seq<File>, k: nat, recorded: nat, readLen: nat, x: seq<Text>)
    requires 0 < k <= |fs| && recorded <= readLen <= |fs[0].content| && (fs[0].opens || Tail(fs[0].content[..recorded]) == [])
    requires x == ReadOlder(fmt, floor, fs[1..][..k - 1]) + NewestYield(fmt, floor, fs[0], recorded, readLen)
    ensures x == DueOlder(fmt, floor, fs)
            <==> Missed(fmt, floor, fs[1..], k - 1) == [] && MissedInNewest(fmt, floor, fs[0], recorded) == []
  {
    OlderMissed(fmt, floor, fs[1..], k - 1);
    NewestMisses(fmt, floor, fs[0], recorded, readLen);
    LeftOut(x, DueOlder(fmt, floor, fs),
            ReadOlder(fmt, floor, fs[1..][..k - 1]), Missed(fmt, floor, fs[1..], k - 1), DueOlder(fmt, floor, fs[1..]),
            MissedInNewest(fmt, floor, fs[0], recorded), NewestYield(fmt, floor, fs[0], recorded, readLen));
  }

  lemma {:induction false} NothingIsMissed(fmt: Format, floor: nat, fs: seq<File>, k: nat)
    requires k <= |fs| && DueOlder(fmt, floor, fs[k..]) == []
    requires forall i :: 0 <= i < k ==> MissedIn(fmt, floor, fs[i]) == []
    ensures Missed(fmt, floor, fs, k) == []
    decreases |fs|
  {
    if k == 0 {
      assert fs[0..] == fs;
    } else {
      assert fs[1..][k - 1..] == fs[k..];
      assert MissedIn(fmt, floor, fs[0]) == [];
      NothingIsMissed(fmt, floor, fs[1..], k - 1);
    }
  }

  /**
   With heights that grow from file to file, readable heads, a newest file that opens, and in the
   older ones no record due behind damage or in a file that does not open, backfill and live reads deliver every record above the floor exactly once and
   in order, or a desync is flagged.
   */
  lemma StartIsExact(fmt: Format, floor: nat, fs: seq<File>, recorded: nat, readLen: nat, chunks: seq<Text>)
    requires fs != [] && recorded <= readLen <= |fs[0].content| && fs[0].opens
    requires HeightsGrow(fmt, fs) && forall i :: 0 <= i < |fs| ==> HeadReadable(fmt, fs[i])
    requires forall i :: 0 < i < |fs| ==> MissedIn(fmt, floor, fs[i]) == []
    requires Concat(chunks) == fs[0].content[ReadNewest(fmt, floor, fs[0], recorded, readLen).pos..]
    ensures var (k, cutShort) := Walk(fs, floor, 0);
            var p, live := ReadNewest(fmt, floor, fs[0], recorded, readLen), FeedAll(fmt, NEW_READER, chunks);
            && 0 < k <= |fs|
            && (cutShort || live.desynced
                || Keep(fmt, floor, Delivered(fmt, floor, fs[1..][..k - 1], p, live)) == DueOlder(fmt, floor, fs))
  {
    var (k, cutShort) := Walk(fs, floor, 0);
    WalkLeavesNothing(fmt, floor, fs, 0);
    WalkTakesTheNewest(fs, floor);
    if !cutShort && !FeedAll(fmt, NEW_READER, chunks).desynced {
      assert fs[1..][k - 1..] == fs[k..];
      NothingIsMissed(fmt, floor, fs[1..], k - 1);
      DeliveredIffNothingMissed(fmt, floor, fs, k, recorded, readLen, chunks);
    }
  }

  lemma WalkTakesTheNewest(fs: seq<File>, floor: nat)
    requires fs != []
    ensures Walk(fs, floor, 0).0 > 0
  {
    WalkCounts(fs[1..], floor, 1);
  }

  lemma {:induction false} WalkCounts(fs: seq<File>, floor: nat, n: nat)
    ensures Walk(fs, floor, n).0 >= n
    decreases |fs|
  {
    if fs != [] && n < MAX_BACKFILL_FILES && GoesOn(fs[0], floor) {
      WalkCounts(fs[1..], floor, n + 1);
    }
  }

  /**
   How far the walk goes: on from a file only when its head is known and above the floor, and never
   past four files; it is cut short exactly when it would have gone on to a fifth.
   */
  lemma {:induction false} WalkIs(fs: seq<File>, floor: nat, n: nat)
    requires n <= 4
    ensures var (k, cutShort) := Walk(fs, floor, n);
            && n <= k <= 4 && k - n <= |fs|
            && (forall i :: 0 <= i < k - n - 1 ==> fs[i].head.Some? && floor < fs[i].head.value)
            && (cutShort <==> k == 4 && k - n < |fs| && forall i :: 0 <= i < k - n ==> fs[i].head.Some? && floor < fs[i].head.value)
            && (!cutShort && k - n < |fs| ==> k > n && (fs[k - n - 1].head.None? || fs[k - n - 1].head.value <= floor))
    decreases |fs|
  {
    if fs != [] && n < 4 && GoesOn(fs[0], floor) {
      WalkIs(fs[1..], floor, n + 1);
      var k := Walk(fs, floor, n).0;
      assert forall i :: 0 < i < k - n ==> fs[i] == fs[1..][i - 1];
    }
  }

  /** Due are the records of unknown height and those above the floor, and no others. */
  lemma {:induction false} KeepIs(fmt: Format, floor: nat, records: seq<Text>, t: Text)
    ensures t in Keep(fmt, floor, records) <==> t in records && (fmt.height(t).None? || floor < fmt.height(t).value)
  {
    if records != [] {
      KeepIs(fmt, floor, records[1..], t);
    }
  }

  // ----- two ways to lose records silently -----

  /** A newest file whose head cannot be read, such as one just created, hides every older file, and nothing is flagged. */
  lemma UnreadableHeadHidesOlderFiles(fmt: Format, floor: nat, fs: seq<File>)
    requires fs != [] && fs[0].head.None?
    ensures Walk(fs, floor, 0) == (1, false)
    ensures Missed(fmt, floor, fs[1..], 0) == DueOlder(fmt, floor, fs[1..])
  {
  }

  /** An instance: a newest file just created, and an older one whose only record is due and never delivered. */
  lemma EmptyNewestHidesADueRecord(fmt: Format, floor: nat, line: Text, h: nat)
    requires IsLine(line) && fmt.kind(line).Line? && Relevant(fmt, floor, fmt.kind(line).text)
    ensures var fs := [File([], None, true), File(line, Some(h), true)];
            && Walk(fs, floor, 0) == (1, false)
            && DueOlder(fmt, floor, fs) == [fmt.kind(line).text]
            && Keep(fmt, floor, Delivered(fmt, floor, fs[1..][..0], ReadNewest(fmt, floor, File([], None, true), 0, 0), NEW_READER)) == []
  {
    var fs := [File([], None, true), File(line, Some(h), true)];
    assert fs[1..] == [File(line, Some(h), true)] && fs[1..][1..] == [];
    DueOfLine(fmt, floor, line, []);
    assert line + [] == line;
    assert DueOlder(fmt, floor, fs[1..]) == DueOlder(fmt, floor, fs[1..][1..]) + Due(fmt, floor, line);
    assert ReadOlder(fmt, floor, fs[1..][..0]) == [];
  }

  /** In an older file a line that is not UTF-8 hides the due record behind it: the file yields nothing, flags nothing. */
  lemma DamageHidesLaterRecords(fmt: Format, floor: nat, bad: Text, line: Text)
    requires IsLine(bad) && fmt.kind(bad).NotUtf8?
    requires IsLine(line) && fmt.kind(line).Line? && Relevant(fmt, floor, fmt.kind(line).text)
    ensures ReadFile(fmt, floor, bad + (line + []), None).lines == []
    ensures Due(fmt, floor, bad + (line + [])) == [fmt.kind(line).text] == MissedIn(fmt, floor, File(bad + (line + []), None, true))
  {
    ReadOnLine(fmt, floor, bad, line + [], None, Progress([], 0));
    DueOfLine(fmt, floor, bad, line + []);
    DueOfLine(fmt, floor, line, []);
    ReadOldMisses(fmt, floor, File(bad + (line + []), None, true));
  }

  // ----- the method -----

  /** Whether a channel that takes this many lines before it closes takes all of these. */
  predicate Takes(room: Option<nat>, lines: seq<Text>) {
    room.None? || |lines| <= room.value
  }

  /** What such a channel takes. */
  function TakenOf(room: Option<nat>, lines: seq<Text>): seq<Text> {
    if Takes(room, lines) then lines else lines[..room.value]
  }

  lemma {:induction false} ReadOnExtends(fmt: Format, floor: nat, s: Text, limit: Option<nat>, p: Progress)
    ensures p.lines <= ReadOn(fmt, floor, s, limit, p).lines
    decreases |s|
  {
    if s != [] && !Stops(fmt, s[..FirstLen(s)], limit, p.pos) {
      var n := FirstLen(s);
      var kind := fmt.kind(s[..n]);
      var lines := if kind.Line? && Relevant(fmt, floor, kind.text) then p.lines + [kind.text] else p.lines;
      ReadOnExtends(fmt, floor, s[n..], limit, Progress(lines, p.pos + n));
    }
  }

  /** Read one file into a channel that may close; `open` says that it has not. */
  method ReadLines(fmt: Format, floor: nat, s: Text, limit: Option<nat>, room: Option<nat>)
    returns (lines: seq<Text>, pos: nat, open: bool)
    ensures var p := ReadFile(fmt, floor, s, limit);
            lines == TakenOf(room, p.lines) && open == Takes(room, p.lines) && (open ==> pos == p.pos)
  {
    lines, pos := [], 0;
    var todo := s;
    while todo != []
      invariant Takes(room, lines)
      invariant ReadOn(fmt, floor, todo, limit, Progress(lines, pos)) == ReadFile(fmt, floor, s, limit)
      decreases |todo|
    {
      var n := FirstLen(todo);
      if Stops(fmt, todo[..n], limit, pos) {
        return lines, pos, true;
      }
      var kind := fmt.kind(todo[..n]);
      if kind.Line? && Relevant(fmt, floor, kind.text) {
        if room == Some(|lines|) {
          ReadOnExtends(fmt, floor, todo[n..], limit, Progress(lines + [kind.text], pos + n));
          return lines, pos, false;
        }
        lines := lines + [kind.text];
      }
      pos, todo := pos + n, todo[n..];
    }
    open := true;
  }

  /** Count the files to read, going back in time until one's head is not above the floor. */
  method ChooseFiles(fs: seq<File>, floor: nat) returns (count: nat, cutShort: bool)
    ensures (count, cutShort) == Walk(fs, floor, 0) && count <= |fs|
  {
    count := 0;
    while count < |fs|
      invariant count <= |fs| && Walk(fs[count..], floor, count) == Walk(fs, floor, 0)
    {
      assert fs[count..][0] == fs[count] && fs[count..][1..] == fs[count + 1..];
      if count >= MAX_BACKFILL_FILES {
        return count, true;
      }
      count := count + 1;
      if !GoesOn(fs[count - 1], floor) {
        return count, false;
      }
    }
    cutShort := false;
  }

  lemma {:induction false} OlderComesFirst(fmt: Format, floor: nat, fs: seq<File>, i: nat)
    requires i <= |fs|
    ensures ReadOlder(fmt, floor, fs[i..]) <= ReadOlder(fmt, floor, fs)
    decreases i
  {
    if i == 0 {
      assert fs[0..] == fs;
    } else {
      OlderComesFirst(fmt, floor, fs[1..], i - 1);
      assert fs[1..][i - 1..] == fs[i..];
    }
  }

  function RoomLeft(room: Option<nat>, used: nat): Option<nat> {
    if room.None? then None else Some(SatSub(room.value, used))
  }

  /** Whole files, given newest first, read oldest first. */
  method ReadOldFiles(fmt: Format, floor: nat, fs: seq<File>, room: Option<nat>) returns (emitted: seq<Text>, open: bool)
    ensures var all := ReadOlder(fmt, floor, fs); emitted == TakenOf(room, all) && open == Takes(room, all)
  {
    emitted, open := [], true;
    var i := |fs|;
    while i > 0
      invariant 0 <= i <= |fs| && open && Takes(room, emitted)
      invariant emitted == ReadOlder(fmt, floor, fs[i..])
    {
      i := i - 1;
      assert fs[i..][0] == fs[i] && fs[i..][1..] == fs[i + 1..];
      if fs[i].opens {
        var lines, _, ok := ReadLines(fmt, floor, fs[i].content, None, RoomLeft(room, |emitted|));
        OlderComesFirst(fmt, floor, fs, i);
        emitted := emitted + lines;
        if !ok {
          return emitted, false;
        }
      }
    }
    assert fs[0..] == fs;
  }

  /**
   Stream what is on disk above the floor, oldest file first, and set live tracking on the cut. The
   channel takes `room` lines before it closes; once it has closed nothing more is read or set.
   */
  method BackfillAndTrack(r: FileReader, fs: seq<File>, floor: nat, recorded: nat, readLen: nat, room: Option<nat>)
    returns (emitted: seq<Text>, open: bool)
    requires fs != [] ==> recorded <= readLen <= |fs[0].content|
    modifies r
    ensures fs == [] ==> emitted == [] && open && r.filePosition == old(r.filePosition) && r.desynced == old(r.desynced)
    ensures fs != [] ==> (
      var (k, cutShort) := Walk(fs, floor, 0);
      var p := ReadNewest(r.fmt, floor, fs[0], recorded, readLen);
      && 0 < k <= |fs|
      && (var all := ReadOlder(r.fmt, floor, fs[1..][..k - 1]) + p.lines;
          && emitted == TakenOf(room, all) && open == Takes(room, all))
      && (if open then r.filePosition == p.pos && r.partialLine == []
          else r.filePosition == old(r.filePosition) && r.partialLine == old(r.partialLine))
      && r.desynced == (old(r.desynced) || cutShort))
  {
    if fs == [] {
      return [], true;
    }
    WalkTakesTheNewest(fs, floor);
    var k, cutShort := ChooseFiles(fs, floor);
    if cutShort {
      r.desynced := true;
    }
    emitted, open := ReadOldFiles(r.fmt, floor, fs[1..][..k - 1], room);
    if !open {
      return;
    }
    var pos := recorded;
    if fs[0].opens {
      var lines;
      lines, pos, open := ReadLines(r.fmt, floor, fs[0].content[..readLen], Some(recorded), RoomLeft(room, |emitted|));
      emitted := emitted + lines;
      if !open {
        return;
      }
    }
    r.filePosition, r.partialLine := pos, [];
  }
}
