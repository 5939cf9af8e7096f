/**
 Newline reassembly. A reader sees a growing file in arbitrary chunks and carries the
 unterminated tail over; the lines it emits do not depend on where the chunks were cut.
 */
module Lines {
  import opened Types

  type Text = seq<byte>

  const NEWLINE: byte := 10
  const MAX_PARTIAL_LINE_BYTES: nat := 16 * 1024 * 1024

  /** What a terminated line turns out to be: a record, whitespace, or one of two kinds of damage. */
  datatype Kind = Line(text: Text) | Blank | Malformed | NotUtf8

  /** How lines are judged, and the block height written in a record. */
  datatype Format = Format(kind: Text -> Kind, height: Text -> Option<nat>)

  // ----- splitting -----

  /** Length of the first line, its newline included, or of everything when there is no newline. */
  function FirstLen(s: Text): (n: nat)
    requires s != []
    ensures 0 < n <= |s|
  {
    if s[0] == NEWLINE || |s| == 1 then 1 else 1 + FirstLen(s[1..])
  }

  /** split_inclusive at newlines. */
  function Split(s: Text): seq<Text> {
    if s == [] then [] else [s[..FirstLen(s)]] + Split(s[FirstLen(s)..])
  }

  predicate Terminated(seg: Text) {
    seg != [] && seg[|seg| - 1] == NEWLINE
  }

  /** The unterminated rest of a text. */
  function Tail(s: Text): Text {
    var segs := Split(s);
    if segs == [] || Terminated(segs[|segs| - 1]) then [] else segs[|segs| - 1]
  }

  /** The terminated lines of a text. */
  function Whole(s: Text): seq<Text> {
    if s == [] then []
    else (if Terminated(s[..FirstLen(s)]) then [s[..FirstLen(s)]] else []) + Whole(s[FirstLen(s)..])
  }

  lemma {:induction false} FirstLenIs(s: Text)
    requires s != []
    ensures var n := FirstLen(s);
            && (forall i :: 0 <= i < n - 1 ==> s[i] != NEWLINE)
            && (n < |s| ==> s[n - 1] == NEWLINE)
  {
    if s[0] != NEWLINE && |s| > 1 {
      FirstLenIs(s[1..]);
      forall i | 0 <= i < FirstLen(s) - 1
        ensures s[i] != NEWLINE
      {
        assert i > 0 ==> s[i] == s[1..][i - 1];
      }
    }
  }

  predicate NewlineFree(s: Text) {
    forall i :: 0 <= i < |s| ==> s[i] != NEWLINE
  }

  /** Terminated, with no newline before the last byte. */
  predicate IsLine(s: Text) {
    Terminated(s) && NewlineFree(s[..|s| - 1])
  }

  lemma {:induction false} FirstLenOfLine(line: Text, rest: Text)
    requires IsLine(line)
    ensures FirstLen(line + rest) == |line|
    decreases |line|
  {
    if |line| > 1 {
      var tail := line[1..];
      assert line[..|line| - 1][0] == line[0];
      assert tail[..|tail| - 1] == line[..|line| - 1][1..];
      assert (line + rest)[1..] == tail + rest;
      FirstLenOfLine(tail, rest);
    }
  }

  /** A line in front is split off, whatever follows it. */
  lemma LineComesOff(line: Text, rest: Text)
    requires IsLine(line)
    ensures line + rest != [] && (line + rest)[..FirstLen(line + rest)] == line && (line + rest)[FirstLen(line + rest)..] == rest
    ensures Whole(line + rest) == [line] + Whole(rest)
    ensures Tail(line + rest) == Tail(rest)
  {
    FirstLenOfLine(line, rest);
    var s, n := line + rest, |line|;
    assert s[..n] == line && s[n..] == rest;
    assert Split(s) == [line] + Split(rest);
    if Split(rest) != [] {
      assert Split(s)[|Split(s)| - 1] == Split(rest)[|Split(rest)| - 1];
    }
  }

  /** Text without a newline is all tail. */
  lemma {:induction false} FirstLenOfTail(s: Text)
    requires NewlineFree(s) && s != []
    ensures FirstLen(s) == |s|
    decreases |s|
  {
    if |s| > 1 {
      FirstLenOfTail(s[1..]);
    }
  }

  lemma TailStays(s: Text)
    requires NewlineFree(s)
    ensures Whole(s) == [] && Tail(s) == s
  {
    if s != [] {
      FirstLenOfTail(s);
      assert s[..|s|] == s && s[|s|..] == [];
      assert Split(s) == [s];
      assert Whole(s) == [] + Whole([]);
    }
  }

  /** A text is all tail, or a line and a shorter text. */
  lemma FirstIsLine(s: Text)
    requires s != []
    ensures var n := FirstLen(s);
            s == s[..n] + s[n..] && if Terminated(s[..n]) then IsLine(s[..n]) else NewlineFree(s) && n == |s|
  {
    var n := FirstLen(s);
    FirstLenIs(s);
    Rejoin(s, n);
    assert s[..n][..n - 1] == s[..n - 1];
  }

  lemma Rejoin<T>(s: seq<T>, n: nat)
    requires n <= |s|
    ensures s == s[..n] + s[n..]
  {
  }

  lemma ExtendLine(line: Text, s: Text, t: Text)
    requires IsLine(line)
    requires Whole(s + t) == Whole(s) + Whole(Tail(s) + t) && Tail(s + t) == Tail(Tail(s) + t)
    ensures Whole((line + s) + t) == Whole(line + s) + Whole(Tail(line + s) + t)
    ensures Tail((line + s) + t) == Tail(Tail(line + s) + t)
  {
    LineComesOff(line, s);
    LineComesOff(line, s + t);
    Regroup(line, s, t);
    Regroup([line], Whole(s), Whole(Tail(s) + t));
  }

  /** Reading on from the tail is reading the whole. */
  lemma {:induction false} SplitExtends(s: Text, t: Text)
    ensures Whole(s + t) == Whole(s) + Whole(Tail(s) + t)
    ensures Tail(s + t) == Tail(Tail(s) + t)
    decreases |s|
  {
    if s == [] {
      assert s + t == t && Tail(s) + t == t;
    } else {
      var n := FirstLen(s);
      FirstIsLine(s);
      if Terminated(s[..n]) {
        SplitExtends(s[n..], t);
        ExtendLine(s[..n], s[n..], t);
      } else {
        TailStays(s);
      }
    }
  }

  // ----- what lines are worth -----

  /** The records among the lines of a text. */
  function Records(fmt: Format, lines: seq<Text>): seq<Text> {
    if lines == [] then []
    else (if fmt.kind(lines[0]).Line? then [fmt.kind(lines[0]).text] else []) + Records(fmt, lines[1..])
  }

  predicate IsCorrupt(fmt: Format, line: Text) {
    fmt.kind(line).Malformed? || fmt.kind(line).NotUtf8?
  }

  predicate AnyCorrupt(fmt: Format, lines: seq<Text>) {
    lines != [] && (IsCorrupt(fmt, lines[0]) || AnyCorrupt(fmt, lines[1..]))
  }

  lemma {:induction false} RecordsConcat(fmt: Format, a: seq<Text>, b: seq<Text>)
    ensures Records(fmt, a + b) == Records(fmt, a) + Records(fmt, b)
    ensures AnyCorrupt(fmt, a + b) <==> AnyCorrupt(fmt, a) || AnyCorrupt(fmt, b)
  {
    if a == [] {
      assert a + b == b;
    } else {
      assert (a + b)[1..] == a[1..] + b && (a + b)[0] == a[0];
      RecordsConcat(fmt, a[1..], b);
    }
  }

  // ----- the reader -----

  /** What a reader has emitted, what it carries over, and whether it had to give something up. */
  datatype Reader = Reader(partial: Text, lines: seq<Text>, desynced: bool)

  /** One read: the chunk after the carried-over tail, line by line; an overlong tail is dropped and flagged. */
  function Feed(fmt: Format, r: Reader, chunk: Text): Reader {
    var full := r.partial + chunk;
    var tooLong := |Tail(full)| > MAX_PARTIAL_LINE_BYTES;
    Reader(if tooLong then [] else Tail(full),
           r.lines + Records(fmt, Whole(full)),
           r.desynced || AnyCorrupt(fmt, Whole(full)) || tooLong)
  }

  function FeedAll(fmt: Format, r: Reader, chunks: seq<Text>): Reader
    decreases |chunks|
  {
    if chunks == [] then r else FeedAll(fmt, Feed(fmt, r, chunks[0]), chunks[1..])
  }

  function Concat(chunks: seq<Text>): Text {
    if chunks == [] then [] else chunks[0] + Concat(chunks[1..])
  }

  /** No line, finished or not, is over the cap after any prefix of the text. */
  predicate NoneTooLong(s: Text) {
    forall k :: 0 <= k <= |s| ==> |Tail(s[..k])| <= MAX_PARTIAL_LINE_BYTES
  }

  /** The reader stands where reading `done` in one piece would have left it. */
  ghost predicate Read(fmt: Format, r: Reader, done: Text) {
    && r.partial == Tail(done)
    && r.lines == Records(fmt, Whole(done))
    && r.desynced == AnyCorrupt(fmt, Whole(done))
  }

  lemma FeedReads(fmt: Format, r: Reader, done: Text, chunk: Text)
    requires Read(fmt, r, done) && |Tail(done + chunk)| <= MAX_PARTIAL_LINE_BYTES
    ensures Read(fmt, Feed(fmt, r, chunk), done + chunk)
  {
    SplitExtends(done, chunk);
    RecordsConcat(fmt, Whole(done), Whole(Tail(done) + chunk));
  }

  lemma {:induction false} FeedAllReads(fmt: Format, r: Reader, done: Text, chunks: seq<Text>)
    requires Read(fmt, r, done) && NoneTooLong(done + Concat(chunks))
    ensures Read(fmt, FeedAll(fmt, r, chunks), done + Concat(chunks))
    decreases |chunks|
  {
    if chunks == [] {
      assert done + [] == done;
    } else {
      var next := done + chunks[0];
      var all := done + Concat(chunks);
      assert all == next + Concat(chunks[1..]);
      assert all[..|next|] == next;
      FeedReads(fmt, r, done, chunks[0]);
      FeedAllReads(fmt, Feed(fmt, r, chunks[0]), next, chunks[1..]);
    }
  }

  const NEW_READER := Reader([], [], false)

  /**
   Chunk independence: with no line over the cap, the emitted lines are the records of the whole
   content, however it was cut, and a desync is flagged exactly when a terminated line is corrupt.
   */
  lemma ReassemblyIsChunkIndependent(fmt: Format, chunks: seq<Text>)
    requires NoneTooLong(Concat(chunks))
    ensures var r, content := FeedAll(fmt, NEW_READER, chunks), Concat(chunks);
            && r.lines == Records(fmt, Whole(content))
            && r.partial == Tail(content)
            && (r.desynced <==> AnyCorrupt(fmt, Whole(content)))
  {
    assert [] + Concat(chunks) == Concat(chunks);
    FeedAllReads(fmt, NEW_READER, [], chunks);
  }

  lemma {:induction false} DesyncSticks(fmt: Format, r: Reader, chunks: seq<Text>)
    requires r.desynced
    ensures FeedAll(fmt, r, chunks).desynced
    decreases |chunks|
  {
    if chunks != [] {
      DesyncSticks(fmt, Feed(fmt, r, chunks[0]), chunks[1..]);
    }
  }

  lemma QuietFeedReads(fmt: Format, r: Reader, done: Text, chunk: Text)
    requires Read(fmt, r, done) && !Feed(fmt, r, chunk).desynced
    ensures Read(fmt, Feed(fmt, r, chunk), done + chunk)
  {
    SplitExtends(done, chunk);
    FeedReads(fmt, r, done, chunk);
  }

  lemma ConcatStep(done: Text, chunks: seq<Text>)
    requires chunks != []
    ensures done + Concat(chunks) == (done + chunks[0]) + Concat(chunks[1..])
  {
    Regroup(done, chunks[0], Concat(chunks[1..]));
  }

  lemma {:induction false} QuietReaderReads(fmt: Format, r: Reader, done: Text, chunks: seq<Text>)
    requires Read(fmt, r, done) && !FeedAll(fmt, r, chunks).desynced
    ensures Read(fmt, FeedAll(fmt, r, chunks), done + Concat(chunks))
    decreases |chunks|
  {
    if chunks == [] {
      assert done + [] == done;
    } else {
      NotYetDesynced(fmt, r, chunks);
      QuietFeedReads(fmt, r, done, chunks[0]);
      ConcatStep(done, chunks);
      QuietReaderReads(fmt, Feed(fmt, r, chunks[0]), done + chunks[0], chunks[1..]);
    }
  }

  lemma NotYetDesynced(fmt: Format, r: Reader, chunks: seq<Text>)
    requires chunks != [] && !FeedAll(fmt, r, chunks).desynced
    ensures !Feed(fmt, r, chunks[0]).desynced && FeedAll(fmt, r, chunks) == FeedAll(fmt, Feed(fmt, r, chunks[0]), chunks[1..])
  {
    if Feed(fmt, r, chunks[0]).desynced {
      DesyncSticks(fmt, Feed(fmt, r, chunks[0]), chunks[1..]);
    }
  }

  /** Whatever the content and the chunks: a reader that flags nothing has emitted every record and met no damage. */
  lemma QuietReaderMissesNothing(fmt: Format, chunks: seq<Text>)
    requires !FeedAll(fmt, NEW_READER, chunks).desynced
    ensures FeedAll(fmt, NEW_READER, chunks).lines == Records(fmt, Whole(Concat(chunks)))
    ensures !AnyCorrupt(fmt, Whole(Concat(chunks)))
  {
    QuietReaderReads(fmt, NEW_READER, [], chunks);
    assert [] + Concat(chunks) == Concat(chunks);
  }

  /** Some read left an unfinished line over 16 MiB. */
  ghost predicate SomeOverlong(chunks: seq<Text>) {
    exists k :: 0 <= k <= |chunks| && Overlong(chunks[..k])
  }

  predicate Overlong(done: seq<Text>) {
    |Tail(Concat(done))| > 16 * 1024 * 1024
  }

  lemma {:induction false} ConcatSplits(a: seq<Text>, b: seq<Text>)
    ensures Concat(a + b) == Concat(a) + Concat(b)
  {
    if a == [] {
      assert a + b == b;
    } else {
      assert (a + b)[0] == a[0] && (a + b)[1..] == a[1..] + b;
      ConcatSplits(a[1..], b);
      Regroup(a[0], Concat(a[1..]), Concat(b));
    }
  }

  lemma {:induction false} FeedAllSnoc(fmt: Format, r: Reader, chunks: seq<Text>, chunk: Text)
    ensures FeedAll(fmt, r, chunks + [chunk]) == Feed(fmt, FeedAll(fmt, r, chunks), chunk)
    decreases |chunks|
  {
    if chunks == [] {
      assert chunks + [chunk] == [chunk] && FeedAll(fmt, Feed(fmt, r, chunk), [chunk][1..]) == Feed(fmt, r, chunk);
    } else {
      assert (chunks + [chunk])[0] == chunks[0] && (chunks + [chunk])[1..] == chunks[1..] + [chunk];
      FeedAllSnoc(fmt, Feed(fmt, r, chunks[0]), chunks[1..], chunk);
    }
  }

  lemma OneChunk(chunk: Text)
    ensures Concat([chunk]) == chunk
  {
    var rest: seq<Text> := [chunk][1..];
    assert rest == [] && chunk + Concat(rest) == chunk;
  }

  /** Where a reader stands after these chunks: as if in one piece, or flagged, with damage or an overlong tail to show for it. */
  ghost predicate StandsAfter(fmt: Format, chunks: seq<Text>) {
    var r, content := FeedAll(fmt, NEW_READER, chunks), Concat(chunks);
    && |r.partial| <= 16 * 1024 * 1024
    && (r.desynced <==> AnyCorrupt(fmt, Whole(content)) || SomeOverlong(chunks))
    && (!SomeOverlong(chunks) ==> Read(fmt, r, content))
  }

  lemma {:induction false} ReaderStands(fmt: Format, chunks: seq<Text>)
    ensures StandsAfter(fmt, chunks)
    decreases |chunks|
  {
    if chunks == [] {
      assert forall k :: 0 <= k <= |chunks| ==> chunks[..k] == [];
    } else {
      var before, chunk := chunks[..|chunks| - 1], chunks[|chunks| - 1];
      assert before + [chunk] == chunks;
      ReaderStands(fmt, before);
      FeedAllSnoc(fmt, NEW_READER, before, chunk);
      ConcatSplits(before, [chunk]);
      OneChunk(chunk);
      OverlongSoFar(before, chunk);
      SplitExtends(Concat(before), chunk);
      RecordsConcat(fmt, Whole(Concat(before)), Whole(Tail(Concat(before)) + chunk));
    }
  }

  lemma OverlongSoFar(before: seq<Text>, chunk: Text)
    ensures SomeOverlong(before + [chunk]) <==> SomeOverlong(before) || Overlong(before + [chunk])
  {
    var chunks := before + [chunk];
    assert chunks[..|chunks|] == chunks;
    forall k | 0 <= k <= |before|
      ensures chunks[..k] == before[..k]
    {
    }
    if k :| 0 <= k <= |before| && Overlong(before[..k]) {
      assert Overlong(chunks[..k]);
    }
    if k :| 0 <= k <= |chunks| && Overlong(chunks[..k]) {
      assert k <= |before| ==> Overlong(before[..k]);
    }
  }

  /**
   When a reader flags a desync, for any content and chunks: exactly when a terminated line is corrupt or
   a read left an unfinished line over 16 MiB. It never carries over more than that, and without such a
   line it has emitted exactly the records.
   */
  lemma FlaggedIff(fmt: Format, chunks: seq<Text>)
    ensures var r, content := FeedAll(fmt, NEW_READER, chunks), Concat(chunks);
            && (r.desynced <==> AnyCorrupt(fmt, Whole(content)) || SomeOverlong(chunks))
            && (!SomeOverlong(chunks) ==> r.lines == Records(fmt, Whole(content)) && r.partial == Tail(content))
            && |r.partial| <= 16 * 1024 * 1024
  {
    ReaderStands(fmt, chunks);
  }

  // ----- lines are lines -----

  lemma RejoinFirst(s: Text, n: nat, lines: seq<Text>, tail: Text)
    requires n <= |s| && Concat(lines) + tail == s[n..]
    ensures Concat([s[..n]] + lines) + tail == s
  {
    assert ([s[..n]] + lines)[1..] == lines;
    Regroup(s[..n], Concat(lines), tail);
    Rejoin(s, n);
  }

  /** The lines and the tail are the text again, each line ends in its only newline, and the tail has none. */
  lemma {:induction false} SplitIsExact(s: Text)
    ensures Concat(Whole(s)) + Tail(s) == s
    ensures forall i :: 0 <= i < |Whole(s)| ==> IsLine(Whole(s)[i])
    ensures NewlineFree(Tail(s))
    decreases |s|
  {
    if s != [] {
      var n := FirstLen(s);
      FirstIsLine(s);
      if Terminated(s[..n]) {
        SplitIsExact(s[n..]);
        LineComesOff(s[..n], s[n..]);
        RejoinFirst(s, n, Whole(s[n..]), Tail(s));
      } else {
        TailStays(s);
      }
    }
  }

  // ----- the object -----

  class FileReader {
    const fmt: Format
    var filePosition: nat
    var partialLine: Text
    var desynced: bool

    constructor (fmt: Format, position: nat)
      ensures this.fmt == fmt && filePosition == position && partialLine == [] && !desynced
    {
      this.fmt, filePosition, partialLine, desynced := fmt, position, [], false;
    }

    /** Read one chunk of the file as it stands and return the lines it completes. */
    method OnModify(content: Text, chunkLen: nat) returns (lines: seq<Text>)
      requires filePosition + chunkLen <= |content|
      modifies this
      ensures filePosition == old(filePosition) + chunkLen
      ensures Reader(partialLine, lines, desynced)
           == Feed(fmt, Reader(old(partialLine), [], old(desynced)), content[old(filePosition)..filePosition])
    {
      var chunk := content[filePosition..filePosition + chunkLen];
      filePosition := filePosition + chunkLen;
      lines := TakeLines(partialLine + chunk);
      FeedIsAbsorb(fmt, old(partialLine), old(desynced), chunk);
      if |partialLine| > MAX_PARTIAL_LINE_BYTES {
        partialLine, desynced := [], true;
      }
    }

    /** Emit the records, flag the damage, keep the tail. */
    method TakeLines(full: Text) returns (lines: seq<Text>)
      modifies this`partialLine, this`desynced
      ensures Reader(partialLine, lines, desynced) == Absorb(fmt, Reader([], [], old(desynced)), full)
    {
      lines, partialLine := [], [];
      var todo := full;
      while todo != []
        invariant Absorb(fmt, Reader(partialLine, lines, desynced), todo) == Absorb(fmt, Reader([], [], old(desynced)), full)
        decreases |todo|
      {
        var n := FirstLen(todo);
        var segment := todo[..n];
        if Terminated(segment) {
          var kind := fmt.kind(segment);
          if kind.Line? {
            lines := lines + [kind.text];
          } else if !kind.Blank? {
            desynced := true;
          }
        } else {
          partialLine := segment;
        }
        todo := todo[n..];
      }
    }
  }

  /** One segment at a time. */
  function AbsorbOne(fmt: Format, r: Reader, segment: Text): Reader {
    if !Terminated(segment) then r.(partial := segment)
    else
      var kind := fmt.kind(segment);
      if kind.Line? then r.(lines := r.lines + [kind.text])
      else if kind.Blank? then r
      else r.(desynced := true)
  }

  function Absorb(fmt: Format, r: Reader, s: Text): Reader
    decreases |s|
  {
    if s == [] then r else Absorb(fmt, AbsorbOne(fmt, r, s[..FirstLen(s)]), s[FirstLen(s)..])
  }

  lemma {:induction false} AbsorbIsSplit(fmt: Format, r: Reader, s: Text)
    requires r.partial == []
    ensures Absorb(fmt, r, s) == Reader(Tail(s), r.lines + Records(fmt, Whole(s)), r.desynced || AnyCorrupt(fmt, Whole(s)))
    decreases |s|
  {
    if s == [] {
      assert r.lines + [] == r.lines;
    } else {
      var n := FirstLen(s);
      SegmentCounts(fmt, s);
      if Terminated(s[..n]) {
        var r' := AbsorbOne(fmt, r, s[..n]);
        AbsorbIsSplit(fmt, r', s[n..]);
        AbsorbOneCounts(fmt, r, s[..n], Records(fmt, Whole(s[n..])));
      } else {
        assert r.lines + [] == r.lines;
      }
    }
  }

  lemma AbsorbOneCounts(fmt: Format, r: Reader, segment: Text, later: seq<Text>)
    requires Terminated(segment)
    ensures var r' := AbsorbOne(fmt, r, segment);
            && r'.partial == r.partial && r'.desynced == (r.desynced || IsCorrupt(fmt, segment))
            && r'.lines + later == r.lines + ((if fmt.kind(segment).Line? then [fmt.kind(segment).text] else []) + later)
  {
  }

  lemma FeedIsAbsorb(fmt: Format, partial: Text, desynced: bool, chunk: Text)
    ensures var a := Absorb(fmt, Reader([], [], desynced), partial + chunk);
            Feed(fmt, Reader(partial, [], desynced), chunk)
            == if |a.partial| > MAX_PARTIAL_LINE_BYTES then Reader([], a.lines, true) else a
  {
    AbsorbIsSplit(fmt, Reader([], [], desynced), partial + chunk);
  }

  /** What the first segment contributes. */
  lemma SegmentCounts(fmt: Format, s: Text)
    requires s != []
    ensures var n := FirstLen(s);
            if Terminated(s[..n]) then (
              && Records(fmt, Whole(s))
                 == (if fmt.kind(s[..n]).Line? then [fmt.kind(s[..n]).text] else []) + Records(fmt, Whole(s[n..]))
              && AnyCorrupt(fmt, Whole(s)) == (IsCorrupt(fmt, s[..n]) || AnyCorrupt(fmt, Whole(s[n..])))
              && Tail(s) == Tail(s[n..]))
            else s[n..] == [] && Whole(s) == [] && Tail(s) == s[..n]
  {
    var n := FirstLen(s);
    FirstIsLine(s);
    if Terminated(s[..n]) {
      LineComesOff(s[..n], s[n..]);
      assert Whole(s)[1..] == Whole(s[n..]);
    } else {
      TailStays(s);
      assert s[..n] == s;
    }
  }
}
