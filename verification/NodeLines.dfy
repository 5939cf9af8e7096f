/**
 The lines the node writes: JSON objects, one per line, with the block height near the
 front. How they are judged and where the height is found, and that what is written is read back.
 */
module NodeLines {
  import opened Types
  import opened Utf8
  import opened Lines
  import Backfill

  const OPEN_BRACE: byte := 0x7b
  const CLOSE_BRACE: byte := 0x7d
  const RETURN: byte := 13
  const HEAD_BYTES: nat := 8192

  /** The field that holds the height, quotes and colon included. */
  const BLOCK_NUMBER: Text := [0x22, 0x62, 0x6c, 0x6f, 0x63, 0x6b, 0x5f, 0x6e, 0x75, 0x6d, 0x62, 0x65, 0x72, 0x22, 0x3a]

  // ----- whitespace -----

  predicate IsAsciiSpace(b: byte) {
    9 <= b <= 13 || b == 32
  }

  /** The white space of Unicode that takes two or three bytes. */
  predicate IsWideSpace2(a: byte, b: byte) {
    a == 0xc2 && (b == 0x85 || b == 0xa0)
  }

  predicate IsWideSpace3(a: byte, b: byte, c: byte) {
    || (a == 0xe1 && b == 0x9a && c == 0x80)
    || (a == 0xe2 && b == 0x80 && (0x80 <= c <= 0x8a || c == 0xa8 || c == 0xa9 || c == 0xaf))
    || (a == 0xe2 && b == 0x81 && c == 0x9f)
    || (a == 0xe3 && b == 0x80 && c == 0x80)
  }

  /** Bytes of the white space character a text ends in, 0 when it does not end in one. */
  function SpaceAtEnd(s: Text): (n: nat)
    ensures n <= |s|
  {
    var k := |s|;
    if k >= 1 && IsAsciiSpace(s[k - 1]) then 1
    else if k >= 2 && IsWideSpace2(s[k - 2], s[k - 1]) then 2
    else if k >= 3 && IsWideSpace3(s[k - 3], s[k - 2], s[k - 1]) then 3
    else 0
  }

  function SpaceAtStart(s: Text): (n: nat)
    ensures n <= |s|
  {
    if |s| >= 1 && IsAsciiSpace(s[0]) then 1
    else if |s| >= 2 && IsWideSpace2(s[0], s[1]) then 2
    else if |s| >= 3 && IsWideSpace3(s[0], s[1], s[2]) then 3
    else 0
  }

  function TrimEnd(s: Text): (r: Text)
    ensures r <= s
    decreases |s|
  {
    if SpaceAtEnd(s) == 0 then s else TrimEnd(s[..|s| - SpaceAtEnd(s)])
  }

  function TrimStart(s: Text): Text
    decreases |s|
  {
    if SpaceAtStart(s) == 0 then s else TrimStart(s[SpaceAtStart(s)..])
  }

  predicate OnlySpace(s: Text)
    decreases |s|
  {
    s == [] || (SpaceAtEnd(s) > 0 && OnlySpace(s[..|s| - SpaceAtEnd(s)]))
  }

  /** Trimming takes off white space and nothing else, and leaves none at the end. */
  lemma {:induction false} TrimEndIsExact(s: Text)
    ensures SpaceAtEnd(TrimEnd(s)) == 0 && OnlySpace(s[|TrimEnd(s)|..])
    decreases |s|
  {
    var n := SpaceAtEnd(s);
    if n == 0 {
      assert s[|s|..] == [];
    } else {
      var before := s[..|s| - n];
      var r := |TrimEnd(before)|;
      TrimEndIsExact(before);
      EndsAlike(s, r);
      CutBothEnds(s, r, n);
    }
  }

  /** What a text ends in does not depend on how it begins. */
  lemma EndsAlike(s: Text, r: nat)
    requires r + SpaceAtEnd(s) <= |s| && SpaceAtEnd(s) > 0
    ensures SpaceAtEnd(s[r..]) == SpaceAtEnd(s)
  {
  }

  lemma CutBothEnds(s: Text, r: nat, n: nat)
    requires r + n <= |s|
    ensures s[r..][..|s| - r - n] == s[..|s| - n][r..]
  {
  }

  /** The characters of Unicode that are white space. */
  predicate IsWhite(c: nat) {
    || 0x09 <= c <= 0x0d || c == 0x20 || c == 0x85 || c == 0xa0 || c == 0x1680 || 0x2000 <= c <= 0x200a
    || c == 0x2028 || c == 0x2029 || c == 0x202f || c == 0x205f || c == 0x3000
  }

  /** The bytes end in, or begin with, the encoding of this character. */
  predicate EndsIn(s: Text, c: nat)
    requires IsScalar(c)
  {
    |CharBytes(c)| <= |s| && s[|s| - |CharBytes(c)|..] == CharBytes(c)
  }

  predicate StartsWith(s: Text, c: nat)
    requires IsScalar(c)
  {
    CharBytes(c) <= s
  }

  /** A text is seen to end in white space exactly when it ends in a white space character, and then of that length. */
  lemma SpaceAtEndIs(s: Text, c: nat)
    requires IsWhite(c) && EndsIn(s, c)
    ensures SpaceAtEnd(s) == |CharBytes(c)|
  {
    var end := s[|s| - |CharBytes(c)|..];
    assert forall i :: 0 <= i < |end| ==> end[i] == s[|s| - |CharBytes(c)| + i];
  }

  lemma SpaceAtEndIsWhite(s: Text) returns (c: nat)
    requires SpaceAtEnd(s) > 0
    ensures IsWhite(c) && EndsIn(s, c)
  {
    var k := |s|;
    if SpaceAtEnd(s) == 1 {
      c := s[k - 1];
      assert s[k - 1..] == [s[k - 1]];
    } else if SpaceAtEnd(s) == 2 {
      c := TwoBytes(s[k - 2..]);
      assert s[k - 2..][..2] == s[k - 2..];
      WhiteTwo(s[k - 2], s[k - 1], c);
    } else {
      c := ThreeBytes(s[k - 3..]);
      assert s[k - 3..][..3] == s[k - 3..];
      WhiteThree(s[k - 3], s[k - 2], s[k - 1], c);
    }
  }

  lemma WhiteTwo(a: byte, b: byte, c: nat)
    requires IsScalar(c) && CharBytes(c) == [a, b] && IsWideSpace2(a, b)
    ensures IsWhite(c)
  {
  }

  lemma WhiteThree(a: byte, b: byte, e: byte, c: nat)
    requires IsScalar(c) && CharBytes(c) == [a, b, e] && IsWideSpace3(a, b, e)
    ensures IsWhite(c)
  {
  }

  lemma SpaceAtStartIs(s: Text, c: nat)
    requires IsWhite(c) && StartsWith(s, c)
    ensures SpaceAtStart(s) == |CharBytes(c)|
  {
    assert forall i :: 0 <= i < |CharBytes(c)| ==> s[i] == CharBytes(c)[i];
  }

  lemma SpaceAtStartIsWhite(s: Text) returns (c: nat)
    requires SpaceAtStart(s) > 0
    ensures IsWhite(c) && StartsWith(s, c)
  {
    if SpaceAtStart(s) == 1 {
      c := s[0];
    } else if SpaceAtStart(s) == 2 {
      c := TwoBytes(s);
      assert s[..2] == [s[0], s[1]];
      WhiteTwo(s[0], s[1], c);
    } else {
      c := ThreeBytes(s);
      assert s[..3] == [s[0], s[1], s[2]];
      WhiteThree(s[0], s[1], s[2], c);
    }
  }

  // ----- judging a line -----

  /** A record in braces, a blank line, or damage. */
  function Judge(segment: Text): Kind {
    if !ValidUtf8(segment) then NotUtf8
    else
      var t := TrimEnd(segment);
      if t == [] then Blank
      else if t[0] == OPEN_BRACE && t[|t| - 1] == CLOSE_BRACE then Line(t)
      else Malformed
  }

  /** What a node writes on one line. */
  predicate IsRecord(t: Text) {
    |t| >= 2 && t[0] == OPEN_BRACE && t[|t| - 1] == CLOSE_BRACE && ValidUtf8(t) && NewlineFree(t)
  }

  /** A record is read back from its line, with either line ending. */
  lemma RecordIsReadBack(t: Text)
    requires IsRecord(t)
    ensures Judge(t + [NEWLINE]) == Line(t) && Judge(t + [RETURN, NEWLINE]) == Line(t)
  {
    EndingsAreValid();
    BraceStays(t);
    TrimsOneByte(t, NEWLINE);
    JudgedWithEnding(t, [NEWLINE]);
    TrimsTwoBytes(t);
    JudgedWithEnding(t, [RETURN, NEWLINE]);
  }

  lemma EndingsAreValid()
    ensures ValidUtf8([NEWLINE]) && ValidUtf8([RETURN, NEWLINE])
  {
    assert [NEWLINE][1..] == [] && [RETURN, NEWLINE][1..] == [NEWLINE];
  }

  lemma BraceStays(t: Text)
    requires IsRecord(t)
    ensures TrimEnd(t) == t
  {
    assert SpaceAtEnd(t) == 0;
  }

  lemma JudgedWithEnding(t: Text, ending: Text)
    requires IsRecord(t) && ValidUtf8(ending) && TrimEnd(t + ending) == t
    ensures Judge(t + ending) == Line(t)
  {
    ConcatIsValid(t, ending);
  }

  lemma TrimsTwoBytes(t: Text)
    ensures TrimEnd(t + [RETURN, NEWLINE]) == TrimEnd(t)
  {
    var u, v := t + [RETURN], t + [RETURN, NEWLINE];
    assert u + [NEWLINE] == v;
    TrimsOneByte(t, RETURN);
    TrimsOneByte(u, NEWLINE);
  }

  lemma TrimsOneByte(t: Text, b: byte)
    requires IsAsciiSpace(b)
    ensures TrimEnd(t + [b]) == TrimEnd(t)
  {
    assert (t + [b])[..|t|] == t;
  }

  /** Whatever is taken for a record is in braces, and only white space was left off it. */
  lemma JudgedRecordIs(segment: Text)
    requires Judge(segment).Line?
    ensures var t := Judge(segment).text;
            && t <= segment && OnlySpace(segment[|t|..])
            && t[0] == OPEN_BRACE && t[|t| - 1] == CLOSE_BRACE
  {
    TrimEndIsExact(segment);
  }

  lemma EndStays(a: Text, w: Text)
    requires SpaceAtEnd(w) > 0
    ensures SpaceAtEnd(a + w) == SpaceAtEnd(w)
  {
  }

  lemma CutAtEnd(a: Text, w: Text, n: nat)
    requires n <= |w|
    ensures (a + w)[..|a + w| - n] == a + w[..|w| - n]
  {
  }

  lemma {:induction false} OnlySpaceTrims(a: Text, w: Text)
    requires OnlySpace(w) && SpaceAtEnd(a) == 0
    ensures TrimEnd(a + w) == a
    decreases |w|
  {
    if w == [] {
      assert a + w == a;
    } else {
      EndStays(a, w);
      CutAtEnd(a, w, SpaceAtEnd(w));
      OnlySpaceTrims(a, w[..|w| - SpaceAtEnd(w)]);
    }
  }

  /** A record in braces with nothing but white space after it. */
  ghost predicate BracedUpTo(segment: Text, k: nat) {
    && 2 <= k <= |segment| && segment[0] == OPEN_BRACE && segment[k - 1] == CLOSE_BRACE && OnlySpace(segment[k..])
  }

  /**
   How a line is judged, for every line: not UTF-8; blank exactly when it is white space through and
   through; a record exactly when it is braces with white space after them; and malformed otherwise.
   */
  lemma JudgeIs(segment: Text)
    ensures Judge(segment).NotUtf8? <==> !ValidUtf8(segment)
    ensures Judge(segment).Blank? <==> ValidUtf8(segment) && OnlySpace(segment)
    ensures Judge(segment).Line? <==> ValidUtf8(segment) && exists k: nat :: BracedUpTo(segment, k)
    ensures forall k: nat :: ValidUtf8(segment) && BracedUpTo(segment, k) ==> Judge(segment) == Line(segment[..k])
    ensures Judge(segment).Malformed? <==> ValidUtf8(segment) && !OnlySpace(segment) && forall k: nat :: !BracedUpTo(segment, k)
  {
    var t := TrimEnd(segment);
    TrimEndIsExact(segment);
    if OnlySpace(segment) {
      assert [] + segment == segment;
      OnlySpaceTrims([], segment);
    }
    forall k: nat | BracedUpTo(segment, k)
      ensures t == segment[..k] && t[0] == OPEN_BRACE && t[|t| - 1] == CLOSE_BRACE
    {
      assert SpaceAtEnd(segment[..k]) == 0;
      Rejoin(segment, k);
      OnlySpaceTrims(segment[..k], segment[k..]);
    }
    if t == [] {
      assert segment[0..] == segment;
    } else if t[0] == OPEN_BRACE && t[|t| - 1] == CLOSE_BRACE {
      assert BracedUpTo(segment, |t|);
    }
  }

  // ----- the height -----

  /** Where `field` first occurs. */
  function Find(s: Text, field: Text): (i: Option<nat>)
    ensures i.Some? ==> i.value + |field| <= |s|
    decreases |s|
  {
    if |s| < |field| then None
    else if s[..|field|] == field then Some(0)
    else if s == [] then None
    else
      var later := Find(s[1..], field);
      if later.None? then None else Some(later.value + 1)
  }

  predicate OccursAt(s: Text, field: Text, i: nat) {
    i + |field| <= |s| && s[i..i + |field|] == field
  }

  lemma OccursLater(s: Text, field: Text, j: nat)
    requires s != []
    ensures OccursAt(s, field, j + 1) <==> OccursAt(s[1..], field, j)
  {
    if j + 1 + |field| <= |s| {
      assert s[1..][j..j + |field|] == s[j + 1..j + 1 + |field|];
    }
  }

  /** Where an occurrence is the first one, or is none. */
  ghost predicate IsFirst(s: Text, field: Text, r: Option<nat>) {
    && (r.Some? ==> OccursAt(s, field, r.value))
    && (forall j: nat :: (r.Some? ==> j < r.value) ==> !OccursAt(s, field, j))
  }

  lemma FirstMovesUp(s: Text, field: Text, r: Option<nat>)
    requires s != [] && !OccursAt(s, field, 0) && IsFirst(s[1..], field, r)
    ensures IsFirst(s, field, if r.Some? then Some(r.value + 1) else None)
  {
    var up := if r.Some? then Some(r.value + 1) else None;
    if r.Some? {
      OccursLater(s, field, r.value);
    }
    forall j: nat | up.Some? ==> j < up.value
      ensures !OccursAt(s, field, j)
    {
      if j > 0 {
        OccursLater(s, field, j - 1);
      }
    }
  }

  /** The first occurrence is found, and none exactly when there is none. */
  lemma {:induction false} FindIsFirst(s: Text, field: Text)
    ensures IsFirst(s, field, Find(s, field))
    decreases |s|
  {
    if |s| >= |field| && s[..|field|] == field {
      assert OccursAt(s, field, 0);
    } else if s != [] {
      FindIsFirst(s[1..], field);
      FirstMovesUp(s, field, Find(s[1..], field));
      ShorterHasNone(s, field);
    }
  }

  lemma ShorterHasNone(s: Text, field: Text)
    ensures |s| < |field| ==> Find(s, field) == None && forall j: nat :: !OccursAt(s, field, j)
  {
  }

  /** The field looked for is the one named in the node's records. */
  lemma BlockNumberIs()
    ensures BLOCK_NUMBER == Ascii("\"block_number\":")
  {
    var a := Ascii("\"block_number\":");
    assert |a| == 15;
  }

  lemma ControlBytesAre()
    ensures [NEWLINE] == Ascii("\n") && [RETURN] == Ascii("\r") && [OPEN_BRACE] == Ascii("{") && [CLOSE_BRACE] == Ascii("}")
  {
  }

  predicate IsDigit(b: byte) {
    0x30 <= b <= 0x39
  }

  /** How many digits a text begins with. */
  function DigitRun(s: Text): (n: nat)
    ensures n <= |s|
  {
    if s == [] || !IsDigit(s[0]) then 0 else 1 + DigitRun(s[1..])
  }

  function DigitValue(b: byte): nat {
    var n: int := b;
    if n < 0x30 then 0 else n - 0x30
  }

  function FromDigits(ds: Text): nat
    decreases |ds|
  {
    if ds == [] then 0 else FromDigits(ds[..|ds| - 1]) * 10 + DigitValue(ds[|ds| - 1])
  }

  function ToDigits(n: nat): (ds: Text)
    ensures ds != []
    decreases n
  {
    if n < 10 then [0x30 + n] else ToDigits(n / 10) + [0x30 + n % 10]
  }

  /** The number a text begins with after white space; None when there is none or it does not fit 64 bits. */
  function LeadingNumber(s: Text): Option<nat> {
    var t := TrimStart(s);
    var k := DigitRun(t);
    if k == 0 || FromDigits(t[..k]) > U64_MAX then None else Some(FromDigits(t[..k]))
  }

  /** extract_block_number, for the field it looks for. */
  function NumberOf(field: Text, s: Text): Option<nat> {
    var i := Find(s, field);
    if i.None? then None else LeadingNumber(s[i.value + |field|..])
  }

  lemma {:induction false} DigitsReadBack(n: nat)
    ensures FromDigits(ToDigits(n)) == n && forall i :: 0 <= i < |ToDigits(n)| ==> IsDigit(ToDigits(n)[i])
    decreases n
  {
    if n < 10 {
      assert FromDigits([0x30 + n][..0]) == 0;
    } else {
      DigitsReadBack(n / 10);
      var front := ToDigits(n / 10);
      assert (front + [0x30 + n % 10])[..|front|] == front;
    }
  }

  lemma {:induction false} DigitRunIs(ds: Text, rest: Text)
    requires (forall i :: 0 <= i < |ds| ==> IsDigit(ds[i])) && (rest == [] || !IsDigit(rest[0]))
    ensures DigitRun(ds + rest) == |ds|
    decreases |ds|
  {
    if ds == [] {
      assert ds + rest == rest;
    } else {
      assert (ds + rest)[1..] == ds[1..] + rest;
      DigitRunIs(ds[1..], rest);
    }
  }

  lemma {:induction false} FindStays(a: Text, b: Text, field: Text)
    requires Find(a, field).Some?
    ensures Find(a + b, field) == Find(a, field)
    decreases |a|
  {
    assert (a + b)[..|field|] == a[..|field|];
    if a[..|field|] != field {
      assert (a + b)[1..] == a[1..] + b;
      FindStays(a[1..], b, field);
    }
  }

  lemma NumberReads(n: nat, rest: Text)
    requires n <= U64_MAX && (rest == [] || !IsDigit(rest[0]))
    ensures LeadingNumber(ToDigits(n) + rest) == Some(n)
  {
    var ds := ToDigits(n);
    DigitsReadBack(n);
    DigitRunIs(ds, rest);
    assert (ds + rest)[0] == ds[0];
    assert SpaceAtStart(ds + rest) == 0;
    assert (ds + rest)[..|ds|] == ds;
  }

  /** White space from the front on. */
  predicate SpaceFirst(s: Text)
    decreases |s|
  {
    s == [] || (SpaceAtStart(s) > 0 && SpaceFirst(s[SpaceAtStart(s)..]))
  }

  lemma SpaceComesOff(s: Text, n: nat, more: Text)
    requires n == SpaceAtStart(s) && n > 0 && SpaceFirst(more)
    ensures SpaceFirst(s[..n] + more)
  {
    var sp := s[..n] + more;
    assert forall i :: 0 <= i < n ==> sp[i] == s[i];
    assert SpaceAtStart(sp) == n;
    assert sp[n..] == more;
  }

  lemma {:induction false} TrimStartIs(s: Text) returns (sp: Text)
    ensures s == sp + TrimStart(s) && SpaceAtStart(TrimStart(s)) == 0
    ensures SpaceFirst(sp)
    decreases |s|
  {
    var n := SpaceAtStart(s);
    if n == 0 {
      sp := [];
      assert s == [] + s;
    } else {
      var later := s[n..];
      assert TrimStart(s) == TrimStart(later);
      var more := TrimStartIs(later);
      sp := s[..n] + more;
      SpaceComesOff(s, n, more);
      TwoParts(s, n, more, TrimStart(later));
    }
  }

  lemma TwoParts(s: Text, n: nat, a: Text, b: Text)
    requires n <= |s| && s[n..] == a + b
    ensures s == (s[..n] + a) + b
  {
    Regroup(s[..n], a, b);
    assert s == s[..n] + s[n..];
  }

  lemma {:induction false} DigitRunStops(s: Text)
    ensures var k := DigitRun(s);
            && (forall i :: 0 <= i < k ==> IsDigit(s[i]))
            && (k < |s| ==> !IsDigit(s[k]))
  {
    if s != [] && IsDigit(s[0]) {
      DigitRunStops(s[1..]);
    }
  }

  /** What is read off the front of any text: its digits after white space, when there are some and they fit 64 bits. */
  lemma LeadingNumberIs(s: Text) returns (sp: Text, ds: Text, rest: Text)
    ensures s == sp + (ds + rest) && SpaceFirst(sp) && SpaceAtStart(ds + rest) == 0
    ensures (forall i :: 0 <= i < |ds| ==> IsDigit(ds[i])) && (rest == [] || !IsDigit(rest[0]))
    ensures LeadingNumber(s) == if ds == [] || FromDigits(ds) > U64_MAX then None else Some(FromDigits(ds))
  {
    sp := TrimStartIs(s);
    var t := TrimStart(s);
    DigitRunStops(t);
    ds, rest := t[..DigitRun(t)], t[DigitRun(t)..];
    Rejoin(t, DigitRun(t));
  }

  /** A height written after the first occurrence of its field is the one read, whatever follows it. */
  lemma HeightIsReadBack(field: Text, head: Text, n: nat, rest: Text)
    requires n <= U64_MAX && (rest == [] || !IsDigit(rest[0]))
    requires Find(head + field, field) == Some(|head|)
    ensures NumberOf(field, (head + field) + (ToDigits(n) + rest)) == Some(n)
  {
    var s := (head + field) + (ToDigits(n) + rest);
    FindStays(head + field, ToDigits(n) + rest, field);
    assert s[|head| + |field|..] == ToDigits(n) + rest;
    NumberReads(n, rest);
  }

  // ----- what is written is what is delivered -----

  function NodeFormat(field: Text): Format {
    Format(Judge, (t: Text) => NumberOf(field, t))
  }

  function Written(records: seq<Text>): Text {
    if records == [] then [] else (records[0] + [NEWLINE]) + Written(records[1..])
  }

  lemma {:induction false} WrittenIsSplit(field: Text, records: seq<Text>)
    requires forall i :: 0 <= i < |records| ==> IsRecord(records[i])
    ensures var lines := Whole(Written(records));
            && Records(NodeFormat(field), lines) == records && !AnyCorrupt(NodeFormat(field), lines)
            && Tail(Written(records)) == []
  {
    if records != [] {
      var line := records[0] + [NEWLINE];
      assert IsRecord(records[0]);
      assert line[..|line| - 1] == records[0];
      RecordIsReadBack(records[0]);
      WrittenIsSplit(field, records[1..]);
      LineComesOff(line, Written(records[1..]));
      OneRecordMore(NodeFormat(field), line, records[0], Whole(Written(records[1..])));
      assert [records[0]] + records[1..] == records;
    }
  }

  lemma OneRecordMore(fmt: Format, line: Text, t: Text, lines: seq<Text>)
    requires fmt.kind(line) == Line(t)
    ensures Records(fmt, [line] + lines) == [t] + Records(fmt, lines)
    ensures AnyCorrupt(fmt, [line] + lines) == AnyCorrupt(fmt, lines)
  {
    assert ([line] + lines)[1..] == lines;
  }

  /** However a file of records is cut into reads, exactly those records are delivered, in order, and nothing is flagged. */
  lemma NodeFileIsDelivered(records: seq<Text>, chunks: seq<Text>)
    requires forall i :: 0 <= i < |records| ==> IsRecord(records[i])
    requires Concat(chunks) == Written(records) && NoneTooLong(Written(records))
    ensures FeedAll(NodeFormat(BLOCK_NUMBER), NEW_READER, chunks) == Reader([], records, false)
  {
    ReassemblyIsChunkIndependent(NodeFormat(BLOCK_NUMBER), chunks);
    WrittenIsSplit(BLOCK_NUMBER, records);
  }

  /** A height written after the first occurrence of the node's own field is the one its format reads. */
  lemma NodeHeightIsReadBack(head: Text, n: nat, rest: Text)
    requires n <= U64_MAX && (rest == [] || !IsDigit(rest[0]))
    requires Find(head + BLOCK_NUMBER, BLOCK_NUMBER) == Some(|head|)
    ensures NodeFormat(BLOCK_NUMBER).height((head + BLOCK_NUMBER) + (ToDigits(n) + rest)) == Some(n)
  {
    HeightIsReadBack(BLOCK_NUMBER, head, n, rest);
  }

  // ----- the head of a file -----

  /** A file that can be read, with the height first_block_number finds in its first bytes. */
  function NodeFile(field: Text, content: Text): Backfill.File {
    Backfill.File(content, NumberOf(field, content[..Min(HEAD_BYTES, |content|)]), true)
  }

  /** A field that stands nowhere within the first 8 KB leaves the head unreadable, whatever comes later. */
  lemma LateHeightIsUnreadable(field: Text, content: Text)
    requires forall i: nat :: OccursAt(content, field, i) ==> i + |field| > 8192
    ensures NodeFile(field, content).head.None?
  {
    var front := content[..Min(HEAD_BYTES, |content|)];
    FindIsFirst(front, field);
    var r := Find(front, field);
    if r.Some? {
      assert front[r.value..r.value + |field|] == content[r.value..r.value + |field|];
      assert OccursAt(content, field, r.value);
    }
  }

  lemma HeadBytesAre(a: Text, tail: Text, rest: Text, k: nat)
    requires |a| < k <= |a + tail + rest| && tail != []
    ensures exists more :: (a + tail + rest)[..k] == a + more && more != [] && more[0] == tail[0]
  {
    var s := a + tail + rest;
    var more := s[|a|..k];
    assert s[..k] == a + more;
    assert more[0] == s[|a|] == tail[0];
  }

  /** A file whose first record has its height within the first bytes has a readable head. */
  lemma NodeHeadIsReadable(field: Text, head: Text, n: nat, tail: Text, rest: Text)
    requires n <= U64_MAX && tail != [] && !IsDigit(tail[0]) && Find(head + field, field) == Some(|head|)
    requires |(head + field) + ToDigits(n)| < 8192 && IsRecord(((head + field) + ToDigits(n)) + tail)
    ensures var record := ((head + field) + ToDigits(n)) + tail;
            var f := NodeFile(field, (record + [NEWLINE]) + rest);
            f.head == Some(n) && Backfill.HeadReadable(NodeFormat(field), f)
  {
    var a := (head + field) + ToDigits(n);
    var record := a + tail;
    HeadHeightIs(field, head, n, tail, [NEWLINE] + rest);
    Regroup(record, [NEWLINE], rest);
    Regroup(head + field, ToDigits(n), tail);
    HeightIsReadBack(field, head, n, tail);
    FirstRecordIs(field, record, rest);
  }

  lemma HeadHeightIs(field: Text, head: Text, n: nat, tail: Text, rest: Text)
    requires n <= U64_MAX && tail != [] && !IsDigit(tail[0]) && Find(head + field, field) == Some(|head|)
    requires |(head + field) + ToDigits(n)| < HEAD_BYTES
    ensures var content := (((head + field) + ToDigits(n)) + tail) + rest;
            NumberOf(field, content[..Min(HEAD_BYTES, |content|)]) == Some(n)
  {
    var a := (head + field) + ToDigits(n);
    var content := (a + tail) + rest;
    var k := Min(HEAD_BYTES, |content|);
    HeadBytesAre(a, tail, rest, k);
    var more :| content[..k] == a + more && more != [] && more[0] == tail[0];
    Regroup(head + field, ToDigits(n), more);
    HeightIsReadBack(field, head, n, more);
  }

  lemma FirstRecordIs(field: Text, record: Text, rest: Text)
    requires IsRecord(record)
    ensures var rs := Records(NodeFormat(field), Whole((record + [NEWLINE]) + rest)); rs != [] && rs[0] == record
  {
    var line := record + [NEWLINE];
    assert line[..|line| - 1] == record;
    RecordIsReadBack(record);
    LineComesOff(line, rest);
    OneRecordMore(NodeFormat(field), line, record, Whole(rest));
  }
}
