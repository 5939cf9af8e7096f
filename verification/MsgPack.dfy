/**
 MessagePack, after the "Formats" section of its specification: a value is a header, payload
 bytes and nested values. Bytes begin with at most one value, and reading finds exactly it.
 */
module MsgPack {
  import opened Types
  import opened Utf8

  // ----- the format -----

  /** Where a length is written: in the first byte, or in so many bytes after it. */
  datatype Form = Fix | One | Two | Four

  datatype Header =
    | Atom(tag: byte)     // nil, false, true and the fixints
    | Number(tag: byte)   // integers and floats of a fixed width
    | Text(form: Form, len: nat)
    | Binary(form: Form, len: nat)
    | Extension(form: Form, len: nat)
    | List(form: Form, len: nat)
    | Dict(form: Form, len: nat)

  /** `items` are the elements of a list, or the keys and values of a dict alternately. */
  datatype Value = Value(head: Header, payload: seq<byte>, items: seq<Value>)

  /** Payload width of the fixed-width numbers; 0 for any other first byte. */
  function NumberWidth(tag: byte): nat {
    match tag
    case 0xcc => 1 case 0xd0 => 1
    case 0xcd => 2 case 0xd1 => 2
    case 0xca => 4 case 0xce => 4 case 0xd2 => 4
    case 0xcb => 8 case 0xcf => 8 case 0xd3 => 8
    case _ => 0
  }

  predicate IsAtom(tag: byte) {
    tag <= 0x7f || 0xe0 <= tag || tag == 0xc0 || tag == 0xc2 || tag == 0xc3
  }

  function FormWidth(form: Form): nat {
    match form case Fix => 0 case One => 1 case Two => 2 case Four => 4
  }

  predicate Fits(form: Form, len: nat) {
    match form case Fix => false case One => len < 0x100 case Two => len < 0x1_0000 case Four => len < 0x1_0000_0000
  }

  predicate ValidHeader(h: Header) {
    match h
    case Atom(tag) => IsAtom(tag)
    case Number(tag) => NumberWidth(tag) > 0
    case Text(form, len) => if form == Fix then len < 32 else Fits(form, len)
    case Binary(form, len) => Fits(form, len)
    case Extension(form, len) => if form == Fix then len == 1 || len == 2 || len == 4 || len == 8 || len == 16 else Fits(form, len)
    case List(form, len) => form != One && (if form == Fix then len < 16 else Fits(form, len))
    case Dict(form, len) => form != One && (if form == Fix then len < 16 else Fits(form, len))
  }

  function Pick3(form: Form, one: byte, two: byte, four: byte): byte {
    match form case Fix => 0 case One => one case Two => two case Four => four
  }

  /** The first byte. */
  function Tag(h: Header): byte
    requires ValidHeader(h)
  {
    match h
    case Atom(tag) => tag
    case Number(tag) => tag
    case Text(form, len) => if form == Fix then 0xa0 + len else Pick3(form, 0xd9, 0xda, 0xdb)
    case Binary(form, len) => Pick3(form, 0xc4, 0xc5, 0xc6)
    case Extension(form, len) =>
      if form == Fix then (match len case 1 => 0xd4 case 2 => 0xd5 case 4 => 0xd6 case 8 => 0xd7 case _ => 0xd8)
      else Pick3(form, 0xc7, 0xc8, 0xc9)
    case List(form, len) => if form == Fix then 0x90 + len else Pick3(form, 0, 0xdc, 0xdd)
    case Dict(form, len) => if form == Fix then 0x80 + len else Pick3(form, 0, 0xde, 0xdf)
  }

  function LenWidth(h: Header): nat {
    if h.Atom? || h.Number? then 0 else FormWidth(h.form)
  }

  function PayloadLen(h: Header): nat {
    match h
    case Number(tag) => NumberWidth(tag)
    case Text(_, len) => len
    case Binary(_, len) => len
    case Extension(_, len) => len + 1
    case _ => 0
  }

  function ItemCount(h: Header): nat {
    match h
    case List(_, len) => len
    case Dict(_, len) => 2 * len
    case _ => 0
  }

  /** `n` as `w` bytes, most significant first. */
  function ToBe(n: nat, w: nat): (bs: seq<byte>)
    ensures |bs| == w
  {
    if w == 0 then [] else ToBe(n / 256, w - 1) + [n % 256]
  }

  function FromBe(bs: seq<byte>): nat {
    if bs == [] then 0 else FromBe(bs[..|bs| - 1]) * 256 + bs[|bs| - 1]
  }

  predicate ValidValue(v: Value)
    decreases v
  {
    ValidHeader(v.head) && |v.payload| == PayloadLen(v.head) && |v.items| == ItemCount(v.head) && AllValid(v.items)
  }

  predicate AllValid(vs: seq<Value>)
    decreases vs
  {
    vs == [] || (ValidValue(vs[0]) && AllValid(vs[1..]))
  }

  function EncodeHeader(h: Header): seq<byte>
    requires ValidHeader(h)
  {
    [Tag(h)] + if LenWidth(h) == 0 then [] else ToBe(h.len, LenWidth(h))
  }

  /** The encoding of a value, followed by `rest`. */
  function Encode(v: Value, rest: seq<byte>): seq<byte>
    requires ValidValue(v)
    decreases v
  {
    EncodeHeader(v.head) + (v.payload + EncodeAll(v.items, rest))
  }

  function EncodeAll(vs: seq<Value>, rest: seq<byte>): seq<byte>
    requires AllValid(vs)
    decreases vs
  {
    if vs == [] then rest else Encode(vs[0], EncodeAll(vs[1..], rest))
  }

  // ----- reading -----

  /** The header a first byte announces, its length still to be read when it is not in that byte. */
  function HeadOf(m: byte): Option<Header> {
    if IsAtom(m) then Some(Atom(m))
    else if NumberWidth(m) > 0 then Some(Number(m))
    else if m <= 0x8f then Some(Dict(Fix, m - 0x80))
    else if m <= 0x9f then Some(List(Fix, m - 0x90))
    else if m <= 0xbf then Some(Text(Fix, m - 0xa0))
    else
      match m
      case 0xc4 => Some(Binary(One, 0)) case 0xc5 => Some(Binary(Two, 0)) case 0xc6 => Some(Binary(Four, 0))
      case 0xc7 => Some(Extension(One, 0)) case 0xc8 => Some(Extension(Two, 0)) case 0xc9 => Some(Extension(Four, 0))
      case 0xd4 => Some(Extension(Fix, 1)) case 0xd5 => Some(Extension(Fix, 2)) case 0xd6 => Some(Extension(Fix, 4))
      case 0xd7 => Some(Extension(Fix, 8)) case 0xd8 => Some(Extension(Fix, 16))
      case 0xd9 => Some(Text(One, 0)) case 0xda => Some(Text(Two, 0)) case 0xdb => Some(Text(Four, 0))
      case 0xdc => Some(List(Two, 0)) case 0xdd => Some(List(Four, 0))
      case 0xde => Some(Dict(Two, 0)) case 0xdf => Some(Dict(Four, 0))
      case _ => None
  }

  function WithLen(h: Header, n: nat): Header {
    match h
    case Atom(_) => h
    case Number(_) => h
    case Text(form, _) => Text(form, n)
    case Binary(form, _) => Binary(form, n)
    case Extension(form, _) => Extension(form, n)
    case List(form, _) => List(form, n)
    case Dict(form, _) => Dict(form, n)
  }

  datatype Read<T> = Got(value: T, rest: seq<byte>) | Bad

  function ReadHeader(s: seq<byte>): Read<Header> {
    if s == [] || HeadOf(s[0]).None? then Bad
    else
      var h := HeadOf(s[0]).value;
      var w := LenWidth(h);
      var t := s[1..];
      if w == 0 then Got(h, t) else if |t| < w then Bad else Got(WithLen(h, FromBe(t[..w])), t[w..])
  }

  function Parse(s: seq<byte>): (r: Read<Value>)
    ensures r.Got? ==> |r.rest| < |s|
    decreases |s|, 0
  {
    var h := ReadHeader(s);
    if h.Bad? || |h.rest| < PayloadLen(h.value) then Bad
    else
      var n := PayloadLen(h.value);
      var items := ParseAll(h.rest[n..], ItemCount(h.value));
      if items.Bad? then Bad else Got(Value(h.value, h.rest[..n], items.value), items.rest)
  }

  function ParseAll(s: seq<byte>, n: nat): (r: Read<seq<Value>>)
    ensures r.Got? ==> |r.rest| <= |s| && |r.value| == n
    decreases |s|, n + 1
  {
    if n == 0 then Got([], s)
    else
      var v := Parse(s);
      if v.Bad? then Bad
      else
        var vs := ParseAll(v.rest, n - 1);
        if vs.Bad? then Bad else Got([v.value] + vs.value, vs.rest)
  }

  // ----- headers round trip -----

  lemma {:induction false} BeRoundTrip(n: nat, w: nat)
    requires (w == 1 && n < 0x100) || (w == 2 && n < 0x1_0000) || (w == 4 && n < 0x1_0000_0000) || (w == 8 && n <= U64_MAX)
    ensures FromBe(ToBe(n, w)) == n
  {
    BeIsExact(n, w);
    assert Pow256(1) == 0x100 && Pow256(2) == 0x1_0000;
    assert Pow256(4) == 0x1_0000_0000;
    assert Pow256(8) == U64_MAX + 1;
  }

  function Pow256(w: nat): nat {
    if w == 0 then 1 else 256 * Pow256(w - 1)
  }

  lemma {:induction false} BeIsExact(n: nat, w: nat)
    ensures n < Pow256(w) ==> FromBe(ToBe(n, w)) == n
  {
    if w > 0 {
      BeIsExact(n / 256, w - 1);
      var bs := ToBe(n / 256, w - 1);
      assert (bs + [n % 256])[..w - 1] == bs;
    }
  }

  lemma {:induction false} BeBack(bs: seq<byte>)
    ensures ToBe(FromBe(bs), |bs|) == bs && FromBe(bs) < Pow256(|bs|)
  {
    if bs != [] {
      BeBack(bs[..|bs| - 1]);
      assert bs == bs[..|bs| - 1] + [bs[|bs| - 1]];
    }
  }

  lemma BeFits(form: Form, bs: seq<byte>)
    requires form != Fix && |bs| == FormWidth(form)
    ensures Fits(form, FromBe(bs))
  {
    BeBack(bs);
    assert Pow256(1) == 0x100 && Pow256(2) == 0x1_0000;
    assert Pow256(4) == 0x1_0000_0000;
  }

  /** The first byte determines everything but a length written after it. */
  lemma TagDeterminesHeader(h: Header)
    requires ValidHeader(h)
    ensures HeadOf(Tag(h)) == Some(if LenWidth(h) == 0 then h else WithLen(h, 0))
  {
  }

  lemma HeadOfHasTag(m: byte)
    requires HeadOf(m).Some?
    ensures var h := HeadOf(m).value;
            if LenWidth(h) == 0 then ValidHeader(h) && Tag(h) == m
            else forall n :: Fits(h.form, n) ==> ValidHeader(WithLen(h, n)) && Tag(WithLen(h, n)) == m
  {
  }

  lemma HeaderRoundTrip(h: Header, rest: seq<byte>)
    requires ValidHeader(h)
    ensures ReadHeader(EncodeHeader(h) + rest) == Got(h, rest)
  {
    var s := EncodeHeader(h) + rest;
    TagDeterminesHeader(h);
    var w := LenWidth(h);
    assert s[0] == Tag(h);
    if w > 0 {
      assert s[1..] == ToBe(h.len, w) + rest;
      BeRoundTrip(h.len, w);
    } else {
      assert s[1..] == rest;
    }
  }

  lemma HeaderSound(s: seq<byte>)
    requires ReadHeader(s).Got?
    ensures var r := ReadHeader(s); ValidHeader(r.value) && s == EncodeHeader(r.value) + r.rest
  {
    HeadOfHasTag(s[0]);
    var h := HeadOf(s[0]).value;
    var w := LenWidth(h);
    if w > 0 {
      BeFits(h.form, s[1..][..w]);
      BeBack(s[1..][..w]);
      assert s == [s[0]] + s[1..][..w] + s[1..][w..];
    } else {
      assert s == [s[0]] + [] + s[1..];
    }
  }

  // ----- values round trip -----

  /** Whatever was encoded is read back, and the cursor lands exactly after it. */
  lemma {:induction false} ParseRoundTrip(v: Value, rest: seq<byte>)
    requires ValidValue(v)
    ensures Parse(Encode(v, rest)) == Got(v, rest)
    decreases v
  {
    var tail := EncodeAll(v.items, rest);
    HeaderRoundTrip(v.head, v.payload + tail);
    var n := |v.payload|;
    assert (v.payload + tail)[..n] == v.payload && (v.payload + tail)[n..] == tail;
    ParseAllRoundTrip(v.items, rest);
  }

  lemma {:induction false} ParseAllRoundTrip(vs: seq<Value>, rest: seq<byte>)
    requires AllValid(vs)
    ensures ParseAll(EncodeAll(vs, rest), |vs|) == Got(vs, rest)
    decreases vs
  {
    if vs != [] {
      ParseRoundTrip(vs[0], EncodeAll(vs[1..], rest));
      ParseAllRoundTrip(vs[1..], rest);
      ParseOneMore(EncodeAll(vs, rest), vs, EncodeAll(vs[1..], rest), rest);
    }
  }

  lemma ParseOneMore(s: seq<byte>, vs: seq<Value>, s': seq<byte>, rest: seq<byte>)
    requires vs != [] && Parse(s) == Got(vs[0], s') && ParseAll(s', |vs| - 1) == Got(vs[1..], rest)
    ensures ParseAll(s, |vs|) == Got(vs, rest)
  {
    assert [vs[0]] + vs[1..] == vs;
  }

  /** Whatever is read was a well-formed value, and what is left is what follows it. */
  lemma {:induction false} ParseSound(s: seq<byte>)
    requires Parse(s).Got?
    ensures ValidValue(Parse(s).value) && Encode(Parse(s).value, Parse(s).rest) == s
    decreases |s|, 0
  {
    HeaderSound(s);
    var h := ReadHeader(s);
    var n := PayloadLen(h.value);
    ParseAllSound(h.rest[n..], ItemCount(h.value));
    var items := ParseAll(h.rest[n..], ItemCount(h.value));
    EncodeParts(s, h.value, h.rest, h.rest[..n], items.value, items.rest);
  }

  lemma EncodeParts(s: seq<byte>, h: Header, t: seq<byte>, payload: seq<byte>, items: seq<Value>, rest: seq<byte>)
    requires ValidHeader(h) && s == EncodeHeader(h) + t && |payload| == PayloadLen(h) <= |t| && payload == t[..|payload|]
    requires AllValid(items) && |items| == ItemCount(h) && EncodeAll(items, rest) == t[|payload|..]
    ensures ValidValue(Value(h, payload, items)) && Encode(Value(h, payload, items), rest) == s
  {
    assert t == payload + t[|payload|..];
  }

  lemma {:induction false} ParseAllSound(s: seq<byte>, n: nat)
    requires ParseAll(s, n).Got?
    ensures AllValid(ParseAll(s, n).value) && EncodeAll(ParseAll(s, n).value, ParseAll(s, n).rest) == s
    decreases |s|, n + 1
  {
    if n > 0 {
      ParseSound(s);
      var v := Parse(s);
      ParseAllSound(v.rest, n - 1);
      var vs := ParseAll(v.rest, n - 1).value;
      assert ([v.value] + vs)[1..] == vs;
    }
  }

  ghost predicate BeginsWithValue(s: seq<byte>) {
    exists v, rest :: ValidValue(v) && s == Encode(v, rest)
  }

  /** A value can be read exactly when the bytes begin with one well-formed value. */
  lemma ParsesIffBeginsWithValue(s: seq<byte>)
    ensures Parse(s).Got? <==> BeginsWithValue(s)
  {
    if Parse(s).Got? {
      ParseSound(s);
    }
    if BeginsWithValue(s) {
      var v, rest :| ValidValue(v) && s == Encode(v, rest);
      ParseRoundTrip(v, rest);
    }
  }

  /** No encoding is a proper prefix of another: bytes begin with at most one value. */
  lemma EncodingIsPrefixFree(v: Value, a: seq<byte>, w: Value, b: seq<byte>)
    requires ValidValue(v) && ValidValue(w) && Encode(v, a) == Encode(w, b)
    ensures v == w && a == b
  {
    ParseRoundTrip(v, a);
    ParseRoundTrip(w, b);
  }

  // ----- the table of formats -----

  /** The bytes s[i..i + w] as a number, most significant first; 0 when they are not all there. */
  function BytesAt(s: seq<byte>, i: nat, w: nat): nat {
    if w == 0 || i + w > |s| then 0 else BytesAt(s, i, w - 1) * 256 + s[i + w - 1]
  }

  /** A header of so many bytes, of a value with so many payload bytes and so many values inside. */
  datatype Format = Format(header: nat, payload: nat, items: nat)

  /** First bytes and what follows them, as the specification tabulates it; only 0xc1 is never used. */
  function FormatOf(s: seq<byte>): Option<Format>
    requires s != []
  {
    var m: nat := s[0];
    if m < 0x80 then Some(Format(1, 0, 0))                                    // positive fixint
    else if m < 0x90 then Some(Format(1, 0, 2 * (m % 16)))                    // fixmap
    else if m < 0xa0 then Some(Format(1, 0, m % 16))                          // fixarray
    else if m < 0xc0 then Some(Format(1, m % 32, 0))                          // fixstr
    else if m == 0xc1 then None
    else if m < 0xc4 then Some(Format(1, 0, 0))                               // nil, false, true
    else if m < 0xc7 then var w := Widths(m - 0xc4); Some(Format(1 + w, BytesAt(s, 1, w), 0))      // bin 8, 16, 32
    else if m < 0xca then var w := Widths(m - 0xc7); Some(Format(1 + w, BytesAt(s, 1, w) + 1, 0))  // ext 8, 16, 32
    else if m < 0xcc then Some(Format(1, 4 * (m - 0xc9), 0))                  // float 32, 64
    else if m < 0xce then Some(Format(1, m - 0xcb, 0))                        // uint 8, 16
    else if m < 0xd0 then Some(Format(1, 4 * (m - 0xcd), 0))                  // uint 32, 64
    else if m < 0xd2 then Some(Format(1, m - 0xcf, 0))                        // int 8, 16
    else if m < 0xd4 then Some(Format(1, 4 * (m - 0xd1), 0))                  // int 32, 64
    else if m < 0xd9 then Some(Format(1, [2, 3, 5, 9, 17][m - 0xd4], 0))      // fixext 1, 2, 4, 8, 16
    else if m < 0xdc then var w := Widths(m - 0xd9); Some(Format(1 + w, BytesAt(s, 1, w), 0))      // str 8, 16, 32
    else if m < 0xde then var w := Widths(m - 0xdb); Some(Format(1 + w, 0, BytesAt(s, 1, w)))      // array 16, 32
    else if m < 0xe0 then var w := Widths(m - 0xdd); Some(Format(1 + w, 0, 2 * BytesAt(s, 1, w)))  // map 16, 32
    else Some(Format(1, 0, 0))                                                // negative fixint
  }

  function Widths(i: nat): nat {
    if i == 0 then 1 else if i == 1 then 2 else 4
  }

  lemma {:induction false} BytesAreFromBe(s: seq<byte>, w: nat)
    requires 1 + w <= |s|
    ensures BytesAt(s, 1, w) == FromBe(s[1..][..w])
  {
    if w > 0 {
      BytesAreFromBe(s, w - 1);
      assert s[1..][..w][..w - 1] == s[1..][..w - 1];
    }
  }

  /** A header is read exactly when its bytes are there, and it announces what the table says. */
  lemma HeaderFollowsTable(s: seq<byte>)
    requires s != []
    ensures FormatOf(s).None? ==> ReadHeader(s).Bad?
    ensures FormatOf(s).Some? ==>
              var f, h := FormatOf(s).value, ReadHeader(s);
              && (h.Got? <==> f.header <= |s|)
              && (h.Got? ==> h.rest == s[f.header..] && PayloadLen(h.value) == f.payload && ItemCount(h.value) == f.items)
  {
    if HeadOf(s[0]).Some? {
      var w := LenWidth(HeadOf(s[0]).value);
      if 1 + w <= |s| {
        BytesAreFromBe(s, w);
        assert s[1..][w..] == s[1 + w..];
      }
    }
  }

  // ----- text, integers and maps -----

  /** A value that is a readable string. */
  predicate IsText(v: Value) {
    v.head.Text? && ValidUtf8(v.payload)
  }

  function ReadText(s: seq<byte>): Read<seq<byte>> {
    var h := ReadHeader(s);
    if h.Bad? || !h.value.Text? || |h.rest| < h.value.len || !ValidUtf8(h.rest[..h.value.len]) then Bad
    else Got(h.rest[..h.value.len], h.rest[h.value.len..])
  }

  /** The unsigned integer a value encodes, if it does. */
  function UintOf(v: Value): Option<nat> {
    if v.head.Atom? && v.head.tag <= 0x7f then Some(v.head.tag)
    else if v.head.Number? && 0xcc <= v.head.tag <= 0xcf then Some(FromBe(v.payload))
    else None
  }

  function ReadUint(s: seq<byte>): Read<nat> {
    var h := ReadHeader(s);
    if h.Bad? then Bad
    else if h.value.Atom? && h.value.tag <= 0x7f then Got(h.value.tag, h.rest)
    else if h.value.Number? && 0xcc <= h.value.tag <= 0xcf && NumberWidth(h.value.tag) <= |h.rest| then
      var w := NumberWidth(h.value.tag);
      Got(FromBe(h.rest[..w]), h.rest[w..])
    else Bad
  }

  function ReadDictLen(s: seq<byte>): Read<nat> {
    var h := ReadHeader(s);
    if h.Bad? || !h.value.Dict? then Bad else Got(h.value.len, h.rest)
  }

  /** A text is read exactly where one is encoded. */
  lemma TextIff(s: seq<byte>)
    ensures ReadText(s).Got? <==> Parse(s).Got? && IsText(Parse(s).value)
    ensures ReadText(s).Got? ==> ReadText(s) == Got(Parse(s).value.payload, Parse(s).rest)
  {
    var h := ReadHeader(s);
    if h.Got? && h.value.Text? && h.value.len <= |h.rest| {
      assert ParseAll(h.rest[h.value.len..], 0) == Got([], h.rest[h.value.len..]);
    }
  }

  /** An unsigned integer is read exactly where one is encoded. */
  lemma UintIff(s: seq<byte>)
    ensures ReadUint(s).Got? <==> Parse(s).Got? && UintOf(Parse(s).value).Some?
    ensures ReadUint(s).Got? ==> ReadUint(s) == Got(UintOf(Parse(s).value).value, Parse(s).rest)
  {
    var h := ReadHeader(s);
    if h.Got? && (h.value.Atom? || h.value.Number?) {
      var w := PayloadLen(h.value);
      if w <= |h.rest| {
        assert ParseAll(h.rest[w..], 0) == Got([], h.rest[w..]);
        assert h.rest[0..] == h.rest;
      }
    }
    if h.Got? && h.value.Number? {
      HeaderSound(s);
    }
  }
}
