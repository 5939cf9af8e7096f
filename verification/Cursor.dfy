/** The cursor over MessagePack bytes, in the form the server runs it. */
module Cursor {
  import opened Types
  import opened Utf8
  import opened MsgPack
  import opened StateHeight

  /** How many bytes after the first one hold a length or a count. */
  function LenBytes(m: byte): nat {
    match m
    case 0xc4 => 1 case 0xc7 => 1 case 0xd9 => 1
    case 0xc5 => 2 case 0xc8 => 2 case 0xda => 2 case 0xdc => 2 case 0xde => 2
    case 0xc6 => 4 case 0xc9 => 4 case 0xdb => 4 case 0xdd => 4 case 0xdf => 4
    case _ => 0
  }

  /** Payload bytes and nested values announced by the first byte alone. */
  method FixedShape(m: byte) returns (payload: nat, items: nat)
    requires m != 0xc1 && LenBytes(m) == 0
    ensures HeadOf(m).Some? && LenWidth(HeadOf(m).value) == 0
    ensures payload == PayloadLen(HeadOf(m).value) && items == ItemCount(HeadOf(m).value)
  {
    payload, items := 0, 0;
    if m <= 0x7f || 0xe0 <= m || m == 0xc0 || m == 0xc2 || m == 0xc3 {
    } else if m <= 0x8f {
      items := 2 * (m - 0x80);
    } else if m <= 0x9f {
      items := m - 0x90;
    } else if m <= 0xbf {
      payload := m - 0xa0;
    } else if m == 0xcc || m == 0xd0 {
      payload := 1;
    } else if m == 0xcd || m == 0xd1 {
      payload := 2;
    } else if m == 0xca || m == 0xce || m == 0xd2 {
      payload := 4;
    } else if m == 0xcb || m == 0xcf || m == 0xd3 {
      payload := 8;
    } else {
      payload := if m == 0xd4 then 2 else if m == 0xd5 then 3 else if m == 0xd6 then 5 else if m == 0xd7 then 9 else 17;
    }
  }

  /** Payload bytes and nested values announced by the first byte and the length after it. */
  method SizedShape(m: byte, n: nat) returns (payload: nat, items: nat)
    requires LenBytes(m) > 0
    ensures HeadOf(m).Some? && LenWidth(HeadOf(m).value) == LenBytes(m)
    ensures payload == PayloadLen(WithLen(HeadOf(m).value, n)) && items == ItemCount(WithLen(HeadOf(m).value, n))
  {
    payload, items := 0, 0;
    if m == 0xdc || m == 0xdd {
      items := n;
    } else if m == 0xde || m == 0xdf {
      items := 2 * n;
    } else {
      payload := if 0xc7 <= m <= 0xc9 then n + 1 else n;
    }
  }

  lemma LenBytesIsLenWidth(m: byte)
    ensures m != 0xc1 ==> HeadOf(m).Some? && LenWidth(HeadOf(m).value) == LenBytes(m)
    ensures HeadOf(0xc1).None?
  {
  }

  lemma UintAt(s: seq<byte>, w: nat)
    requires s != [] && 0xcc <= s[0] <= 0xcf && w == NumberWidth(s[0])
    ensures ReadUint(s) == if |s[1..]| < w then Bad else Got(FromBe(s[1..][..w]), s[1..][w..])
  {
    assert HeadOf(s[0]) == Some(Number(s[0]));
    assert ReadHeader(s) == Got(Number(s[0]), s[1..]);
  }

  /** The header of a text, first byte by first byte; no other byte announces one. */
  lemma TextHeadAt(s: seq<byte>)
    requires s != []
    ensures var h, m, t := ReadHeader(s), s[0], s[1..];
            if 0xa0 <= m <= 0xbf then h == Got(Text(Fix, m - 0xa0), t)
            else if 0xd9 <= m <= 0xdb then (
              var w := if m == 0xd9 then 1 else if m == 0xda then 2 else 4;
              if |t| < w then h.Bad? else h.Got? && h.value.Text? && h.value.len == FromBe(t[..w]) && h.rest == t[w..])
            else h.Bad? || !h.value.Text?
  {
  }

  lemma NoUintAt(s: seq<byte>)
    requires s != [] && 0x7f < s[0] && !(0xcc <= s[0] <= 0xcf)
    ensures ReadUint(s).Bad?
  {
  }

  /** Bytes and a position that only moves forward and never past the end. */
  class MsgPackCursor {
    const buf: seq<byte>
    var pos: nat
    ghost const next: Reader

    ghost predicate Valid()
      reads this
    {
      pos <= |buf| && IsParser(next)
    }

    /** What is still to be read. */
    ghost function Rest(): seq<byte>
      requires Valid()
      reads this
    {
      buf[pos..]
    }

    constructor (buf: seq<byte>)
      ensures Valid() && this.buf == buf && Rest() == buf
    {
      this.buf, pos, next := buf, 0, Parse;
    }

    method NextByte() returns (r: Option<byte>)
      requires Valid()
      modifies this
      ensures Valid() && old(pos) <= pos
      ensures if old(Rest()) == [] then r == None && Rest() == old(Rest()) else r == Some(old(Rest())[0]) && Rest() == old(Rest())[1..]
    {
      if pos == |buf| {
        return None;
      }
      r := Some(buf[pos]);
      pos := pos + 1;
    }

    method NextBytes(n: nat) returns (r: Option<seq<byte>>)
      requires Valid()
      modifies this
      ensures Valid() && old(pos) <= pos
      ensures if |old(Rest())| < n then r == None else r == Some(old(Rest())[..n]) && Rest() == old(Rest())[n..]
    {
      if pos + n > |buf| {
        return None;
      }
      r := Some(buf[pos..pos + n]);
      assert r.value == buf[pos..][..n];
      pos := pos + n;
    }

    /** The number whose most significant byte comes first in the next `n`. */
    method BigEndian(n: nat) returns (r: Option<nat>)
      requires Valid()
      modifies this
      ensures Valid() && old(pos) <= pos
      ensures if |old(Rest())| < n then r == None else r == Some(FromBe(old(Rest())[..n])) && Rest() == old(Rest())[n..]
    {
      var bs := NextBytes(n);
      if bs.None? {
        return None;
      }
      var acc: nat, i := 0, 0;
      while i < n
        invariant i <= n && acc == FromBe(bs.value[..i])
      {
        assert bs.value[..i + 1][..i] == bs.value[..i];
        acc := acc * 256 + bs.value[i];
        i := i + 1;
      }
      assert bs.value[..n] == bs.value;
      r := Some(acc);
    }

    /** How many entries the map at the cursor announces. */
    method MapLen() returns (r: Option<nat>)
      requires Valid()
      modifies this
      ensures Valid() && old(pos) <= pos
      ensures ReadDictLen(old(Rest())) == if r.None? then Bad else Got(r.value, Rest())
    {
      var m := NextByte();
      if m.None? {
        return None;
      }
      if 0x80 <= m.value <= 0x8f {
        assert HeadOf(m.value) == Some(Dict(Fix, m.value - 0x80));
        r := Some(m.value - 0x80);
      } else if m.value == 0xde || m.value == 0xdf {
        assert HeadOf(m.value) == Some(Dict(if m.value == 0xde then Two else Four, 0));
        r := BigEndian(if m.value == 0xde then 2 else 4);
      } else {
        r := None;
      }
    }

    method Str() returns (r: Option<seq<byte>>)
      requires Valid()
      modifies this
      ensures Valid() && old(pos) <= pos
      ensures var v := next(old(Rest()));
              if v.Got? && IsText(v.value) then r == Some(v.value.payload) && Rest() == v.rest else r == None
    {
      TextIff(Rest());
      r := ReadStr();
    }

    method ReadStr() returns (r: Option<seq<byte>>)
      requires Valid()
      modifies this
      ensures Valid() && old(pos) <= pos
      ensures ReadText(old(Rest())) == if r.None? then Bad else Got(r.value, Rest())
    {
      var len := TextLen();
      if len.None? {
        return None;
      }
      var data := NextBytes(len.value);
      if data.Some? && ValidUtf8(data.value) {
        r := data;
      } else {
        r := None;
      }
    }

    /** The length of the text that starts here. */
    method TextLen() returns (r: Option<nat>)
      requires Valid()
      modifies this
      ensures Valid() && old(pos) <= pos
      ensures var h := ReadHeader(old(Rest()));
              if h.Got? && h.value.Text? then r == Some(h.value.len) && h.rest == Rest() else r == None
    {
      var m := NextByte();
      if m.None? {
        return None;
      }
      TextHeadAt(old(Rest()));
      if 0xa0 <= m.value <= 0xbf {
        r := Some(m.value - 0xa0);
      } else if 0xd9 <= m.value <= 0xdb {
        r := BigEndian(if m.value == 0xd9 then 1 else if m.value == 0xda then 2 else 4);
      } else {
        r := None;
      }
    }

    method Uint() returns (r: Option<nat>)
      requires Valid()
      modifies this
      ensures Valid() && old(pos) <= pos
      ensures var v := next(old(Rest()));
              if v.Got? && UintOf(v.value).Some? then r == UintOf(v.value) && Rest() == v.rest else r == None
    {
      UintIff(Rest());
      r := ReadUnsigned();
    }

    method ReadUnsigned() returns (r: Option<nat>)
      requires Valid()
      modifies this
      ensures Valid() && old(pos) <= pos
      ensures ReadUint(old(Rest())) == if r.None? then Bad else Got(r.value, Rest())
    {
      var m := NextByte();
      if m.None? {
        return None;
      }
      if m.value <= 0x7f {
        return Some(m.value);
      }
      if 0xcc <= m.value <= 0xcf {
        var w := if m.value == 0xcc then 1 else if m.value == 0xcd then 2 else if m.value == 0xce then 4 else 8;
        UintAt(old(Rest()), w);
        r := BigEndian(w);
      } else {
        NoUintAt(old(Rest()));
        r := None;
      }
    }

    /** The header of any value: the payload bytes and the nested values that follow it. */
    method Shape() returns (ok: bool, payload: nat, items: nat)
      requires Valid()
      modifies this
      ensures Valid() && old(pos) <= pos
      ensures ok <==> ReadHeader(old(Rest())).Got?
      ensures ok ==> old(pos) < pos && ReadHeader(old(Rest())).rest == Rest()
      ensures ok ==> payload == PayloadLen(ReadHeader(old(Rest())).value) && items == ItemCount(ReadHeader(old(Rest())).value)
    {
      var m := NextByte();
      if m.None? {
        return false, 0, 0;
      }
      LenBytesIsLenWidth(m.value);
      if m.value == 0xc1 {
        return false, 0, 0;
      }
      var w := LenBytes(m.value);
      if w == 0 {
        payload, items := FixedShape(m.value);
        ok := true;
      } else {
        var n := BigEndian(w);
        if n.None? {
          return false, 0, 0;
        }
        payload, items := SizedShape(m.value, n.value);
        ok := true;
      }
    }

    /** Pass the value at the cursor: this works exactly when one is there, and ends right after it. */
    method Skip() returns (ok: bool)
      requires Valid()
      modifies this
      ensures Valid() && old(pos) <= pos
      ensures ok <==> next(old(Rest())).Got?
      ensures ok ==> old(pos) < pos && next(old(Rest())).rest == Rest()
      decreases |buf| - pos, 0
    {
      ParserReadsParts(next, Rest());
      var payload, items;
      ok, payload, items := Shape();
      if !ok {
        return;
      }
      var bytes := NextBytes(payload);
      if bytes.None? {
        return false;
      }
      ok := SkipAll(items);
    }

    /** Pass `n` values. */
    method SkipAll(n: nat) returns (ok: bool)
      requires Valid()
      modifies this
      ensures Valid() && old(pos) <= pos
      ensures ok <==> TakeAll(next, old(Rest()), n).Got?
      ensures ok ==> TakeAll(next, old(Rest()), n).rest == Rest()
      decreases |buf| - pos, 1
    {
      var left := n;
      ghost var start := Rest();
      while left > 0
        invariant Valid() && old(pos) <= pos && 0 <= left <= n
        invariant TakeAll(next, Rest(), left).Got? <==> TakeAll(next, start, n).Got?
        invariant TakeAll(next, start, n).Got? ==> TakeAll(next, Rest(), left).rest == TakeAll(next, start, n).rest
        decreases left
      {
        ok := Skip();
        if !ok {
          return;
        }
        left := left - 1;
      }
      ok := true;
    }

    /** Search the map at the cursor for `key`, ending at what the first such key maps to. */
    method EnterKey(key: seq<byte>) returns (ok: bool)
      requires Valid()
      modifies this
      ensures Valid() && old(pos) <= pos
      ensures Enter(next, old(Rest()), key) == if ok then Some(Rest()) else None
    {
      var n := MapLen();
      if n.None? {
        return false;
      }
      var left := n.value;
      while left > 0
        invariant Valid() && old(pos) <= pos
        invariant EnterFrom(next, Rest(), left, key) == Enter(next, old(Rest()), key)
      {
        var k := Str();
        if k.None? {
          return false;
        }
        if k.value == key {
          return true;
        }
        ok := Skip();
        if !ok {
          return;
        }
        left := left - 1;
      }
      ok := false;
    }
  }

  method ReadEntries(mp: MsgPackCursor, n: nat, names: Names) returns (f: Found)
    requires mp.Valid()
    modifies mp
    ensures f == CtxFrom(mp.next, names, old(mp.Rest()), n, Found(None, None))
  {
    f := Found(None, None);
    var left := n;
    while left > 0
      invariant mp.Valid()
      invariant CtxFrom(mp.next, names, mp.Rest(), left, f) == CtxFrom(mp.next, names, old(mp.Rest()), n, Found(None, None))
    {
      var key := mp.Str();
      if key.None? {
        return;
      }
      if key.value == names.height {
        var h := mp.Uint();
        if h.None? { return; }
        f := f.(height := h);
      } else if key.value == names.time {
        var t := mp.Str();
        if t.None? { return; }
        f := f.(time := t);
      } else {
        var ok := mp.Skip();
        if !ok { return; }
      }
      if f.height.Some? && f.time.Some? {
        return;
      }
      left := left - 1;
    }
  }

  /** The height at exchange.locus.ctx of a persisted state, and its time if it comes with one. */
  method ReadStateHeight(head: seq<byte>, names: Names) returns (r: Option<(nat, Option<seq<byte>>)>)
    ensures r == PersistedHeight(Parse, names, head)
  {
    var mp := new MsgPackCursor(head);
    r := ReadHeight(mp, names);
    ParserIsParse(mp.next);
    PersistedHeightSame(mp.next, Parse, names, head);
  }

  method ReadHeight(mp: MsgPackCursor, names: Names) returns (r: Option<(nat, Option<seq<byte>>)>)
    requires mp.Valid()
    modifies mp
    ensures r == PersistedHeight(mp.next, names, old(mp.Rest()))
  {
    var ok := mp.EnterKey(EXCHANGE);
    if !ok { return None; }
    ok := mp.EnterKey(LOCUS);
    if !ok { return None; }
    ok := mp.EnterKey(CTX);
    if !ok { return None; }
    var n := mp.MapLen();
    if n.None? { return None; }
    var f := ReadEntries(mp, n.value, names);
    r := if f.height.None? then None else Some((f.height.value, f.time));
  }
}
