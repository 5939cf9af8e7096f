/**
 Walking a MessagePack prefix to the height of a persisted state at exchange.locus.ctx. The
 walk needs only the part of the bytes it passes over, so a prefix of the file will do.
 */
module StateHeight {
  import opened Types
  import opened Utf8
  import opened MsgPack

  // ----- walking a map, value by value -----

  type Reader = seq<byte> -> Read<Value>

  /** Read `n` values. */
  function TakeAll(next: Reader, s: seq<byte>, n: nat): (r: Read<seq<Value>>)
    ensures r.Got? ==> |r.value| == n
    decreases n
  {
    if n == 0 then Got([], s)
    else
      var v := next(s);
      if v.Bad? then Bad
      else
        var vs := TakeAll(next, v.rest, n - 1);
        if vs.Bad? then Bad else Got([v.value] + vs.value, vs.rest)
  }

  /** One value, then what `later` makes of the rest. */
  function Joined(v: Read<Value>, later: Read<seq<Value>>): Read<seq<Value>> {
    if v.Bad? || later.Bad? then Bad else Got([v.value] + later.value, later.rest)
  }

  /** TakeAll is the only way to read values one after the other. */
  lemma {:induction false} TakeAllIsUnique(next: Reader, all: (seq<byte>, nat) -> Read<seq<Value>>, s: seq<byte>, n: nat)
    requires forall s :: all(s, 0) == Got([], s)
    requires forall s, n: nat :: n > 0 && next(s).Got? ==> all(s, n) == Joined(next(s), all(next(s).rest, n - 1))
    requires forall s, n: nat :: n > 0 && next(s).Bad? ==> all(s, n) == Bad
    ensures TakeAll(next, s, n) == all(s, n)
    decreases n
  {
    if n > 0 && next(s).Got? {
      TakeAllIsUnique(next, all, next(s).rest, n - 1);
    }
  }

  lemma ParseAllSteps(s: seq<byte>, n: nat)
    ensures n == 0 ==> ParseAll(s, n) == Got([], s)
    ensures n > 0 && Parse(s).Bad? ==> ParseAll(s, n) == Bad
    ensures n > 0 && Parse(s).Got? ==> ParseAll(s, n) == Joined(Parse(s), ParseAll(Parse(s).rest, n - 1))
  {
  }

  lemma TakeAllIsParseAll(s: seq<byte>, n: nat)
    ensures TakeAll(Parse, s, n) == ParseAll(s, n)
  {
    forall s, n: nat
      ensures n == 0 ==> ParseAll(s, n) == Got([], s)
      ensures n > 0 && Parse(s).Bad? ==> ParseAll(s, n) == Bad
      ensures n > 0 && Parse(s).Got? ==> ParseAll(s, n) == Joined(Parse(s), ParseAll(Parse(s).rest, n - 1))
    {
      ParseAllSteps(s, n);
    }
    TakeAllIsUnique(Parse, ParseAll, s, n);
  }

  /** Look for `key` among `n` entries; the result starts at its value. */
  function EnterFrom(next: Reader, s: seq<byte>, n: nat, key: seq<byte>): Option<seq<byte>>
    decreases n
  {
    if n == 0 then None
    else
      var k := next(s);
      if k.Bad? || !IsText(k.value) then None
      else if k.value.payload == key then Some(k.rest)
      else
        var v := next(k.rest);
        if v.Bad? then None else EnterFrom(next, v.rest, n - 1, key)
  }

  function Enter(next: Reader, s: seq<byte>, key: seq<byte>): Option<seq<byte>> {
    var n := ReadDictLen(s);
    if n.Bad? then None else EnterFrom(next, n.rest, n.value, key)
  }

  /** Keys and values up to and including the first key that is `key`. */
  predicate KeyPath(vs: seq<Value>, key: seq<byte>) {
    && vs != []
    && IsText(vs[0])
    && if |vs| == 1 then vs[0].payload == key
       else vs[0].payload != key && KeyPath(vs[2..], key)
  }

  lemma TakeTwoMore(next: Reader, s: seq<byte>, n: nat)
    requires next(s).Got? && next(next(s).rest).Got?
    ensures var a, b := next(s), next(next(s).rest);
            var r := TakeAll(next, b.rest, n);
            TakeAll(next, s, n + 2) == if r.Bad? then Bad else Got([a.value, b.value] + r.value, r.rest)
  {
    var a, b := next(s), next(next(s).rest);
    var r := TakeAll(next, b.rest, n);
    assert TakeAll(next, a.rest, n + 1) == if r.Bad? then Bad else Got([b.value] + r.value, r.rest);
    if r.Got? {
      assert [a.value] + ([b.value] + r.value) == [a.value, b.value] + r.value;
    }
  }

  lemma TakesTwoMore(next: Reader, s: seq<byte>, n: nat)
    requires TakeAll(next, s, n + 2).Got?
    ensures next(s).Got? && next(next(s).rest).Got? && TakeAll(next, next(next(s).rest).rest, n).Got?
    ensures var vs, r := TakeAll(next, s, n + 2), TakeAll(next, next(next(s).rest).rest, n);
            && vs.rest == r.rest && vs.value[2..] == r.value
            && vs.value[0] == next(s).value && vs.value[1] == next(next(s).rest).value
  {
    assert TakeAll(next, next(s).rest, n + 1).Got?;
    TakeTwoMore(next, s, n);
  }

  lemma {:induction false} EnterFromFinds(next: Reader, s: seq<byte>, n: nat, key: seq<byte>, vs: seq<Value>, rest: seq<byte>)
    requires TakeAll(next, s, |vs|) == Got(vs, rest) && KeyPath(vs, key) && |vs| < 2 * n
    ensures EnterFrom(next, s, n, key) == Some(rest)
    decreases |vs|
  {
    if |vs| == 1 {
      assert TakeAll(next, next(s).rest, 0) == Got([], next(s).rest);
    } else {
      TakesTwoMore(next, s, |vs| - 2);
      EnterFromFinds(next, next(next(s).rest).rest, n - 1, key, vs[2..], rest);
    }
  }

  lemma {:induction false} EnterFromSound(next: Reader, s: seq<byte>, n: nat, key: seq<byte>) returns (vs: seq<Value>)
    requires EnterFrom(next, s, n, key).Some?
    ensures TakeAll(next, s, |vs|) == Got(vs, EnterFrom(next, s, n, key).value) && KeyPath(vs, key) && |vs| < 2 * n
    decreases n
  {
    var k := next(s);
    if k.value.payload == key {
      vs := [k.value];
      assert TakeAll(next, k.rest, 0) == Got([], k.rest);
      assert [k.value] + [] == vs;
    } else {
      var v := next(k.rest);
      var later := EnterFromSound(next, v.rest, n - 1, key);
      TakeTwoMore(next, s, |later|);
      vs := [k.value, v.value] + later;
      assert vs[2..] == later;
    }
  }

  /** `s` is a map of `n` entries which begins with `vs`, ending in the first key that is `key`; `rest` starts at its value. */
  ghost predicate LeadsTo(s: seq<byte>, key: seq<byte>, rest: seq<byte>, n: nat, form: Form, vs: seq<Value>) {
    && ValidHeader(Dict(form, n)) && |vs| < 2 * n
    && AllValid(vs) && KeyPath(vs, key)
    && s == EncodeHeader(Dict(form, n)) + EncodeAll(vs, rest)
  }

  lemma KeyIsEntered(s: seq<byte>, key: seq<byte>, rest: seq<byte>, n: nat, form: Form, vs: seq<Value>)
    requires LeadsTo(s, key, rest, n, form, vs)
    ensures Enter(Parse, s, key) == Some(rest)
  {
    HeaderRoundTrip(Dict(form, n), EncodeAll(vs, rest));
    ParseAllRoundTrip(vs, rest);
    TakeAllIsParseAll(EncodeAll(vs, rest), |vs|);
    EnterFromFinds(Parse, EncodeAll(vs, rest), n, key, vs, rest);
  }

  lemma EnteredKeyIsThere(s: seq<byte>, key: seq<byte>) returns (n: nat, form: Form, vs: seq<Value>)
    requires Enter(Parse, s, key).Some?
    ensures LeadsTo(s, key, Enter(Parse, s, key).value, n, form, vs)
  {
    HeaderSound(s);
    var h := ReadHeader(s);
    n, form := h.value.len, h.value.form;
    vs := EnterFromSound(Parse, h.rest, n, key);
    TakeAllIsParseAll(h.rest, |vs|);
    ParseAllSound(h.rest, |vs|);
  }

  /** `enter` succeeds exactly when the key is there, past readable entries, and stops at its first value. */
  lemma EnterIffKeyIsThere(s: seq<byte>, key: seq<byte>, rest: seq<byte>)
    ensures Enter(Parse, s, key) == Some(rest) <==> exists n, form, vs :: LeadsTo(s, key, rest, n, form, vs)
  {
    if Enter(Parse, s, key) == Some(rest) {
      var n, form, vs := EnteredKeyIsThere(s, key);
    }
    if exists n, form, vs :: LeadsTo(s, key, rest, n, form, vs) {
      var n, form, vs :| LeadsTo(s, key, rest, n, form, vs);
      KeyIsEntered(s, key, rest, n, form, vs);
    }
  }

  // ----- the height of a persisted state -----

  const EXCHANGE: seq<byte> := [0x65, 0x78, 0x63, 0x68, 0x61, 0x6e, 0x67, 0x65]
  const LOCUS: seq<byte> := [0x6c, 0x6f, 0x63, 0x75, 0x73]
  const CTX: seq<byte> := [0x63, 0x74, 0x78]

  /** The keys looked for in the innermost map. */
  datatype Names = Names(height: seq<byte>, time: seq<byte>)

  const NAMES := Names([0x68, 0x65, 0x69, 0x67, 0x68, 0x74], [0x74, 0x69, 0x6d, 0x65])

  /** The path and the names are these words. */
  lemma NamesAre()
    ensures EXCHANGE == Ascii("exchange") && LOCUS == Ascii("locus") && CTX == Ascii("ctx")
    ensures NAMES == Names(Ascii("height"), Ascii("time"))
  {
    assert |Ascii("exchange")| == 8 && |Ascii("locus")| == 5 && |Ascii("ctx")| == 3 && |Ascii("height")| == 6 && |Ascii("time")| == 4;
  }

  datatype Found = Found(height: Option<nat>, time: Option<seq<byte>>)

  /** The height must be an unsigned integer and the time a text; any other entry may hold anything. */
  predicate EntryOk(names: Names, key: seq<byte>, v: Value) {
    if key == names.height then UintOf(v).Some? else key == names.time ==> IsText(v)
  }

  function Noted(names: Names, key: seq<byte>, v: Value, f: Found): Found {
    if key == names.height then f.(height := UintOf(v)) else if key == names.time then f.(time := Some(v.payload)) else f
  }

  /** Read up to `n` entries until both are found or something cannot be read. */
  function CtxFrom(next: Reader, names: Names, s: seq<byte>, n: nat, f: Found): Found
    decreases n
  {
    if n == 0 then f
    else
      var k := next(s);
      if k.Bad? || !IsText(k.value) then f
      else
        var v := next(k.rest);
        if v.Bad? || !EntryOk(names, k.value.payload, v.value) then f
        else
          var f' := Noted(names, k.value.payload, v.value, f);
          if f'.height.Some? && f'.time.Some? then f' else CtxFrom(next, names, v.rest, n - 1, f')
  }

  function HeightIn(next: Reader, names: Names, s: seq<byte>): Option<(nat, Option<seq<byte>>)> {
    var n := ReadDictLen(s);
    if n.Bad? then None
    else
      var f := CtxFrom(next, names, n.rest, n.value, Found(None, None));
      if f.height.None? then None else Some((f.height.value, f.time))
  }

  function PersistedHeight(next: Reader, names: Names, s: seq<byte>): Option<(nat, Option<seq<byte>>)> {
    var a := Enter(next, s, EXCHANGE);
    if a.None? then None
    else
      var b := Enter(next, a.value, LOCUS);
      if b.None? then None
      else
        var c := Enter(next, b.value, CTX);
        if c.None? then None else HeightIn(next, names, c.value)
  }

  /** Value under the first key of this name, in keys and values alternately. */
  function Lookup(vs: seq<Value>, key: seq<byte>): Option<Value> {
    if |vs| < 2 then None else if vs[0].payload == key then Some(vs[1]) else Lookup(vs[2..], key)
  }

  /** Whole entries with readable keys, none twice, and a height and a time of the right kind where present. */
  predicate CtxOk(names: Names, vs: seq<Value>) {
    vs == [] || (
      && |vs| >= 2 && IsText(vs[0])
      && Lookup(vs[2..], vs[0].payload).None?
      && EntryOk(names, vs[0].payload, vs[1])
      && CtxOk(names, vs[2..]))
  }

  function FoundIn(names: Names, vs: seq<Value>, f: Found): Found {
    Found(
      match Lookup(vs, names.height) { case Some(v) => UintOf(v) case None => f.height },
      match Lookup(vs, names.time) { case Some(v) => Some(v.payload) case None => f.time })
  }

  lemma FoundInSteps(names: Names, vs: seq<Value>, f: Found)
    requires vs != [] && CtxOk(names, vs) && names.height != names.time
    ensures FoundIn(names, vs, f) == FoundIn(names, vs[2..], Noted(names, vs[0].payload, vs[1], f))
  {
  }

  /** The next entry ends the search: its key or its value cannot be read, or is not of the kind it should be. */
  predicate Unreadable(next: Reader, names: Names, s: seq<byte>) {
    var k := next(s);
    k.Bad? || !IsText(k.value) || next(k.rest).Bad? || !EntryOk(names, k.value.payload, next(k.rest).value)
  }

  /** What stands in the entries read is found, if the map ends there, or both are among them, or the next entry cannot be read. */
  lemma {:induction false} CtxFromFinds(next: Reader, names: Names, s: seq<byte>, n: nat, f: Found, vs: seq<Value>, rest: seq<byte>)
    requires TakeAll(next, s, |vs|) == Got(vs, rest) && CtxOk(names, vs) && |vs| <= 2 * n && names.height != names.time
    requires (f.height.Some? ==> Lookup(vs, names.height).None?) && (f.time.Some? ==> Lookup(vs, names.time).None?)
    requires f.height.None? || f.time.None?
    requires |vs| == 2 * n || (FoundIn(names, vs, f).height.Some? && FoundIn(names, vs, f).time.Some?) || Unreadable(next, names, rest)
    ensures CtxFrom(next, names, s, n, f) == FoundIn(names, vs, f)
    decreases |vs|
  {
    if vs != [] {
      TakesTwoMore(next, s, |vs| - 2);
      FoundInSteps(names, vs, f);
      var f' := Noted(names, vs[0].payload, vs[1], f);
      if f'.height.None? || f'.time.None? {
        CtxFromFinds(next, names, next(next(s).rest).rest, n - 1, f', vs[2..], rest);
      }
    }
  }

  lemma {:induction false} HeightIsUint(names: Names, vs: seq<Value>)
    requires CtxOk(names, vs)
    ensures Lookup(vs, names.height).Some? ==> UintOf(Lookup(vs, names.height).value).Some?
  {
    if vs != [] {
      HeightIsUint(names, vs[2..]);
    }
  }

  lemma HeightInFinds(names: Names, s: seq<byte>, n: nat, tail: seq<byte>, vs: seq<Value>, rest: seq<byte>)
    requires ReadDictLen(s) == Got(n, tail) && TakeAll(Parse, tail, |vs|) == Got(vs, rest)
    requires CtxOk(names, vs) && |vs| <= 2 * n && names.height != names.time
    requires |vs| == 2 * n || (Lookup(vs, names.height).Some? && Lookup(vs, names.time).Some?) || Unreadable(Parse, names, rest)
    ensures var found := FoundIn(names, vs, Found(None, None));
            HeightIn(Parse, names, s) == if found.height.None? then None else Some((found.height.value, found.time))
  {
    HeightIsUint(names, vs);
    CtxFromFinds(Parse, names, tail, n, Found(None, None), vs, rest);
  }

  /** A height that is no unsigned integer, or a time that is no text. */
  predicate WrongKind(key: seq<byte>, v: Value) {
    (key == Ascii("height") && UintOf(v).None?) || (key == Ascii("time") && !IsText(v))
  }

  lemma WrongKindIsNotOk(key: seq<byte>, v: Value)
    ensures WrongKind(key, v) <==> !EntryOk(NAMES, key, v)
  {
    NamesAre();
  }

  /**
   An entry of the wrong kind ends the reading: what was found in the entries in front of it is all
   there is, whatever comes later.
   */
  lemma WrongKindEndsReading(
    s: seq<byte>, n: nat, tail: seq<byte>, vs: seq<Value>, k: Value, v: Value, rest: seq<byte>, more: seq<byte>, later: seq<byte>)
    requires ReadDictLen(s) == Got(n, tail) && TakeAll(Parse, tail, |vs|) == Got(vs, rest) && CtxOk(NAMES, vs) && |vs| < 2 * n
    requires Parse(rest) == Got(k, more) && Parse(more) == Got(v, later) && IsText(k) && WrongKind(k.payload, v)
    ensures var found := FoundIn(NAMES, vs, Found(None, None));
            HeightIn(Parse, NAMES, s) == if found.height.None? then None else Some((found.height.value, found.time))
  {
    WrongKindIsNotOk(k.payload, v);
    assert NAMES.height != NAMES.time;
    HeightInFinds(NAMES, s, n, tail, vs, rest);
  }

  lemma DictReads(form: Form, n: nat, vs: seq<Value>, rest: seq<byte>)
    requires ValidHeader(Dict(form, n)) && AllValid(vs)
    ensures ReadDictLen(EncodeHeader(Dict(form, n)) + EncodeAll(vs, rest)) == Got(n, EncodeAll(vs, rest))
    ensures TakeAll(Parse, EncodeAll(vs, rest), |vs|) == Got(vs, rest)
  {
    HeaderRoundTrip(Dict(form, n), EncodeAll(vs, rest));
    ParseAllRoundTrip(vs, rest);
    TakeAllIsParseAll(EncodeAll(vs, rest), |vs|);
  }

  /**
   The height read is the one encoded at exchange.locus.ctx. It is found in any bytes that lead
   there, whatever follows: ctx may be complete, or its height and time be in the part at hand, or
   the bytes be cut off, or damaged, right after the entries that are.
   */
  lemma HeightIsTheOneEncoded(
    s: seq<byte>, a: seq<byte>, b: seq<byte>, c: seq<byte>, form: Form, n: nat, vs: seq<Value>, rest: seq<byte>)
    requires Enter(Parse, s, EXCHANGE) == Some(a) && Enter(Parse, a, LOCUS) == Some(b) && Enter(Parse, b, CTX) == Some(c)
    requires ValidHeader(Dict(form, n)) && AllValid(vs) && CtxOk(NAMES, vs) && |vs| <= 2 * n
    requires c == EncodeHeader(Dict(form, n)) + EncodeAll(vs, rest)
    requires |vs| == 2 * n || (Lookup(vs, NAMES.height).Some? && Lookup(vs, NAMES.time).Some?) || Unreadable(Parse, NAMES, rest)
    ensures var found := FoundIn(NAMES, vs, Found(None, None));
            PersistedHeight(Parse, NAMES, s) == if found.height.None? then None else Some((found.height.value, found.time))
  {
    DictReads(form, n, vs, rest);
    HeightInFinds(NAMES, c, n, EncodeAll(vs, rest), vs, rest);
  }

  /** Conversely, a height is only ever reported from under a key of that name. */
  lemma {:induction false} CtxFromSound(next: Reader, names: Names, s: seq<byte>, n: nat, f: Found) returns (vs: seq<Value>)
    requires CtxFrom(next, names, s, n, f).height.Some? && CtxFrom(next, names, s, n, f).height != f.height
    ensures 2 <= |vs| <= 2 * n && |vs| % 2 == 0 && TakeAll(next, s, |vs|).Got? && TakeAll(next, s, |vs|).value == vs
    ensures vs[|vs| - 2].payload == names.height && UintOf(vs[|vs| - 1]) == CtxFrom(next, names, s, n, f).height
    decreases n
  {
    var k := next(s);
    var v := next(k.rest);
    var f' := Noted(names, k.value.payload, v.value, f);
    if f'.height == CtxFrom(next, names, s, n, f).height {
      vs := [k.value, v.value];
      assert TakeAll(next, v.rest, 0) == Got([], v.rest);
      TakeTwoMore(next, s, 0);
      assert [k.value, v.value] + [] == vs;
    } else {
      var later := CtxFromSound(next, names, v.rest, n - 1, f');
      TakeTwoMore(next, s, |later|);
      vs := [k.value, v.value] + later;
    }
  }

  /** A reported height stands, as an unsigned integer under the key height, among the entries of a map. */
  lemma HeightInIsEncoded(names: Names, s: seq<byte>) returns (form: Form, n: nat, vs: seq<Value>, rest: seq<byte>)
    requires HeightIn(Parse, names, s).Some?
    ensures ValidHeader(Dict(form, n)) && AllValid(vs) && 2 <= |vs| <= 2 * n && |vs| % 2 == 0
    ensures s == EncodeHeader(Dict(form, n)) + EncodeAll(vs, rest)
    ensures vs[|vs| - 2].payload == names.height && UintOf(vs[|vs| - 1]) == Some(HeightIn(Parse, names, s).value.0)
  {
    HeaderSound(s);
    var h := ReadHeader(s);
    form, n := h.value.form, h.value.len;
    vs := CtxFromSound(Parse, names, h.rest, n, Found(None, None));
    TakeAllIsParseAll(h.rest, |vs|);
    ParseAllSound(h.rest, |vs|);
    rest := ParseAll(h.rest, |vs|).rest;
  }

  // ----- readers that read the same -----

  ghost predicate SameReader(a: Reader, b: Reader) {
    forall s :: a(s) == b(s)
  }

  /** As SameReader(next, Parse), but said only of bytes that are parsed. */
  ghost predicate IsParser(next: Reader) {
    forall s {:trigger Parse(s)} :: next(s) == Parse(s)
  }

  lemma {:induction false} EnterFromSame(a: Reader, b: Reader, s: seq<byte>, n: nat, key: seq<byte>)
    requires SameReader(a, b)
    ensures EnterFrom(a, s, n, key) == EnterFrom(b, s, n, key)
    decreases n
  {
    if n > 0 && a(s).Got? && a(a(s).rest).Got? {
      EnterFromSame(a, b, a(a(s).rest).rest, n - 1, key);
    }
  }

  lemma {:induction false} CtxFromSame(a: Reader, b: Reader, names: Names, s: seq<byte>, n: nat, f: Found)
    requires SameReader(a, b)
    ensures CtxFrom(a, names, s, n, f) == CtxFrom(b, names, s, n, f)
    decreases n
  {
    if n > 0 && a(s).Got? && a(a(s).rest).Got? {
      CtxFromSame(a, b, names, a(a(s).rest).rest, n - 1, Noted(names, a(s).value.payload, a(a(s).rest).value, f));
    }
  }

  lemma {:induction false} TakeAllSame(a: Reader, b: Reader, s: seq<byte>, n: nat)
    requires SameReader(a, b)
    ensures TakeAll(a, s, n) == TakeAll(b, s, n)
    decreases n
  {
    if n > 0 && a(s).Got? {
      TakeAllSame(a, b, a(s).rest, n - 1);
    }
  }

  lemma ParserIsParse(next: Reader)
    requires IsParser(next)
    ensures SameReader(next, Parse)
  {
    forall s
      ensures next(s) == Parse(s)
    {
    }
  }

  /** Reading a value is reading its header, its payload and its nested values. */
  lemma ParserReadsParts(next: Reader, s: seq<byte>)
    requires IsParser(next)
    ensures var h := ReadHeader(s);
            if h.Bad? || |h.rest| < PayloadLen(h.value) then next(s).Bad?
            else var items := TakeAll(next, h.rest[PayloadLen(h.value)..], ItemCount(h.value));
                 next(s).Got? == items.Got? && (items.Got? ==> next(s).rest == items.rest)
  {
    ParserIsParse(next);
    assert next(s) == Parse(s);
    var h := ReadHeader(s);
    if h.Got? && PayloadLen(h.value) <= |h.rest| {
      var t := h.rest[PayloadLen(h.value)..];
      TakeAllSame(next, Parse, t, ItemCount(h.value));
      TakeAllIsParseAll(t, ItemCount(h.value));
    }
  }

  lemma EnterSame(a: Reader, b: Reader, s: seq<byte>, key: seq<byte>)
    requires SameReader(a, b)
    ensures Enter(a, s, key) == Enter(b, s, key)
  {
    var n := ReadDictLen(s);
    if n.Got? {
      EnterFromSame(a, b, n.rest, n.value, key);
    }
  }

  lemma HeightInSame(a: Reader, b: Reader, names: Names, s: seq<byte>)
    requires SameReader(a, b)
    ensures HeightIn(a, names, s) == HeightIn(b, names, s)
  {
    var n := ReadDictLen(s);
    if n.Got? {
      CtxFromSame(a, b, names, n.rest, n.value, Found(None, None));
    }
  }

  lemma PersistedHeightSame(a: Reader, b: Reader, names: Names, s: seq<byte>)
    requires SameReader(a, b)
    ensures PersistedHeight(a, names, s) == PersistedHeight(b, names, s)
  {
    forall s, key
      ensures Enter(a, s, key) == Enter(b, s, key)
    {
      EnterSame(a, b, s, key);
    }
    forall s
      ensures HeightIn(a, names, s) == HeightIn(b, names, s)
    {
      HeightInSame(a, b, names, s);
    }
  }
}
