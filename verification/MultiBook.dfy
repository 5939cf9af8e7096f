/** The books of all coins: dispatch by coin, and eviction of books that have become empty. */
module MultiBook {
  import opened Types
  import opened Levels
  import opened BookCore
  import opened RestingMap

  type Books = map<Coin, Book>

  function BookOf(bs: Books, coin: Coin): Book {
    if coin in bs then bs[coin] else EMPTY_BOOK
  }

  function PutBook(bs: Books, coin: Coin, b: Book): Books {
    if b.index == map[] then bs - {coin} else bs[coin := b]
  }

  function AddTo(bs: Books, o: Order, anchor: Option<Oid>): (Books, bool) {
    var (b, fellBack) := Add(BookOf(bs, o.coin), o, anchor);
    (bs[o.coin := b], fellBack)
  }

  function CancelIn(bs: Books, oid: Oid, coin: Coin): (Books, bool) {
    if coin !in bs then (bs, false)
    else
      var (b, found) := Cancel(bs[coin], oid);
      (PutBook(bs, coin, b), found)
  }

  function ModifyIn(bs: Books, oid: Oid, coin: Coin, sz: Sz): (Books, bool) {
    if coin !in bs then (bs, false)
    else
      var (b, found) := Modify(bs[coin], oid, sz);
      (PutBook(bs, coin, b), found)
  }

  function CompactAll(bs: Books): Books {
    map coin | coin in bs && bs[coin].index != map[] :: bs[coin]
  }

  ghost predicate BooksInv(bs: Books) {
    forall coin :: BookInv(BookOf(bs, coin))
  }

  /** What rests under an oid in a coin's book. */
  function RestsIn(bs: Books, coin: Coin, oid: Oid): Option<Order> {
    Resting(BookOf(bs, coin), oid)
  }

  lemma EmptyBookHasNothing(oid: Oid)
    ensures Resting(EMPTY_BOOK, oid) == None && BookInv(EMPTY_BOOK)
  {
    RunKeepsInv([]);
  }

  /** Evicting an empty book changes nothing that can be seen through the resting map. */
  lemma PutBookIs(bs: Books, coin: Coin, b: Book, c: Coin, x: Oid)
    requires BooksInv(bs) && BookInv(b)
    ensures BookInv(BookOf(PutBook(bs, coin, b), c))
    ensures RestsIn(PutBook(bs, coin, b), c, x) == if c == coin then Resting(b, x) else RestsIn(bs, c, x)
  {
    EmptyBookHasNothing(x);
    assert BookInv(BookOf(bs, c));
  }

  lemma AddToRests(bs: Books, o: Order, anchor: Option<Oid>, c: Coin, x: Oid)
    requires BooksInv(bs) && NoCross(BookOf(bs, o.coin), o)
    ensures BookInv(BookOf(AddTo(bs, o, anchor).0, c))
    ensures RestsIn(AddTo(bs, o, anchor).0, c, x)
         == if (c, x) == (o.coin, o.oid) && RestsIn(bs, c, x).None? && o.sz > 0 then Some(o) else RestsIn(bs, c, x)
  {
    assert BookInv(BookOf(bs, o.coin)) && BookInv(BookOf(bs, c));
    AddKeepsInv(BookOf(bs, o.coin), o, anchor);
    AddRests(BookOf(bs, o.coin), o, anchor, x);
    RestsIffIndexed(BookOf(bs, o.coin), x);
  }

  lemma CancelInRests(bs: Books, oid: Oid, coin: Coin, c: Coin, x: Oid)
    requires BooksInv(bs)
    ensures BookInv(BookOf(CancelIn(bs, oid, coin).0, c))
    ensures RestsIn(CancelIn(bs, oid, coin).0, c, x) == if (c, x) == (coin, oid) then None else RestsIn(bs, c, x)
    ensures CancelIn(bs, oid, coin).1 <==> RestsIn(bs, coin, oid).Some?
  {
    var b := BookOf(bs, coin);
    assert BookInv(b) && BookInv(BookOf(bs, c));
    EmptyBookHasNothing(x);
    EmptyBookHasNothing(oid);
    RestsIffIndexed(b, oid);
    if coin in bs {
      CancelKeepsInv(b, oid);
      CancelRests(b, oid, x);
      PutBookIs(bs, coin, Cancel(b, oid).0, c, x);
    }
  }

  lemma ModifyInRests(bs: Books, oid: Oid, coin: Coin, sz: Sz, c: Coin, x: Oid)
    requires BooksInv(bs)
    ensures BookInv(BookOf(ModifyIn(bs, oid, coin, sz).0, c))
    ensures RestsIn(ModifyIn(bs, oid, coin, sz).0, c, x)
         == if (c, x) != (coin, oid) || RestsIn(bs, coin, oid).None? then RestsIn(bs, c, x)
            else if sz == 0 then None
            else Some(RestsIn(bs, coin, oid).value.(sz := sz))
    ensures ModifyIn(bs, oid, coin, sz).1 <==> RestsIn(bs, coin, oid).Some?
  {
    var b := BookOf(bs, coin);
    assert BookInv(b) && BookInv(BookOf(bs, c));
    EmptyBookHasNothing(x);
    EmptyBookHasNothing(oid);
    RestsIffIndexed(b, oid);
    if coin in bs {
      ModifyKeepsInv(b, oid, sz);
      ModifyRests(b, oid, sz, x);
      PutBookIs(bs, coin, Modify(b, oid, sz).0, c, x);
    }
  }

  /** Putting a book back evicts it exactly when nothing rests in it any more, and touches no other coin. */
  lemma PutBookEvicts(bs: Books, coin: Coin, b: Book)
    requires BookInv(b)
    ensures coin in PutBook(bs, coin, b) <==> exists x :: Resting(b, x).Some?
    ensures forall c :: c != coin ==> (c in PutBook(bs, coin, b) <==> c in bs)
  {
    if b.index == map[] {
      forall x
        ensures Resting(b, x).None?
      {
        RestsIffIndexed(b, x);
      }
    } else {
      var x :| x in b.index;
      RestsIffIndexed(b, x);
    }
  }

  /** A coin whose last order goes leaves the map with it. */
  lemma EmptiedBookLeaves(bs: Books, oid: Oid, coin: Coin, sz: Sz)
    requires BooksInv(bs) && coin in bs
    ensures var bs' := CancelIn(bs, oid, coin).0; coin in bs' <==> exists x :: RestsIn(bs', coin, x).Some?
    ensures var bs' := ModifyIn(bs, oid, coin, sz).0; coin in bs' <==> exists x :: RestsIn(bs', coin, x).Some?
  {
    assert BookInv(BookOf(bs, coin));
    CancelKeepsInv(bs[coin], oid);
    ModifyKeepsInv(bs[coin], oid, sz);
    EvictedIffEmpty(bs, coin, Cancel(bs[coin], oid).0);
    EvictedIffEmpty(bs, coin, Modify(bs[coin], oid, sz).0);
  }

  lemma EvictedIffEmpty(bs: Books, coin: Coin, b: Book)
    requires BookInv(b)
    ensures var bs' := PutBook(bs, coin, b); coin in bs' <==> exists x :: RestsIn(bs', coin, x).Some?
  {
    PutBookEvicts(bs, coin, b);
    var bs' := PutBook(bs, coin, b);
    if coin in bs' {
      var x :| Resting(b, x).Some?;
      assert RestsIn(bs', coin, x).Some?;
    } else {
      forall x
        ensures RestsIn(bs', coin, x).None?
      {
        EmptyBookHasNothing(x);
      }
    }
  }

  lemma CompactAllRests(bs: Books, c: Coin, x: Oid)
    requires BooksInv(bs)
    ensures BookInv(BookOf(CompactAll(bs), c))
    ensures RestsIn(CompactAll(bs), c, x) == RestsIn(bs, c, x)
    ensures c in CompactAll(bs) <==> exists oid :: RestsIn(bs, c, oid).Some?
  {
    var b := BookOf(bs, c);
    assert BookInv(b);
    EmptyBookHasNothing(x);
    RestsIffIndexed(b, x);
    if oid :| oid in b.index {
      RestsIffIndexed(b, oid);
      assert RestsIn(bs, c, oid).Some?;
    } else {
      assert b.index == map[];
      forall oid ensures RestsIn(bs, c, oid).None? {
        RestsIffIndexed(b, oid);
      }
    }
  }
}
