/**
 The hand-written doubly linked list: nodes live in a slab, links are slab ids,
 and a key index finds a node in constant time. Every operation is proved to be
 the matching operation on a sequence of (key, value) pairs without repeated keys.

 The invariants are stated element by element through small named predicates, and
 the proofs name the elements they need.
 */
module SlabList {
  import opened Types

  datatype Node<K, T> = Node(key: K, value: T, next: Option<nat>, prev: Option<nat>)

  /** The four fields a list is made of. */
  datatype Links<K, T> = Links(slab: map<nat, Node<K, T>>, keyToSid: map<K, nat>, head: Option<nat>, tail: Option<nat>)

  // ----- the shape of the links, as properties of plain values -----

  ghost function NextOf(order: seq<nat>, i: nat): Option<nat>
    requires i < |order|
  {
    if i + 1 < |order| then Some(order[i + 1]) else None
  }

  ghost function PrevOf(order: seq<nat>, i: nat): Option<nat>
    requires i < |order|
  {
    if i == 0 then None else Some(order[i - 1])
  }

  /** Position i holds a live slot whose links point at its neighbours in `order`. */
  ghost predicate LinkedAt<K, T>(l: Links<K, T>, order: seq<nat>, rank: map<nat, nat>, i: nat) {
    i < |order| ==>
      && order[i] in l.slab && order[i] in rank && rank[order[i]] == i
      && l.slab[order[i]].next == NextOf(order, i)
      && l.slab[order[i]].prev == PrevOf(order, i)
  }

  /** A live slot stands at its rank in `order`, and the index maps its key to it. */
  ghost predicate SlotAt<K, T>(l: Links<K, T>, order: seq<nat>, rank: map<nat, nat>, s: nat) {
    s in l.slab ==>
      && s in rank && rank[s] < |order| && order[rank[s]] == s
      && l.slab[s].key in l.keyToSid && l.keyToSid[l.slab[s].key] == s
  }

  /** An index entry leads to a live slot with that key. */
  ghost predicate KeyAt<K, T>(l: Links<K, T>, k: K) {
    k in l.keyToSid ==> l.keyToSid[k] in l.slab && l.slab[l.keyToSid[k]].key == k
  }

  /** `order` lists the live slots from head to tail; the links mirror each other along it; the index is exactly them. */
  ghost predicate Follows<K(!new), T>(l: Links<K, T>, order: seq<nat>, rank: map<nat, nat>) {
    && |l.slab| == |order| == |l.keyToSid|
    && l.head == (if order == [] then None else Some(order[0]))
    && l.tail == (if order == [] then None else Some(order[|order| - 1]))
    && (forall i: nat :: LinkedAt(l, order, rank, i))
    && (forall s: nat :: SlotAt(l, order, rank, s))
    && (forall k :: KeyAt(l, k))
  }

  /** The fields form a list: some order of the slots fits the links and the index. */
  ghost predicate IsList<K(!new), T>(l: Links<K, T>) {
    exists order, rank :: Follows(l, order, rank)
  }

  /** The links alone determine the order: a list has one reading. */
  lemma {:induction false} OrderIsDetermined<K(!new), T>(l: Links<K, T>, a: seq<nat>, ra: map<nat, nat>, b: seq<nat>, rb: map<nat, nat>)
    requires Follows(l, a, ra) && Follows(l, b, rb)
    ensures a == b
  {
    var i := 0;
    while i < |a|
      invariant i <= |a| == |b|
      invariant forall j :: 0 <= j < i ==> a[j] == b[j]
    {
      if i > 0 {
        assert LinkedAt(l, a, ra, i - 1) && LinkedAt(l, b, rb, i - 1);
      }
      i := i + 1;
    }
  }

  ghost function OrderOf<K(!new), T>(l: Links<K, T>): (order: seq<nat>)
    requires IsList(l)
    ensures exists rank :: Follows(l, order, rank)
  {
    var order, rank :| Follows(l, order, rank);
    order
  }

  ghost function PairAt<K, T>(l: Links<K, T>, sid: nat): (K, T)
    requires sid in l.slab
  {
    (l.slab[sid].key, l.slab[sid].value)
  }

  lemma OrderIsLive<K(!new), T>(l: Links<K, T>)
    requires IsList(l)
    ensures forall i :: 0 <= i < |OrderOf(l)| ==> OrderOf(l)[i] in l.slab
  {
    var rank :| Follows(l, OrderOf(l), rank);
    forall i | 0 <= i < |OrderOf(l)| ensures OrderOf(l)[i] in l.slab {
      assert LinkedAt(l, OrderOf(l), rank, i);
    }
  }

  /** The (key, value) pairs from head to tail. */
  ghost function Walk<K(!new), T>(l: Links<K, T>): (pairs: seq<(K, T)>)
    requires IsList(l)
    ensures |pairs| == |OrderOf(l)|
    ensures forall i {:trigger pairs[i]} :: 0 <= i < |pairs| ==> OrderOf(l)[i] in l.slab && pairs[i] == PairAt(l, OrderOf(l)[i])
  {
    OrderIsLive(l);
    seq(|OrderOf(l)|, i requires 0 <= i < |OrderOf(l)| => PairAt(l, OrderOf(l)[i]))
  }

  lemma WalkAlong<K(!new), T>(l: Links<K, T>, order: seq<nat>, rank: map<nat, nat>)
    requires Follows(l, order, rank)
    ensures IsList(l) && OrderOf(l) == order
  {
    var r :| Follows(l, OrderOf(l), r);
    OrderIsDetermined(l, OrderOf(l), r, order, rank);
  }

  /** Position of a key in a pair sequence, or its length when the key is absent. */
  function IndexOf<K(==), T>(s: seq<(K, T)>, k: K): (i: nat)
    ensures i <= |s|
    ensures i < |s| ==> s[i].0 == k
    ensures forall j :: 0 <= j < i ==> s[j].0 != k
  {
    if s == [] then 0 else if s[0].0 == k then 0 else 1 + IndexOf(s[1..], k)
  }

  predicate HasKey<K(==), T>(s: seq<(K, T)>, k: K) {
    IndexOf(s, k) < |s|
  }

  /** Looking a key up in the index or by scanning the pairs finds the same slot. */
  lemma Lookup<K(!new), T>(l: Links<K, T>, order: seq<nat>, rank: map<nat, nat>, k: K)
    requires Follows(l, order, rank) && IsList(l) && OrderOf(l) == order
    ensures HasKey(Walk(l), k) <==> k in l.keyToSid
    ensures k in l.keyToSid ==> l.keyToSid[k] in l.slab && SlotAt(l, order, rank, l.keyToSid[k])
    ensures k in l.keyToSid ==> IndexOf(Walk(l), k) == rank[l.keyToSid[k]]
  {
    var p := IndexOf(Walk(l), k);
    assert KeyAt(l, k);
    if p < |order| {
      assert Walk(l)[p].0 == k;
      assert SlotAt(l, order, rank, order[p]) && LinkedAt(l, order, rank, p);
    }
    if k in l.keyToSid {
      var s := l.keyToSid[k];
      assert SlotAt(l, order, rank, s);
      assert Walk(l)[rank[s]].0 == k;
    }
  }

  /** No key occurs twice along a list. */
  lemma NoRepeats<K(!new), T>(l: Links<K, T>)
    requires IsList(l)
    ensures forall i, j :: 0 <= i < j < |Walk(l)| ==> Walk(l)[i].0 != Walk(l)[j].0
  {
    var order := OrderOf(l);
    var rank :| Follows(l, order, rank);
    forall i, j | 0 <= i < j < |Walk(l)| ensures Walk(l)[i].0 != Walk(l)[j].0 {
      assert LinkedAt(l, order, rank, i) && LinkedAt(l, order, rank, j);
      assert SlotAt(l, order, rank, order[i]) && SlotAt(l, order, rank, order[j]);
    }
  }

  lemma IndexPast<K, T>(s: seq<(K, T)>, i: nat)
    requires i < |s| && forall a, b :: 0 <= a < b < |s| ==> s[a].0 != s[b].0
    ensures !HasKey(s[..i], s[i].0)
  {
  }

  lemma {:induction false} SomeFreeSlot(used: set<nat>) returns (s: nat)
    ensures forall k :: k in used ==> k < s
  {
    if used == {} {
      s := 0;
    } else {
      var k :| k in used;
      var t := SomeFreeSlot(used - {k});
      s := if t <= k then k + 1 else t;
      assert forall j :: j in used ==> j == k || j in used - {k};
    }
  }

  // ----- insertion -----

  ghost predicate NeighbourAt<K, T>(l: Links<K, T>, sid: nat, l': Links<K, T>, s: nat)
    requires sid in l'.slab
  {
    s in l.slab ==>
      && s in l'.slab
      && l'.slab[s] == Node(l.slab[s].key, l.slab[s].value,
                            if l'.slab[sid].prev == Some(s) then Some(sid) else l.slab[s].next,
                            if l'.slab[sid].next == Some(s) then Some(sid) else l.slab[s].prev)
  }

  /** What the pointer surgery of an insertion does: one new slot, and its two neighbours point at it. */
  ghost predicate Spliced<K, T>(l: Links<K, T>, sid: nat, l': Links<K, T>) {
    && sid !in l.slab
    && sid in l'.slab
    && l'.slab.Keys == l.slab.Keys + {sid}
    && l'.slab[sid].key !in l.keyToSid
    && l'.keyToSid == l.keyToSid[l'.slab[sid].key := sid]
    && (forall s :: NeighbourAt(l, sid, l', s))
  }

  /** The new slot stands at position p of `order`. */
  ghost predicate SplicedAt<K, T>(l: Links<K, T>, order: seq<nat>, p: nat, sid: nat, l': Links<K, T>)
    requires sid in l'.slab
  {
    && p <= |order|
    && l'.slab[sid].prev == (if p == 0 then None else Some(order[p - 1]))
    && l'.slab[sid].next == (if p == |order| then None else Some(order[p]))
    && l'.head == Some(if p == 0 then sid else order[0])
    && l'.tail == Some(if p == |order| then sid else order[|order| - 1])
  }

  ghost function SplicedRank(rank: map<nat, nat>, p: nat, sid: nat): map<nat, nat> {
    (map s | s in rank :: if rank[s] < p then rank[s] else rank[s] + 1)[sid := p]
  }

  lemma SpliceLinkedAt<K(!new), T>(l: Links<K, T>, order: seq<nat>, rank: map<nat, nat>, p: nat, sid: nat, l': Links<K, T>, j: nat)
    requires Follows(l, order, rank) && Spliced(l, sid, l') && SplicedAt(l, order, p, sid, l') && j < |order|
    ensures LinkedAt(l', order[..p] + [sid] + order[p..], SplicedRank(rank, p, sid), if j < p then j else j + 1)
  {
    var order' := order[..p] + [sid] + order[p..];
    var i := if j < p then j else j + 1;
    assert order'[i] == order[j];
    assert LinkedAt(l, order, rank, j) && NeighbourAt(l, sid, l', order[j]);
    if p < |order| {
      assert LinkedAt(l, order, rank, p);
    }
    if p > 0 {
      assert LinkedAt(l, order, rank, p - 1);
    }
    assert NextOf(order', i) == if j + 1 == p then Some(sid) else NextOf(order, j);
    assert PrevOf(order', i) == if j == p then Some(sid) else PrevOf(order, j);
  }

  lemma SpliceSlotAt<K(!new), T>(l: Links<K, T>, order: seq<nat>, rank: map<nat, nat>, p: nat, sid: nat, l': Links<K, T>, s: nat)
    requires Follows(l, order, rank) && Spliced(l, sid, l') && SplicedAt(l, order, p, sid, l')
    ensures SlotAt(l', order[..p] + [sid] + order[p..], SplicedRank(rank, p, sid), s)
  {
    assert SlotAt(l, order, rank, s) && NeighbourAt(l, sid, l', s);
  }

  lemma SpliceKeyAt<K(!new), T>(l: Links<K, T>, order: seq<nat>, rank: map<nat, nat>, sid: nat, l': Links<K, T>, k: K)
    requires Follows(l, order, rank) && Spliced(l, sid, l')
    ensures KeyAt(l', k)
  {
    assert KeyAt(l, k);
    if k in l.keyToSid {
      assert NeighbourAt(l, sid, l', l.keyToSid[k]);
    }
  }

  lemma SpliceFollows<K(!new), T>(l: Links<K, T>, order: seq<nat>, rank: map<nat, nat>, p: nat, sid: nat, l': Links<K, T>)
    requires Follows(l, order, rank) && Spliced(l, sid, l') && SplicedAt(l, order, p, sid, l')
    ensures Follows(l', order[..p] + [sid] + order[p..], SplicedRank(rank, p, sid))
  {
    var order', rank' := order[..p] + [sid] + order[p..], SplicedRank(rank, p, sid);
    assert |l'.slab.Keys| == |l.slab.Keys| + 1;
    forall i: nat ensures LinkedAt(l', order', rank', i) {
      if i < p {
        SpliceLinkedAt(l, order, rank, p, sid, l', i);
      } else if p < i < |order'| {
        SpliceLinkedAt(l, order, rank, p, sid, l', i - 1);
      }
    }
    forall s: nat ensures SlotAt(l', order', rank', s) {
      SpliceSlotAt(l, order, rank, p, sid, l', s);
    }
    forall k ensures KeyAt(l', k) {
      SpliceKeyAt(l, order, rank, sid, l', k);
    }
  }

  /** Splicing a slot in keeps the list, and inserts its pair at the same position. */
  lemma SpliceWalk<K(!new), T>(l: Links<K, T>, order: seq<nat>, rank: map<nat, nat>, p: nat, sid: nat, l': Links<K, T>)
    requires Follows(l, order, rank) && IsList(l) && OrderOf(l) == order
    requires Spliced(l, sid, l') && SplicedAt(l, order, p, sid, l')
    ensures IsList(l')
    ensures Walk(l') == Walk(l)[..p] + [PairAt(l', sid)] + Walk(l)[p..]
  {
    var order' := order[..p] + [sid] + order[p..];
    SpliceFollows(l, order, rank, p, sid, l');
    WalkAlong(l', order', SplicedRank(rank, p, sid));
    var w := Walk(l)[..p] + [PairAt(l', sid)] + Walk(l)[p..];
    forall i | 0 <= i < |order'| ensures Walk(l')[i] == w[i] {
      if i < p {
        assert NeighbourAt(l, sid, l', order[i]) && w[i] == Walk(l)[i] && order'[i] == order[i];
      } else if i > p {
        assert NeighbourAt(l, sid, l', order[i - 1]) && w[i] == Walk(l)[i - 1] && order'[i] == order[i - 1];
      }
    }
  }

  /** Put `node` in slot `sid` and point its neighbours at it. */
  function LinkIn<K, T>(slab: map<nat, Node<K, T>>, sid: nat, node: Node<K, T>): map<nat, Node<K, T>>
    requires node.prev.Some? ==> node.prev.value in slab
    requires node.next.Some? ==> node.next.value in slab
  {
    var a := slab[sid := node];
    var b := if node.next.Some? then a[node.next.value := a[node.next.value].(prev := Some(sid))] else a;
    if node.prev.Some? then b[node.prev.value := b[node.prev.value].(next := Some(sid))] else b
  }

  /** The surgery of both insertions, carried out on the slab map, is a splice. */
  lemma LinkInSplices<K(!new), T>(l: Links<K, T>, order: seq<nat>, rank: map<nat, nat>, p: nat, sid: nat, node: Node<K, T>)
    requires Follows(l, order, rank) && p <= |order| && sid !in l.slab && node.key !in l.keyToSid
    requires node.prev == (if p == 0 then None else Some(order[p - 1]))
    requires node.next == (if p == |order| then None else Some(order[p]))
    ensures node.prev.Some? ==> node.prev.value in l.slab
    ensures node.next.Some? ==> node.next.value in l.slab
    ensures var l' := Links(LinkIn(l.slab, sid, node), l.keyToSid[node.key := sid],
                            if p == 0 then Some(sid) else l.head, if p == |order| then Some(sid) else l.tail);
            && l'.slab.Keys == l.slab.Keys + {sid} && l'.slab[sid] == node
            && Spliced(l, sid, l') && SplicedAt(l, order, p, sid, l')
  {
    if p < |order| {
      assert LinkedAt(l, order, rank, p);
    }
    if p > 0 {
      assert LinkedAt(l, order, rank, p - 1);
    }
    assert LinkIn(l.slab, sid, node).Keys == l.slab.Keys + {sid};
  }

  /** The list after its slot `sid` has been linked in behind the tail. */
  function Appended<K, T>(l: Links<K, T>, sid: nat, key: K, value: T): Links<K, T>
    requires l.tail.Some? ==> l.tail.value in l.slab
  {
    Links(LinkIn(l.slab, sid, Node(key, value, None, l.tail)), l.keyToSid[key := sid],
          if l.tail.None? then Some(sid) else l.head, Some(sid))
  }

  /** push_back writes the old tail, then the new slot again. */
  lemma AppendWrites<K, T>(slab: map<nat, Node<K, T>>, t: nat, sid: nat, key: K, value: T)
    requires t in slab && sid !in slab
    ensures var a := slab[sid := Node(key, value, None, None)];
            var b := a[t := a[t].(next := Some(sid))];
            b[sid := b[sid].(prev := Some(t))] == LinkIn(slab, sid, Node(key, value, None, Some(t)))
  {
  }

  lemma AppendedWalk<K(!new), T>(l: Links<K, T>, sid: nat, key: K, value: T)
    requires IsList(l) && sid !in l.slab && key !in l.keyToSid
    ensures l.tail.Some? ==> l.tail.value in l.slab
    ensures Appended(l, sid, key, value).slab.Keys == l.slab.Keys + {sid}
    ensures IsList(Appended(l, sid, key, value))
    ensures Walk(Appended(l, sid, key, value)) == Walk(l) + [(key, value)]
  {
    var order := OrderOf(l);
    var rank :| Follows(l, order, rank);
    LinkInSplices(l, order, rank, |order|, sid, Node(key, value, None, l.tail));
    SpliceWalk(l, order, rank, |order|, sid, Appended(l, sid, key, value));
    assert Walk(l)[..|order|] == Walk(l) && Walk(l)[|order|..] == [];
  }

  // ----- removal -----

  ghost predicate SurvivorAt<K, T>(l: Links<K, T>, sid: nat, l': Links<K, T>, s: nat)
    requires sid in l.slab
  {
    s in l.slab && s != sid ==>
      && s in l'.slab
      && l'.slab[s] == Node(l.slab[s].key, l.slab[s].value,
                            if l.slab[sid].prev == Some(s) then l.slab[sid].next else l.slab[s].next,
                            if l.slab[sid].next == Some(s) then l.slab[sid].prev else l.slab[s].prev)
  }

  /** What the pointer surgery of a removal does: the slot goes, and its two neighbours are joined. */
  ghost predicate Cut<K, T>(l: Links<K, T>, sid: nat, l': Links<K, T>) {
    && sid in l.slab
    && l'.slab.Keys == l.slab.Keys - {sid}
    && l'.keyToSid == l.keyToSid - {l.slab[sid].key}
    && l'.head == (if l.slab[sid].prev.None? then l.slab[sid].next else l.head)
    && l'.tail == (if l.slab[sid].next.None? then l.slab[sid].prev else l.tail)
    && (forall s :: SurvivorAt(l, sid, l', s))
  }

  ghost function CutRank(rank: map<nat, nat>, p: nat): map<nat, nat> {
    map s | s in rank && rank[s] != p :: if rank[s] < p then rank[s] else rank[s] - 1
  }

  lemma CutLinkedAt<K(!new), T>(l: Links<K, T>, order: seq<nat>, rank: map<nat, nat>, p: nat, l': Links<K, T>, j: nat)
    requires Follows(l, order, rank) && p < |order| && Cut(l, order[p], l') && j < |order| && j != p
    ensures LinkedAt(l', order[..p] + order[p + 1..], CutRank(rank, p), if j < p then j else j - 1)
  {
    var order' := order[..p] + order[p + 1..];
    var i := if j < p then j else j - 1;
    assert order'[i] == order[j];
    assert LinkedAt(l, order, rank, j) && LinkedAt(l, order, rank, p) && SurvivorAt(l, order[p], l', order[j]);
    assert NextOf(order', i) == if j + 1 == p then NextOf(order, p) else NextOf(order, j);
    assert PrevOf(order', i) == if j == p + 1 then PrevOf(order, p) else PrevOf(order, j);
    if p + 1 < |order| {
      assert LinkedAt(l, order, rank, p + 1);
    }
    if p > 0 {
      assert LinkedAt(l, order, rank, p - 1);
    }
  }

  lemma CutSlotAt<K(!new), T>(l: Links<K, T>, order: seq<nat>, rank: map<nat, nat>, p: nat, l': Links<K, T>, s: nat)
    requires Follows(l, order, rank) && p < |order| && Cut(l, order[p], l')
    ensures SlotAt(l', order[..p] + order[p + 1..], CutRank(rank, p), s)
  {
    assert SlotAt(l, order, rank, s) && SlotAt(l, order, rank, order[p]) && SurvivorAt(l, order[p], l', s);
  }

  lemma CutFollows<K(!new), T>(l: Links<K, T>, order: seq<nat>, rank: map<nat, nat>, p: nat, l': Links<K, T>)
    requires Follows(l, order, rank) && p < |order| && Cut(l, order[p], l')
    ensures Follows(l', order[..p] + order[p + 1..], CutRank(rank, p))
  {
    var order', rank' := order[..p] + order[p + 1..], CutRank(rank, p);
    assert LinkedAt(l, order, rank, p) && SlotAt(l, order, rank, order[p]);
    assert |l'.slab.Keys| == |l.slab.Keys| - 1;
    assert l'.keyToSid.Keys == l.keyToSid.Keys - {l.slab[order[p]].key};
    forall i: nat ensures LinkedAt(l', order', rank', i) {
      if i < |order'| {
        CutLinkedAt(l, order, rank, p, l', if i < p then i else i + 1);
      }
    }
    forall s: nat ensures SlotAt(l', order', rank', s) {
      CutSlotAt(l, order, rank, p, l', s);
    }
    forall k ensures KeyAt(l', k) {
      assert KeyAt(l, k);
      if k in l.keyToSid {
        assert SurvivorAt(l, order[p], l', l.keyToSid[k]);
      }
    }
  }

  /** Cutting a slot out keeps the list, and drops exactly its pair. */
  lemma CutWalk<K(!new), T>(l: Links<K, T>, order: seq<nat>, rank: map<nat, nat>, p: nat, l': Links<K, T>)
    requires Follows(l, order, rank) && IsList(l) && OrderOf(l) == order
    requires p < |order| && Cut(l, order[p], l')
    ensures IsList(l') && Walk(l') == Walk(l)[..p] + Walk(l)[p + 1..]
  {
    var order' := order[..p] + order[p + 1..];
    CutFollows(l, order, rank, p, l');
    WalkAlong(l', order', CutRank(rank, p));
    var w := Walk(l)[..p] + Walk(l)[p + 1..];
    forall i | 0 <= i < |order'| ensures Walk(l')[i] == w[i] {
      var j := if i < p then i else i + 1;
      assert LinkedAt(l, order, rank, j) && LinkedAt(l, order, rank, p);
      assert SurvivorAt(l, order[p], l', order[j]) && w[i] == Walk(l)[j] && order'[i] == order[j];
    }
  }

  /** Take slot `sid` out and join its neighbours. */
  function LinkOut<K, T>(slab: map<nat, Node<K, T>>, sid: nat): map<nat, Node<K, T>>
    requires sid in slab
    requires slab[sid].prev.Some? ==> slab[sid].prev.value in slab && slab[sid].prev.value != sid
    requires slab[sid].next.Some? ==> slab[sid].next.value in slab && slab[sid].next.value != sid
  {
    var node := slab[sid];
    var a := slab - {sid};
    var b := if node.prev.Some? then a[node.prev.value := a[node.prev.value].(next := node.next)] else a;
    if node.next.Some? then b[node.next.value := b[node.next.value].(prev := node.prev)] else b
  }

  lemma LinkOutCuts<K(!new), T>(l: Links<K, T>, order: seq<nat>, rank: map<nat, nat>, p: nat)
    requires Follows(l, order, rank) && p < |order|
    ensures var sid := order[p];
            && sid in l.slab
            && (l.slab[sid].prev.Some? ==> l.slab[sid].prev.value in l.slab && l.slab[sid].prev.value != sid)
            && (l.slab[sid].next.Some? ==> l.slab[sid].next.value in l.slab && l.slab[sid].next.value != sid)
            && Cut(l, sid, Links(LinkOut(l.slab, sid), l.keyToSid - {l.slab[sid].key},
                                 if l.slab[sid].prev.None? then l.slab[sid].next else l.head,
                                 if l.slab[sid].next.None? then l.slab[sid].prev else l.tail))
  {
    assert LinkedAt(l, order, rank, p);
    if p + 1 < |order| {
      assert LinkedAt(l, order, rank, p + 1);
    }
    if p > 0 {
      assert LinkedAt(l, order, rank, p - 1);
    }
    assert LinkOut(l.slab, order[p]).Keys == l.slab.Keys - {order[p]};
  }

  /** The list after slot `sid` has been taken out. */
  function Removed<K, T>(l: Links<K, T>, sid: nat): Links<K, T>
    requires sid in l.slab
    requires l.slab[sid].prev.Some? ==> l.slab[sid].prev.value in l.slab && l.slab[sid].prev.value != sid
    requires l.slab[sid].next.Some? ==> l.slab[sid].next.value in l.slab && l.slab[sid].next.value != sid
  {
    Links(LinkOut(l.slab, sid), l.keyToSid - {l.slab[sid].key},
          if l.slab[sid].prev.None? then l.slab[sid].next else l.head,
          if l.slab[sid].next.None? then l.slab[sid].prev else l.tail)
  }

  lemma RemovedWalk<K(!new), T>(l: Links<K, T>, key: K)
    requires IsList(l) && key in l.keyToSid
    ensures var sid := l.keyToSid[key];
            && sid in l.slab && l.slab[sid].key == key
            && (l.slab[sid].prev.Some? ==> l.slab[sid].prev.value in l.slab && l.slab[sid].prev.value != sid)
            && (l.slab[sid].next.Some? ==> l.slab[sid].next.value in l.slab && l.slab[sid].next.value != sid)
    ensures var p, sid := IndexOf(Walk(l), key), l.keyToSid[key];
            && p < |Walk(l)| && Walk(l)[p].1 == l.slab[sid].value
            && Removed(l, sid).slab.Keys == l.slab.Keys - {sid}
            && IsList(Removed(l, sid))
            && Walk(Removed(l, sid)) == Walk(l)[..p] + Walk(l)[p + 1..]
  {
    var order := OrderOf(l);
    var rank :| Follows(l, order, rank);
    Lookup(l, order, rank, key);
    assert KeyAt(l, key);
    var p := rank[l.keyToSid[key]];
    LinkOutCuts(l, order, rank, p);
    CutWalk(l, order, rank, p, Removed(l, order[p]));
  }

  // ----- writing through a value reference -----

  lemma WriteWalk<K(!new), T>(l: Links<K, T>, order: seq<nat>, rank: map<nat, nat>, p: nat, v: T)
    requires Follows(l, order, rank) && IsList(l) && OrderOf(l) == order && p < |order|
    ensures order[p] in l.slab
    ensures var l' := l.(slab := l.slab[order[p] := l.slab[order[p]].(value := v)]);
            IsList(l') && Walk(l') == Walk(l)[p := (Walk(l)[p].0, v)]
  {
    assert LinkedAt(l, order, rank, p);
    var l' := l.(slab := l.slab[order[p] := l.slab[order[p]].(value := v)]);
    assert l'.slab.Keys == l.slab.Keys;
    forall i: nat ensures LinkedAt(l', order, rank, i) {
      assert LinkedAt(l, order, rank, i);
    }
    forall s: nat ensures SlotAt(l', order, rank, s) {
      assert SlotAt(l, order, rank, s);
    }
    forall k ensures KeyAt(l', k) {
      assert KeyAt(l, k);
    }
    WalkAlong(l', order, rank);
    var w := Walk(l)[p := (Walk(l)[p].0, v)];
    forall i | 0 <= i < |order| ensures Walk(l')[i] == w[i] {
      assert LinkedAt(l, order, rank, i) && w[i] == if i == p then (Walk(l)[p].0, v) else Walk(l)[i];
    }
  }

  // ----- the list itself -----

  class LinkedList<K(==,!new), T> {
    var keyToSid: map<K, nat>
    var slab: map<nat, Node<K, T>>
    var head: Option<nat>
    var tail: Option<nat>
    // Slots allocated so far; removal frees a slot but never shrinks this.
    var capacity: nat

    ghost function View(): Links<K, T>
      reads this
    {
      Links(slab, keyToSid, head, tail)
    }

    ghost predicate Valid()
      reads this
    {
      IsList(View()) && |slab| <= capacity
    }

    ghost function Contents(): seq<(K, T)>
      reads this
      requires Valid()
    {
      Walk(View())
    }

    constructor ()
      ensures Valid() && Contents() == []
    {
      keyToSid, slab, head, tail, capacity := map[], map[], None, None, 0;
      new;
      assert Follows(View(), [], map[]);
      WalkAlong(View(), [], map[]);
    }

    /** Slab::insert finds any free slot, growing the allocation when there is none. */
    method TakeSlot() returns (sid: nat)
      modifies this`capacity
      ensures sid !in slab && |slab| < capacity
    {
      ghost var free := SomeFreeSlot(slab.Keys);
      assert free !in slab;
      sid :| sid !in slab;
      capacity := if capacity > |slab| then capacity else |slab| + 1;
    }

    method PushBack(key: K, value: T) returns (ok: bool)
      requires Valid()
      modifies this
      ensures Valid()
      ensures ok <==> !HasKey(old(Contents()), key)
      ensures Contents() == if ok then old(Contents()) + [(key, value)] else old(Contents())
    {
      ghost var was := View();
      var present := ContainsKey(key);
      if present {
        return false;
      }
      var sid := TakeSlot();
      AppendedWalk(was, sid, key, value);
      slab := slab[sid := Node(key, value, None, None)];
      keyToSid := keyToSid[key := sid];
      match tail {
        case None =>
          head := Some(sid);
          tail := Some(sid);
        case Some(t) =>
          AppendWrites(was.slab, t, sid, key, value);
          slab := slab[t := slab[t].(next := Some(sid))];
          slab := slab[sid := slab[sid].(prev := Some(t))];
          tail := Some(sid);
      }
      assert View() == Appended(was, sid, key, value);
      ok := true;
    }

    /** Splice `key` in directly in front of `anchor`. */
    method InsertBefore(anchor: K, key: K, value: T) returns (ok: bool)
      requires Valid()
      modifies this
      ensures Valid()
      ensures ok <==> !HasKey(old(Contents()), key) && HasKey(old(Contents()), anchor)
      ensures ok ==> var p := IndexOf(old(Contents()), anchor);
                     Contents() == old(Contents())[..p] + [(key, value)] + old(Contents())[p..]
      ensures !ok ==> Contents() == old(Contents())
    {
      ghost var was, order := View(), OrderOf(View());
      ghost var rank :| Follows(was, order, rank);
      Lookup(was, order, rank, key);
      Lookup(was, order, rank, anchor);
      if key in keyToSid || anchor !in keyToSid {
        return false;
      }
      var beforeSid := keyToSid[anchor];
      ghost var p := rank[beforeSid];
      assert LinkedAt(was, order, rank, p);
      var prev := slab[beforeSid].prev;
      var sid := TakeSlot();
      LinkInSplices(was, order, rank, p, sid, Node(key, value, Some(beforeSid), prev));
      slab := slab[sid := Node(key, value, Some(beforeSid), prev)];
      keyToSid := keyToSid[key := sid];
      slab := slab[beforeSid := slab[beforeSid].(prev := Some(sid))];
      match prev {
        case Some(q) => slab := slab[q := slab[q].(next := Some(sid))];
        case None => head := Some(sid);
      }
      assert slab == LinkIn(was.slab, sid, Node(key, value, Some(beforeSid), prev));
      SpliceWalk(was, order, rank, p, sid, View());
      ok := true;
    }

    /** False when there is no front node to remove. */
    method RemoveFront() returns (ok: bool)
      requires Valid()
      modifies this
      ensures Valid()
      ensures ok <==> old(Contents()) != []
      ensures Contents() == if ok then old(Contents())[1..] else []
    {
      ghost var was, order := View(), OrderOf(View());
      ghost var rank :| Follows(was, order, rank);
      match head {
        case None => return false;
        case Some(h) =>
          LinkOutCuts(was, order, rank, 0);
          assert LinkedAt(was, order, rank, 0);
          var node := slab[h];
          slab := slab - {h};
          keyToSid := keyToSid - {node.key};
          match node.next {
            case None =>
              head := None;
              tail := None;
            case Some(n) =>
              head := Some(n);
              slab := slab[n := slab[n].(prev := None)];
          }
          assert slab == LinkOut(was.slab, h);
          CutWalk(was, order, rank, 0, View());
          ok := true;
      }
    }

    method RemoveNode(key: K) returns (value: Option<T>)
      requires Valid()
      modifies this
      ensures Valid()
      ensures value.Some? <==> HasKey(old(Contents()), key)
      ensures value.Some? ==> var p := IndexOf(old(Contents()), key);
                              value == Some(old(Contents())[p].1) && Contents() == old(Contents())[..p] + old(Contents())[p + 1..]
      ensures value.None? ==> Contents() == old(Contents())
    {
      ghost var was := View();
      var present := ContainsKey(key);
      if !present {
        return None;
      }
      RemovedWalk(was, key);
      var sid := keyToSid[key];
      var node := slab[sid];
      keyToSid := keyToSid - {key};
      slab := slab - {sid};
      match node.prev {
        case Some(q) => slab := slab[q := slab[q].(next := node.next)];
        case None => head := node.next;
      }
      match node.next {
        case Some(n) => slab := slab[n := slab[n].(prev := node.prev)];
        case None => tail := node.prev;
      }
      assert View() == Removed(was, sid);
      value := Some(node.value);
    }

    /** The value behind a key, as node_value_mut hands it out. */
    method NodeValue(key: K) returns (value: Option<T>)
      requires Valid()
      ensures value == if HasKey(Contents(), key) then Some(Contents()[IndexOf(Contents(), key)].1) else None
    {
      ghost var order := OrderOf(View());
      ghost var rank :| Follows(View(), order, rank);
      Lookup(View(), order, rank, key);
      value := if key in keyToSid then Some(slab[keyToSid[key]].value) else None;
    }

    /** A write through the reference of node_value_mut. */
    method SetNodeValue(key: K, value: T)
      requires Valid() && HasKey(Contents(), key)
      modifies this
      ensures Valid()
      ensures var p := IndexOf(old(Contents()), key); Contents() == old(Contents())[p := (key, value)]
    {
      ghost var order := OrderOf(View());
      ghost var rank :| Follows(View(), order, rank);
      Lookup(View(), order, rank, key);
      var sid := keyToSid[key];
      WriteWalk(View(), order, rank, rank[sid], value);
      slab := slab[sid := slab[sid].(value := value)];
    }

    /** The front value, as head_value_ref_mut_unsafe hands it out. */
    method HeadValue() returns (value: Option<T>)
      requires Valid()
      ensures value == if Contents() == [] then None else Some(Contents()[0].1)
    {
      ghost var order := OrderOf(View());
      ghost var rank :| Follows(View(), order, rank);
      assert LinkedAt(View(), order, rank, 0);
      value := if head.None? then None else Some(slab[head.value].value);
    }

    /** A write through the reference of head_value_ref_mut_unsafe. */
    method SetHeadValue(value: T)
      requires Valid() && Contents() != []
      modifies this
      ensures Valid()
      ensures Contents() == old(Contents())[0 := (old(Contents())[0].0, value)]
    {
      ghost var order := OrderOf(View());
      ghost var rank :| Follows(View(), order, rank);
      assert LinkedAt(View(), order, rank, 0);
      WriteWalk(View(), order, rank, 0, value);
      slab := slab[head.value := slab[head.value].(value := value)];
    }

    method ContainsKey(key: K) returns (found: bool)
      requires Valid()
      ensures found <==> HasKey(Contents(), key)
      ensures found <==> key in keyToSid
    {
      ghost var order := OrderOf(View());
      ghost var rank :| Follows(View(), order, rank);
      Lookup(View(), order, rank, key);
      found := key in keyToSid;
    }

    method Len() returns (n: nat)
      requires Valid()
      ensures n == |Contents()|
    {
      ghost var rank :| Follows(View(), OrderOf(View()), rank);
      n := |keyToSid|;
    }

    method IsEmpty() returns (empty: bool)
      requires Valid()
      ensures empty <==> Contents() == []
    {
      ghost var rank :| Follows(View(), OrderOf(View()), rank);
      empty := head.None?;
    }

    method ToVec() returns (values: seq<(K, T)>)
      requires Valid()
      ensures values == Contents()
    {
      ghost var order := OrderOf(View());
      ghost var rank :| Follows(View(), order, rank);
      values := [];
      var cur := head;
      while cur.Some?
        invariant |values| <= |order| && values == Contents()[..|values|]
        invariant cur == if |values| < |order| then Some(order[|values|]) else None
        decreases |order| - |values|
      {
        assert LinkedAt(View(), order, rank, |values|);
        var node := slab[cur.value];
        assert Contents()[|values|] == (node.key, node.value);
        values := values + [(node.key, node.value)];
        cur := node.next;
      }
    }

    /** Refill an emptied list. */
    method PushAll(items: seq<(K, T)>)
      requires Valid() && Contents() == []
      requires forall a, b :: 0 <= a < b < |items| ==> items[a].0 != items[b].0
      modifies this
      ensures Valid() && Contents() == items
    {
      var i := 0;
      while i < |items|
        invariant i <= |items| && Valid() && Contents() == items[..i]
      {
        IndexPast(items, i);
        assert items[..i + 1] == items[..i] + [items[i]];
        var ok := PushBack(items[i].0, items[i].1);
        i := i + 1;
      }
    }

    /** Give slots back when most are free, by rebuilding; the sequence does not change. */
    method Compact() returns (rebuilt: bool)
      requires Valid()
      modifies this
      ensures Valid() && Contents() == old(Contents())
      ensures rebuilt <==> old(capacity) > 2 * old(|slab|) + 64
    {
      if capacity <= 2 * |slab| + 64 {
        return false;
      }
      var items := ToVec();
      NoRepeats(View());
      slab, keyToSid, head, tail, capacity := map[], map[], None, None, |slab|;
      assert Follows(View(), [], map[]);
      WalkAlong(View(), [], map[]);
      PushAll(items);
      rebuilt := true;
    }
  }
}
