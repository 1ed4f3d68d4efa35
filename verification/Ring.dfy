/** The doubly linked ring of kernel/bio.c: links stored inside a table of buffers, with a header
    node at index NBUF. The pointer assignments are functions on the table; the lemmas say what
    they do to the order of the ring. */
module Ring {
  import opened Blocks

  const NBUF := 30
  const HEAD := NBUF

  type Link = x: nat | x <= NBUF

  datatype Buf = Buf(dev: uint, blockno: uint, valid: bool, dirty: bool, refcnt: nat, data: Block,
                     next: Link, prev: Link)

  type Table = t: seq<Buf> | |t| == NBUF + 1
    witness seq(NBUF + 1, i => Buf(0, 0, false, false, 0, ZERO, 0, 0))

  /** Position k of the ring through the header: 0 and |order| + 1 are the header itself. */
  ghost function At(order: seq<Link>, k: nat): Link
    requires k <= |order| + 1
  {
    if k == 0 || k == |order| + 1 then HEAD else order[k - 1]
  }

  ghost predicate Distinct(order: seq<Link>) {
    && (forall i | 0 <= i < |order| :: order[i] < NBUF)
    && (forall i, j | 0 <= i < j < |order| :: order[i] != order[j])
  }

  ghost predicate Linked(t: Table, order: seq<Link>, k: nat)
    requires k <= |order|
  {
    t[At(order, k)].next == At(order, k + 1) && t[At(order, k + 1)].prev == At(order, k)
  }

  /** Following next from the header visits order and comes back; prev goes the other way. */
  ghost predicate RingOf(t: Table, order: seq<Link>) {
    Distinct(order) && forall k | 0 <= k <= |order| :: Linked(t, order, k)
  }

  function SetNext(t: Table, i: Link, x: Link): Table { t[i := t[i].(next := x)] }
  function SetPrev(t: Table, i: Link, x: Link): Table { t[i := t[i].(prev := x)] }

  /** b->next->prev = b->prev; b->prev->next = b->next */
  function Unlink(t: Table, b: Link): Table {
    var u := SetPrev(t, t[b].next, t[b].prev);
    SetNext(u, u[b].prev, u[b].next)
  }

  /** Insert b right after the header. */
  function PushFront(t: Table, b: Link): Table {
    var u := SetPrev(SetNext(t, b, t[HEAD].next), b, HEAD);
    SetNext(SetPrev(u, u[HEAD].next, b), HEAD, b)
  }

  lemma PushFrontRing(t: Table, order: seq<Link>, b: Link)
    requires RingOf(t, order) && b < NBUF && b !in order
    ensures RingOf(PushFront(t, b), [b] + order)
  {
    var u := PushFront(t, b);
    var o := [b] + order;
    assert Linked(t, order, 0);
    forall k | 0 <= k <= |o| ensures Linked(u, o, k) {
      if k >= 2 {
        assert Linked(t, order, k - 1);
        assert At(o, k) == At(order, k - 1) && At(o, k + 1) == At(order, k);
      }
    }
  }

  ghost function Without(order: seq<Link>, j: nat): seq<Link>
    requires j < |order|
  {
    order[..j] + order[j + 1..]
  }

  lemma UnlinkRing(t: Table, order: seq<Link>, j: nat)
    requires RingOf(t, order) && j < |order|
    ensures RingOf(Unlink(t, order[j]), Without(order, j))
    ensures order[j] !in Without(order, j)
  {
    var b := order[j];
    var u := Unlink(t, b);
    var o := Without(order, j);
    assert Linked(t, order, j) && Linked(t, order, j + 1);
    assert t[b].prev == At(order, j) && t[b].next == At(order, j + 2);
    forall k | 0 <= k <= |o| ensures Linked(u, o, k) {
      if k < j {
        assert Linked(t, order, k);
        assert At(o, k) == At(order, k) && At(o, k + 1) == At(order, k + 1);
      } else if k == j {
        assert At(o, k) == At(order, j) && At(o, k + 1) == At(order, j + 2);
      } else {
        assert Linked(t, order, k + 1);
        assert At(o, k) == At(order, k + 1) && At(o, k + 1) == At(order, k + 2);
      }
    }
  }

  /** brelse's relinking: the released buffer becomes the most recently used. */
  lemma MoveToFrontRing(t: Table, order: seq<Link>, j: nat)
    requires RingOf(t, order) && j < |order|
    ensures RingOf(PushFront(Unlink(t, order[j]), order[j]), [order[j]] + Without(order, j))
  {
    UnlinkRing(t, order, j);
    PushFrontRing(Unlink(t, order[j]), Without(order, j), order[j]);
  }

  ghost predicate SameButLinks(t: Table, u: Table) {
    forall i | 0 <= i <= NBUF :: u[i] == t[i].(next := u[i].next, prev := u[i].prev)
  }

  lemma SetLinksOnly(t: Table, i: Link, x: Link)
    ensures SameButLinks(t, SetNext(t, i, x)) && SameButLinks(t, SetPrev(t, i, x))
  {
  }

  /** Relinking touches links only. */
  lemma RelinkLinksOnly(t: Table, b: Link)
    ensures SameButLinks(t, PushFront(Unlink(t, b), b))
  {
    UnlinkLinksOnly(t, b);
    PushFrontLinksOnly(Unlink(t, b), b);
  }

  lemma UnlinkLinksOnly(t: Table, b: Link)
    ensures SameButLinks(t, Unlink(t, b))
  {
    var u := SetPrev(t, t[b].next, t[b].prev);
    SetLinksOnly(t, t[b].next, t[b].prev);
    SetLinksOnly(u, u[b].prev, u[b].next);
  }

  lemma PushFrontLinksOnly(t: Table, b: Link)
    ensures SameButLinks(t, PushFront(t, b))
  {
    var u1 := SetNext(t, b, t[HEAD].next);
    SetLinksOnly(t, b, t[HEAD].next);
    var u2 := SetPrev(u1, b, HEAD);
    SetLinksOnly(u1, b, HEAD);
    var u3 := SetPrev(u2, u2[HEAD].next, b);
    SetLinksOnly(u2, u2[HEAD].next, b);
    SetLinksOnly(u3, HEAD, b);
  }

  /** Two tables that agree on links have the same ring. */
  lemma SameLinks(t: Table, u: Table, order: seq<Link>)
    requires RingOf(t, order)
    requires forall i | 0 <= i <= NBUF :: u[i].next == t[i].next && u[i].prev == t[i].prev
    ensures RingOf(u, order)
  {
    forall k | 0 <= k <= |order| ensures Linked(u, order, k) {
      assert Linked(t, order, k);
    }
  }
}
