/**
 Shared ownership of card objects: `shared_ptr` use counts, the places that own
 a share, and the destructor runs.
 */
module CardShares {

  type Card = nat
  type Object = nat

  // Where a share is held: an entry of m_cards, the local variable of the claim
  // that is building the object, or any other local variable or moved-out share.
  datatype Place = InMap(card: Card) | InClaim(token: nat) | InFrame(frame: nat)

  datatype Heap = Heap(
    shares: map<Place, Object>,
    owners: map<Object, nat>,      // use counts
    destroyed: seq<Object>,        // destructor runs, in order
    next: Object)

  const NoObjects := Heap(map[], map[], [], 0)

  // std::make_shared into a fresh local.
  function New(h: Heap, p: Place): Heap {
    h.(shares := h.shares[p := h.next], owners := h.owners[h.next := 1], next := h.next + 1)
  }

  function Move(h: Heap, from: Place, to: Place): Heap {
    if from !in h.shares then h
    else h.(shares := (h.shares - {from})[to := h.shares[from]])
  }

  function Copy(h: Heap, from: Place, to: Place): Heap {
    if from !in h.shares || h.shares[from] !in h.owners then h
    else
      var o := h.shares[from];
      h.(shares := h.shares[to := o], owners := h.owners[o := h.owners[o] + 1])
  }

  // The share at p goes away; the last one runs the destructor.
  function Drop(h: Heap, p: Place): Heap {
    if p !in h.shares || h.shares[p] !in h.owners || h.owners[h.shares[p]] == 0 then h
    else
      var o := h.shares[p];
      h.(shares := h.shares - {p}, owners := h.owners[o := h.owners[o] - 1],
         destroyed := if h.owners[o] == 1 then h.destroyed + [o] else h.destroyed)
  }

  // The places holding a share of o.
  function Holders(shares: map<Place, Object>, o: Object): set<Place> {
    set p | p in shares && shares[p] == o
  }

  function Runs(log: seq<Object>, o: Object): nat {
    multiset(log)[o]
  }

  // Every use count is the number of places holding a share, and the objects
  // destroyed are, once each, those nobody holds any more.
  ghost predicate Valid(h: Heap) {
    && (forall o :: o in h.owners ==> o < h.next && h.owners[o] == |Holders(h.shares, o)|)
    && (forall p :: p in h.shares ==> h.shares[p] in h.owners)
    && (forall o :: Runs(h.destroyed, o) == if o in h.owners && h.owners[o] == 0 then 1 else 0)
  }

  // The object behind a share is alive: it is owned, and its destructor has not run.
  lemma HeldIsAlive(h: Heap, p: Place)
    requires Valid(h) && p in h.shares
    ensures h.shares[p] in h.owners && h.owners[h.shares[p]] > 0 && h.shares[p] !in h.destroyed
  {
    assert p in Holders(h.shares, h.shares[p]);
    assert Runs(h.destroyed, h.shares[p]) == 0;
  }

  lemma HoldersAfterAdd(m: map<Place, Object>, p: Place, v: Object, o: Object)
    requires p !in m
    ensures Holders(m[p := v], o) == if o == v then Holders(m, o) + {p} else Holders(m, o)
  {
  }

  lemma HoldersAfterRemove(m: map<Place, Object>, p: Place, o: Object)
    requires p in m
    ensures Holders(m - {p}, o) == Holders(m, o) - {p}
    ensures p in Holders(m, o) <==> m[p] == o
  {
  }

  lemma NewIsValid(h: Heap, p: Place)
    requires Valid(h) && p !in h.shares
    ensures Valid(New(h, p))
  {
    var t := New(h, p);
    assert h.next !in h.owners;
    assert Holders(h.shares, h.next) == {};
    forall o | o in t.owners
      ensures o < t.next && t.owners[o] == |Holders(t.shares, o)|
    {
      HoldersAfterAdd(h.shares, p, h.next, o);
    }
    assert Runs(h.destroyed, h.next) == 0;
  }

  lemma MoveIsValid(h: Heap, from: Place, to: Place)
    requires Valid(h) && from in h.shares && to !in h.shares
    ensures Valid(Move(h, from, to))
  {
    var t := Move(h, from, to);
    forall o | o in t.owners
      ensures t.owners[o] == |Holders(t.shares, o)|
    {
      HoldersAfterRemove(h.shares, from, o);
      HoldersAfterAdd(h.shares - {from}, to, h.shares[from], o);
    }
  }

  lemma CopyIsValid(h: Heap, from: Place, to: Place)
    requires Valid(h) && from in h.shares && to !in h.shares
    ensures Valid(Copy(h, from, to))
  {
    HeldIsAlive(h, from);
    var t := Copy(h, from, to);
    assert t.owners.Keys == h.owners.Keys && t.destroyed == h.destroyed && t.next == h.next;
    forall o | o in t.owners
      ensures o < t.next && t.owners[o] == |Holders(t.shares, o)|
    {
      HoldersAfterAdd(h.shares, to, h.shares[from], o);
    }
    forall o: Object
      ensures Runs(t.destroyed, o) == if o in t.owners && t.owners[o] == 0 then 1 else 0
    {
      assert Runs(h.destroyed, o) == if o in h.owners && h.owners[o] == 0 then 1 else 0;
    }
  }

  lemma DropIsValid(h: Heap, p: Place)
    requires Valid(h) && p in h.shares
    ensures Valid(Drop(h, p)) && Drop(h, p).shares == h.shares - {p}
  {
    HeldIsAlive(h, p);
    var t := Drop(h, p);
    forall o | o in t.owners
      ensures t.owners[o] == |Holders(t.shares, o)|
    {
      HoldersAfterRemove(h.shares, p, o);
    }
    forall o
      ensures Runs(t.destroyed, o) == if o in t.owners && t.owners[o] == 0 then 1 else 0
    {
      assert Runs(h.destroyed, o) == if o in h.owners && h.owners[o] == 0 then 1 else 0;
    }
  }
}
