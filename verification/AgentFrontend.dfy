/**
 The frontend as it keeps its cards: a map of shared objects that carry their
 own use counts, and locals that hold shares across the mutex. One method per
 critical section or off-lock piece; each takes its step of the deferred
 publication, whose results therefore hold of the objects themselves.
 */
module AgentFrontend {
  import opened Wrappers
  import opened CardShares
  import opened DeferredPublish

  /** A CardObject with its shared_ptr control block. */
  class CardObject {
    ghost const number: Object   // the steps' name for it
    var uses: nat
    var destroyed: bool
    var cardType: string

    constructor (ghost number: Object)
      ensures this.number == number && uses == 1 && !destroyed
    {
      this.number, uses, destroyed, cardType := number, 1, false, "";
    }

    // Copying a shared_ptr.
    method Share()
      modifies `uses
      ensures uses == old(uses) + 1
    {
      uses := uses + 1;
    }

    // Resetting one: the last owner destroys the object.
    method Release()
      requires uses > 0
      modifies `uses, `destroyed
      ensures uses == old(uses) - 1 && destroyed == (old(destroyed) || old(uses) == 1)
    {
      uses := uses - 1;
      if uses == 0 {
        destroyed := true;
      }
    }
  }

  datatype Verdict = DropIt | RetryIt | ClaimIt

  type Objects = map<Object, CardObject>

  // The place holds a share of this object.
  ghost predicate ShareOf(h: Heap, objects: Objects, p: Place, card: CardObject) {
    p in h.shares && h.shares[p] in objects && objects[h.shares[p]] == card
  }

  // The object carries the use count and the fate the steps give it.
  ghost predicate Counted(h: Heap, objects: Objects, o: Object)
    requires o in objects
    reads objects.Values
  {
    && objects[o].number == o && o in h.owners && objects[o].uses == h.owners[o]
    && (objects[o].destroyed <==> o in h.destroyed)
  }

  // m_cards holds the shares the steps put there, and every object is counted.
  ghost predicate TiedTo(h: Heap, cards: map<Card, CardObject>, objects: Objects)
    reads objects.Values
  {
    && (forall c: Card :: c in cards <==> InMap(c) in h.shares)
    && (forall c: Card | c in cards :: ShareOf(h, objects, InMap(c), cards[c]))
    && objects.Keys == h.owners.Keys
    && forall o: Object | o in objects :: Counted(h, objects, o)
  }

  // A share moved to another place, m_cards being changed accordingly.
  lemma MovedStaysTied(h: Heap, cards: map<Card, CardObject>, cards': map<Card, CardObject>, objects: Objects,
                       from: Place, to: Place)
    requires TiedTo(h, cards, objects) && from in h.shares && h.shares[from] in objects && to !in h.shares
    requires forall c: Card :: c in cards' <==> (InMap(c) != from && (c in cards || InMap(c) == to))
    requires forall c: Card | c in cards' :: cards'[c] == if InMap(c) == to then objects[h.shares[from]] else cards[c]
    ensures TiedTo(Move(h, from, to), cards', objects)
  {
    var h' := Move(h, from, to);
    forall c: Card | c in cards'
      ensures ShareOf(h', objects, InMap(c), cards'[c])
    {
      if InMap(c) != to {
        assert ShareOf(h, objects, InMap(c), cards[c]);
      }
    }
    forall o: Object | o in objects
      ensures Counted(h', objects, o)
    {
      assert Counted(h, objects, o);
    }
  }

  // Of the publishing step: a pending card is not exported, so nothing is
  // displaced, and the share only moves.
  lemma PublishFacts(budget: nat, acts: seq<Action>, t: Token)
    requires var s := Run(budget, acts); At(s.desk, t, Building)
    ensures var s := Run(budget, acts); var c := s.desk.tokens[t].card;
      var to := if c in s.desk.pending then InMap(c) else InFrame(s.desk.next);
      && InClaim(t) in s.heap.shares && s.heap.shares[InClaim(t)] in s.heap.owners && to !in s.heap.shares
      && Step(s, Publish(t)).heap == Move(s.heap, InClaim(t), to)
      && Step(s, Publish(t)).desk.pending == s.desk.pending - {c}
  {
    var s := Run(budget, acts);
    RunInv(budget, acts);
    if s.desk.tokens[t].card in s.desk.pending {
      ExportKeepsInv(s, t);
    }
  }

  lemma PublishEndsTheResolve(budget: nat, acts: seq<Action>, t: Token)
    requires At(Run(budget, acts).desk, t, Building)
    ensures !Resolving(Step(Run(budget, acts), Publish(t)).desk, Run(budget, acts).desk.tokens[t].card)
  {
    var s := Run(budget, acts);
    var c := s.desk.tokens[t].card;
    RunInv(budget, acts);
    assert TokenFor(s.desk, t, c);
    forall u: Token | TokenFor(Step(s, Publish(t)).desk, u, c)
      ensures false
    {
      assert TokenFor(s.desk, u, c);
    }
  }

  lemma ApplyFacts(budget: nat, acts: seq<Action>, t: Token, c: Card, couldOpen: bool)
    requires var s := Run(budget, acts); At(s.desk, t, Posted(couldOpen)) && TokenFor(s.desk, t, c)
    ensures var s, s' := Run(budget, acts), Step(Run(budget, acts), ApplyProbe(t)); var pending := s.desk.pending;
      && s'.heap == s.heap
      && (c in pending ==> pending[c] == Reprobes(budget, acts, c) <= budget)
      && Taken(s.desk, s'.desk, budget, c, couldOpen)
      && (c in s'.desk.pending ==>
            s'.desk.pending[c] == Reprobes(budget, acts + [ApplyProbe(t)], c) <= budget)
  {
    RetryBudgetBounds(budget, acts, c);
    ProbeTakes(budget, acts, t, c);
    OneMoreStep(budget, acts, ApplyProbe(t));
    RetryBudgetBounds(budget, acts + [ApplyProbe(t)], c);
  }

  lemma ConstructFacts(budget: nat, acts: seq<Action>, t: Token)
    requires var s := Run(budget, acts); At(s.desk, t, Claimed)
    ensures var s := Run(budget, acts); var to := InClaim(s.desk.next);
      to !in s.heap.shares && s.heap.next !in s.heap.owners && s.heap.next !in s.heap.destroyed
      && Step(s, Construct(t)).heap == New(s.heap, to) && Step(s, Construct(t)).desk.pending == s.desk.pending
  {
    var s := Run(budget, acts);
    RunInv(budget, acts);
    assert Runs(s.heap.destroyed, s.heap.next) == 0;
  }

  lemma CopyFacts(budget: nat, acts: seq<Action>, c: Card)
    requires var s := Run(budget, acts); Exported(s, c)
    ensures var s := Run(budget, acts); var to := InFrame(s.desk.next);
      to !in s.heap.shares && s.heap.shares[InMap(c)] in s.heap.owners
      && Step(s, CopyShare(c)).heap == Copy(s.heap, InMap(c), to)
      && Step(s, CopyShare(c)).desk.pending == s.desk.pending
  {
    var s := Run(budget, acts);
    RunInv(budget, acts);
  }

  lemma WithdrawFacts(budget: nat, acts: seq<Action>, c: Card)
    requires var s := Run(budget, acts); c in s.desk.seen
    ensures var s := Run(budget, acts); var to := InFrame(s.desk.next);
      to !in s.heap.shares && Step(s, Withdraw(c)).heap == Move(s.heap, InMap(c), to)
      && Step(s, Withdraw(c)).desk.pending == s.desk.pending - {c} && Gone(Step(s, Withdraw(c)), c)
      && (Exported(s, c) ==> s.heap.shares[InMap(c)] in s.heap.owners)
  {
    var s := Run(budget, acts);
    RunInv(budget, acts);
    WithdrawnIsGone(s, c);
  }

  lemma DropFacts(budget: nat, acts: seq<Action>, f: nat)
    requires var s := Run(budget, acts); InFrame(f) in s.heap.shares
    ensures var s := Run(budget, acts); var h, h' := s.heap, Step(s, DropShare(f)).heap; var o := h.shares[InFrame(f)];
      && o in h.owners && h.owners[o] > 0 && o !in h.destroyed
      && h'.shares == h.shares - {InFrame(f)} && h'.owners == h.owners[o := h.owners[o] - 1]
      && h'.destroyed == (if h.owners[o] == 1 then h.destroyed + [o] else h.destroyed)
      && Step(s, DropShare(f)).desk == s.desk
      && (h.owners[o] == 1 <==> Holders(h'.shares, o) == {})
  {
    var s := Run(budget, acts);
    RunInv(budget, acts);
    HeldIsAlive(s.heap, InFrame(f));
    HoldersAfterRemove(s.heap.shares, InFrame(f), s.heap.shares[InFrame(f)]);
    var o := s.heap.shares[InFrame(f)];
    assert |Holders(s.heap.shares - {InFrame(f)}, o)| == s.heap.owners[o] - 1;
  }

  class Frontend {
    const budget: nat
    var pendingCards: map<Card, nat>
    var cards: map<Card, CardObject>

    ghost var trail: seq<Action>                  // the steps all threads have taken
    ghost var objects: map<Object, CardObject>    // every object ever built

    ghost function View(): State
      reads this
    {
      Run(budget, trail)
    }

    // What the fields and the objects say is what the steps say.
    ghost predicate Valid()
      reads this, objects.Values
    {
      pendingCards == View().desk.pending && TiedTo(View().heap, cards, objects)
    }

    ghost predicate Holds(p: Place, card: CardObject)
      reads this
    {
      ShareOf(View().heap, objects, p, card)
    }

    constructor (budget: nat)
      ensures Valid() && trail == [] && this.budget == budget && pendingCards == map[] && cards == map[]
    {
      this.budget := budget;
      pendingCards, cards, trail, objects := map[], map[], [], map[];
    }

    ghost method Took(a: Action)
      requires TiedTo(Step(View(), a).heap, cards, objects) && pendingCards == Step(View(), a).desk.pending
      modifies `trail
      ensures Valid() && trail == old(trail) + [a] && View() == Step(old(View()), a)
    {
      OneMore(a);
      trail := trail + [a];
    }

    lemma OneMore(a: Action)
      ensures Run(budget, trail + [a]) == Step(View(), a)
    {
      assert (trail + [a])[..|trail|] == trail;
    }

    // A held object is alive.
    lemma HeldIsNotDestroyed(p: Place, card: CardObject)
      requires TiedTo(View().heap, cards, objects) && Holds(p, card)
      ensures !card.destroyed && card.uses > 0
    {
      RunInv(budget, trail);
      HeldIsAlive(View().heap, p);
      assert Counted(View().heap, objects, View().heap.shares[p]);
    }

    // materializeCard, up to its first scheduleCardResolve.
    method MaterializeCard(c: Card)
      requires Valid() && c !in View().desk.seen
      modifies `pendingCards, `trail
      ensures Valid() && trail == old(trail) + [Materialize(c)]
      ensures pendingCards == old(pendingCards)[c := 0] && OnlyAt(View().desk, c, Scheduling)
    {
      MaterializedIsPending(budget, trail, c);
      pendingCards := pendingCards[c := 0];
      Took(Materialize(c));
    }

    // scheduleCardResolve: the worker takes the probe, or the queue is full and
    // the resolve waits.
    method ScheduleCardResolve(t: Token, c: Card, queued: bool)
      requires Valid() && At(View().desk, t, Scheduling) && TokenFor(View().desk, t, c)
      modifies `trail
      ensures Valid() && trail == old(trail) + [Schedule(t, queued)]
      ensures OnlyAt(View().desk, c, if queued then Probing else Retrying)
    {
      ResolveMoves(budget, trail, t, c, Schedule(t, queued));
      Took(Schedule(t, queued));
    }

    // The callback rescheduleCardResolve posts: whether it schedules again.
    method RunReschedule(t: Token, c: Card) returns (again: bool)
      requires Valid() && At(View().desk, t, Retrying) && TokenFor(View().desk, t, c)
      modifies `trail
      ensures Valid() && trail == old(trail) + [RetryDue(t)]
      ensures again <==> Resolving(View().desk, c)
    {
      RunInv(budget, trail);
      again := c in pendingCards;
      ghost var next := View().desk.next;
      Took(RetryDue(t));
      assert again ==> TokenFor(View().desk, next, c);
      forall u: Token | TokenFor(View().desk, u, c)
        ensures again
      {
        assert !again ==> TokenFor(old(View()).desk, u, c);
      }
    }

    // applyCardResolution up to the end of its first critical section: the
    // attempts it keeps are the re-probes the card was ever given, within the
    // budget, and a claim has no rival.
    method ApplyCardResolution(t: Token, c: Card, couldOpen: bool) returns (verdict: Verdict)
      requires Valid() && At(View().desk, t, Posted(couldOpen)) && TokenFor(View().desk, t, c)
      modifies `pendingCards, `trail
      ensures Valid() && trail == old(trail) + [ApplyProbe(t)]
      ensures verdict == DropIt <==> c !in pendingCards
      ensures c in pendingCards ==> pendingCards[c] == Reprobes(budget, trail, c) <= budget
      ensures c in pendingCards ==>
                (verdict == RetryIt <==> !couldOpen && Reprobes(budget, old(trail), c) < budget)
      ensures match verdict
              case DropIt => !Resolving(View().desk, c) && pendingCards == old(pendingCards)
              case RetryIt => OnlyAt(View().desk, c, Retrying) &&
                              pendingCards == old(pendingCards)[c := old(pendingCards)[c] + 1]
              case ClaimIt => OnlyAt(View().desk, c, Claimed) && pendingCards == old(pendingCards)
    {
      ApplyFacts(budget, trail, t, c, couldOpen);
      if c !in pendingCards {
        verdict := DropIt;
      } else if !couldOpen && pendingCards[c] < budget {
        pendingCards := pendingCards[c := pendingCards[c] + 1];
        verdict := RetryIt;
      } else {
        verdict := ClaimIt;
      }
      Took(ApplyProbe(t));
    }

    // Building the object, off the lock; it may throw, and then the card stays
    // pending without a resolve.
    method ConstructCard(t: Token, c: Card, throws: bool) returns (card: CardObject?)
      requires Valid() && At(View().desk, t, Claimed) && TokenFor(View().desk, t, c)
      modifies `trail, `objects
      ensures Valid() && trail == old(trail) + [if throws then ConstructThrows(t) else Construct(t)]
      ensures (card == null) == throws
      ensures card != null ==> fresh(card) && card.uses == 1 && Holds(InClaim(old(View()).desk.next), card)
    {
      if throws {
        card := null;
        Took(ConstructThrows(t));
        return;
      }
      ConstructFacts(budget, trail, t);
      ghost var h := View().heap;
      var built := new CardObject(h.next);
      card := built;
      objects := objects[h.next := built];
      forall o: Object | o in objects
        ensures Counted(Step(View(), Construct(t)).heap, objects, o)
      {
        assert o != h.next ==> Counted(h, old(objects), o);
      }
      forall d: Card | d in cards
        ensures ShareOf(Step(View(), Construct(t)).heap, objects, InMap(d), cards[d])
      {
        assert ShareOf(h, old(objects), InMap(d), cards[d]);
      }
      Took(Construct(t));
    }

    // The second critical section: published, or handed back to be dropped off
    // the lock when the card was withdrawn meanwhile. Nothing is destroyed here.
    method PublishCard(t: Token, c: Card, card: CardObject) returns (dying: CardObject?)
      requires Valid() && At(View().desk, t, Building) && TokenFor(View().desk, t, c) && Holds(InClaim(t), card)
      modifies `pendingCards, `cards, `trail
      ensures Valid() && trail == old(trail) + [Publish(t)]
      ensures c !in pendingCards && !card.destroyed && !Resolving(View().desk, c)
      ensures c in old(pendingCards) ==> dying == null && c !in old(cards) && cards == old(cards)[c := card]
      ensures c !in old(pendingCards) ==>
                dying == card && cards == old(cards) && Holds(InFrame(old(View()).desk.next), card)
    {
      HeldIsNotDestroyed(InClaim(t), card);
      PublishFacts(budget, trail, t);
      PublishEndsTheResolve(budget, trail, t);
      ghost var h, to := View().heap, if c in pendingCards then InMap(c) else InFrame(View().desk.next);
      if c !in pendingCards {
        dying := card;
      } else {
        pendingCards := pendingCards - {c};
        cards := cards[c := card];
        dying := null;
      }
      MovedStaysTied(h, old(cards), cards, objects, InClaim(t), to);
      Took(Publish(t));
    }

    // applyCardTypeUpdate under the mutex: a share of its own, or nothing.
    method CopyForUpdate(c: Card) returns (card: CardObject?)
      requires Valid()
      modifies `trail, objects.Values
      ensures Valid() && trail == old(trail) + [CopyShare(c)] && cards == old(cards) && objects == old(objects)
      ensures card == if c in old(cards) then old(cards)[c] else null
      ensures card != null ==> card.uses == old(card.uses) + 1 && Holds(InFrame(old(View()).desk.next), card)
    {
      if c !in cards {
        card := null;
        Took(CopyShare(c));
        return;
      }
      CopyFacts(budget, trail, c);
      ghost var h := View().heap;
      ghost var o := h.shares[InMap(c)];
      assert ShareOf(h, objects, InMap(c), cards[c]) && Counted(h, objects, o);
      card := cards[c];
      card.Share();
      forall p: Object | p in objects
        ensures Counted(Step(View(), CopyShare(c)).heap, objects, p)
      {
        assert old(Counted(h, objects, p));
      }
      forall d: Card | d in cards
        ensures ShareOf(Step(View(), CopyShare(c)).heap, objects, InMap(d), cards[d])
      {
        assert ShareOf(h, objects, InMap(d), cards[d]);
      }
      Took(CopyShare(c));
    }

    // updateCardType, off the lock: the object is alive, whoever withdrew it.
    method UpdateCardType(ghost f: nat, card: CardObject, cardType: string)
      requires Valid() && Holds(InFrame(f), card)
      modifies card`cardType
      ensures Valid() && card.cardType == cardType && !card.destroyed
    {
      HeldIsNotDestroyed(InFrame(f), card);
      card.cardType := cardType;
      assert forall o: Object | o in objects :: old(Counted(View().heap, objects, o));
    }

    // withdrawObject under the mutex: neither pending nor exported afterwards;
    // the exported share moves out to be dropped off the lock.
    method WithdrawObject(c: Card) returns (dying: CardObject?)
      requires Valid() && c in View().desk.seen
      modifies `pendingCards, `cards, `trail
      ensures Valid() && trail == old(trail) + [Withdraw(c)] && Gone(View(), c)
      ensures pendingCards == old(pendingCards) - {c} && cards == old(cards) - {c}
      ensures dying == if c in old(cards) then old(cards)[c] else null
      ensures dying != null ==> !dying.destroyed && Holds(InFrame(old(View()).desk.next), dying)
    {
      WithdrawFacts(budget, trail, c);
      ghost var h, to := View().heap, InFrame(View().desk.next);
      dying := if c in cards then cards[c] else null;
      pendingCards := pendingCards - {c};
      cards := cards - {c};
      if dying != null {
        assert ShareOf(h, objects, InMap(c), dying);
        MovedStaysTied(h, old(cards), cards, objects, InMap(c), to);
      }
      Took(Withdraw(c));
      if dying != null {
        HeldIsNotDestroyed(to, dying);
      }
    }

    // A local's share goes: the object goes with it if nobody else holds one.
    method DropLocal(ghost f: nat, card: CardObject)
      requires Valid() && Holds(InFrame(f), card)
      modifies `trail, card`uses, card`destroyed
      ensures Valid() && trail == old(trail) + [DropShare(f)] && cards == old(cards)
      ensures card.destroyed <==> forall p: Place :: !Holds(p, card)
    {
      DropFacts(budget, trail, f);
      ghost var h := View().heap;
      ghost var o := h.shares[InFrame(f)];
      assert Counted(h, objects, o);
      card.Release();
      forall p: Object | p in objects
        ensures Counted(Step(View(), DropShare(f)).heap, objects, p)
      {
        assert old(Counted(h, objects, p));
      }
      forall d: Card | d in cards
        ensures ShareOf(Step(View(), DropShare(f)).heap, objects, InMap(d), cards[d])
      {
        assert ShareOf(h, objects, InMap(d), cards[d]);
      }
      Took(DropShare(f));
      Unheld(o, card);
    }

    // Nobody holds an object that has no holders.
    lemma Unheld(o: Object, card: CardObject)
      requires TiedTo(View().heap, cards, objects) && o in objects && objects[o] == card
      ensures Holders(View().heap.shares, o) == {} <==> forall p: Place :: !Holds(p, card)
    {
      assert Counted(View().heap, objects, o);
      forall p: Place | p in View().heap.shares && View().heap.shares[p] in objects
        ensures objects[View().heap.shares[p]].number == View().heap.shares[p]
      {
        assert Counted(View().heap, objects, View().heap.shares[p]);
      }
      forall p: Place
        ensures Holds(p, card) <==> p in Holders(View().heap.shares, o)
      {
      }
      if p :| p in Holders(View().heap.shares, o) {
        assert Holds(p, card);
      }
    }
  }
}
