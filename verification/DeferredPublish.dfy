/**
 Deferred publication of a card object: the monitor thread, the reader's worker
 and the event loop share the pending and the exported cards under one mutex,
 and build and drop the objects outside it. One action is one critical section,
 one construction, one drop or one hand-over between threads.

 Card ids come from one per-process counter and are never used again.
 */
module DeferredPublish {
  import opened CardShares

  // One resolve in progress.
  type Token = nat

  datatype Stage =
    | Scheduling                // about to run scheduleCardResolve
    | Probing                   // queued on the reader's worker
    | Posted(couldOpen: bool)   // applyCardResolution is posted with this probe
    | Retrying                  // a delayed re-run is posted or armed
    | Claimed                   // past the first critical section
    | Building                  // the object is built, the second one is ahead

  datatype Resolve = Resolve(card: Card, stage: Stage)

  // How often the policy has a card probed again that could not be opened,
  // m_pendingCards (retries used so far), the resolves in flight, every card id
  // ever materialised, and the cards whose object could not be built. `next`
  // numbers tokens and frames.
  datatype Desk = Desk(budget: nat, pending: map<Card, nat>, tokens: map<Token, Resolve>, seen: set<Card>,
                       lost: set<Card>, next: nat)

  // The entry InMap(c) of the heap is the entry for c of m_cards.
  datatype State = State(desk: Desk, heap: Heap)

  function Init(budget: nat): State {
    State(Desk(budget, map[], map[], {}, {}, 0), NoObjects)
  }

  predicate Exported(s: State, c: Card) {
    InMap(c) in s.heap.shares
  }

  datatype Action =
    | Materialize(card: Card)
    | Schedule(token: Token, queued: bool)
    | ProbeDone(token: Token, couldOpen: bool)
    | RetryDue(token: Token)
    | ApplyProbe(token: Token)
    | Construct(token: Token)
    | ConstructThrows(token: Token)  // the loop swallows what the callback throws
    | Publish(token: Token)
    | CopyShare(card: Card)          // applyCardTypeUpdate under the mutex
    | Withdraw(card: Card)           // withdrawObject under the mutex
    | DropShare(frame: nat)          // a held share goes out of scope

  predicate HoldsMutex(a: Action) {
    a.Materialize? || a.RetryDue? || a.ApplyProbe? || a.Publish? || a.CopyShare? || a.Withdraw?
  }

  predicate At(d: Desk, t: Token, stage: Stage) {
    t in d.tokens && d.tokens[t].stage == stage
  }

  // One closure is consumed and the one that follows it is created.
  function Advance(d: Desk, t: Token, stage: Stage): Desk
    requires t in d.tokens
  {
    d.(tokens := (d.tokens - {t})[d.next := Resolve(d.tokens[t].card, stage)], next := d.next + 1)
  }

  function Finish(d: Desk, t: Token): Desk {
    d.(tokens := d.tokens - {t})
  }

  function Materializing(d: Desk, c: Card): Desk {
    d.(pending := d.pending[c := 0], tokens := d.tokens[d.next := Resolve(c, Scheduling)], seen := d.seen + {c},
       next := d.next + 1)
  }

  // applyCardResolution, first critical section: drop, retry or claim.
  function Applying(d: Desk, t: Token, couldOpen: bool): Desk
    requires t in d.tokens
  {
    var c := d.tokens[t].card;
    if c !in d.pending then Finish(d, t)
    else if !couldOpen && d.pending[c] < d.budget then
      Advance(d.(pending := d.pending[c := d.pending[c] + 1]), t, Retrying)
    else Advance(d, t, Claimed)
  }

  function Constructing(s: State, t: Token): State
    requires t in s.desk.tokens
  {
    State(Advance(s.desk, t, Building), New(s.heap, InClaim(s.desk.next)))
  }

  // applyCardResolution, second critical section. insert_or_assign would drop
  // a displaced entry's share right here, under the mutex.
  function Publishing(s: State, t: Token): State
    requires t in s.desk.tokens
  {
    var c := s.desk.tokens[t].card;
    var d := Finish(s.desk, t);
    if c !in d.pending then
      State(d.(next := d.next + 1), Move(s.heap, InClaim(t), InFrame(d.next)))
    else
      State(d.(pending := d.pending - {c}), Move(Drop(s.heap, InMap(c)), InClaim(t), InMap(c)))
  }

  function Copying(s: State, c: Card): State {
    State(s.desk.(next := s.desk.next + 1), Copy(s.heap, InMap(c), InFrame(s.desk.next)))
  }

  function Withdrawing(s: State, c: Card): State {
    State(s.desk.(pending := s.desk.pending - {c}, next := s.desk.next + 1),
          Move(s.heap, InMap(c), InFrame(s.desk.next)))
  }

  function Step(s: State, a: Action): State {
    var d := s.desk;
    match a
    case Materialize(c) => if c in d.seen then s else s.(desk := Materializing(d, c))
    case Schedule(t, queued) =>
      if At(d, t, Scheduling) then s.(desk := Advance(d, t, if queued then Probing else Retrying)) else s
    case ProbeDone(t, couldOpen) =>
      if At(d, t, Probing) then s.(desk := Advance(d, t, Posted(couldOpen))) else s
    case RetryDue(t) =>
      if !At(d, t, Retrying) then s
      else s.(desk := if d.tokens[t].card in d.pending then Advance(d, t, Scheduling) else Finish(d, t))
    case ApplyProbe(t) =>
      if t in d.tokens && d.tokens[t].stage.Posted? then s.(desk := Applying(d, t, d.tokens[t].stage.couldOpen))
      else s
    case Construct(t) => if At(d, t, Claimed) then Constructing(s, t) else s
    case ConstructThrows(t) =>
      if At(d, t, Claimed) then s.(desk := Finish(d, t).(lost := d.lost + {d.tokens[t].card})) else s
    case Publish(t) => if At(d, t, Building) then Publishing(s, t) else s
    case CopyShare(c) => if Exported(s, c) then Copying(s, c) else s
    case Withdraw(c) => if c in d.seen then Withdrawing(s, c) else s
    case DropShare(f) => s.(heap := Drop(s.heap, InFrame(f)))
  }

  function Run(budget: nat, acts: seq<Action>): State {
    if acts == [] then Init(budget) else Step(Run(budget, acts[..|acts| - 1]), acts[|acts| - 1])
  }

  // ---------------------------------------------------------------------
  // The invariant
  // ---------------------------------------------------------------------

  ghost predicate TokenFor(d: Desk, t: Token, c: Card) {
    t in d.tokens && d.tokens[t].card == c
  }

  ghost predicate Resolving(d: Desk, c: Card) {
    exists t :: TokenFor(d, t, c)
  }

  // A pending card has a resolve in flight unless its object could not be
  // built, and then it has none; no card has two.
  ghost predicate DeskInv(d: Desk) {
    && (forall t :: t in d.tokens ==> t < d.next && d.tokens[t].card in d.seen)
    && (forall t, u, c :: TokenFor(d, t, c) && TokenFor(d, u, c) ==> t == u)
    && (forall c :: c in d.pending ==> c in d.seen && d.pending[c] <= d.budget && (c in d.lost || Resolving(d, c)))
    && (forall c :: c in d.lost ==> c in d.seen && !Resolving(d, c))
  }

  // Where the shares are, as the desk knows it.
  ghost predicate PlacesInv(s: State) {
    && (forall c: Card :: InMap(c) in s.heap.shares ==> c in s.desk.seen && c !in s.desk.pending)
    && (forall t: Token :: InClaim(t) in s.heap.shares <==> At(s.desk, t, Building))
    && (forall f: nat :: InFrame(f) in s.heap.shares ==> f < s.desk.next)
  }

  ghost predicate Inv(s: State) {
    DeskInv(s.desk) && Valid(s.heap) && PlacesInv(s)
  }

  lemma AdvanceKeepsDesk(d: Desk, t: Token, stage: Stage)
    requires DeskInv(d) && t in d.tokens
    ensures DeskInv(Advance(d, t, stage))
  {
    var e := Advance(d, t, stage);
    forall c | c in e.pending && c !in e.lost
      ensures Resolving(e, c)
    {
      var u :| TokenFor(d, u, c);
      assert TokenFor(e, if u == t then d.next else u, c);
    }
    forall c, u | c in e.lost && TokenFor(e, u, c)
      ensures false
    {
      assert TokenFor(d, if u == d.next then t else u, c);
    }
    forall u, v, c | TokenFor(e, u, c) && TokenFor(e, v, c)
      ensures u == v
    {
      assert TokenFor(d, if u == d.next then t else u, c) && TokenFor(d, if v == d.next then t else v, c);
    }
  }

  lemma FinishKeepsDesk(d: Desk, t: Token, pending: map<Card, nat>)
    requires DeskInv(d) && t in d.tokens && pending == d.pending - {d.tokens[t].card}
    ensures DeskInv(Finish(d, t).(pending := pending))
  {
    var e := Finish(d, t).(pending := pending);
    forall c | c in e.pending && c !in e.lost
      ensures Resolving(e, c)
    {
      var u :| TokenFor(d, u, c);
      assert TokenFor(e, u, c);
    }
    forall c, u | c in e.lost && TokenFor(e, u, c)
      ensures false
    {
      assert TokenFor(d, u, c);
    }
    forall u, v, c | TokenFor(e, u, c) && TokenFor(e, v, c)
      ensures u == v
    {
      assert TokenFor(d, u, c) && TokenFor(d, v, c);
    }
  }

  // Fewer pending cards, more retries used, more numbers handed out.
  lemma PendingKeepsDesk(d: Desk, pending: map<Card, nat>, next: nat)
    requires DeskInv(d) && pending.Keys <= d.pending.Keys && d.next <= next
    requires forall c :: c in pending ==> pending[c] <= d.budget
    ensures DeskInv(d.(pending := pending, next := next))
  {
    var e := d.(pending := pending, next := next);
    forall c | c in e.pending && c !in e.lost
      ensures Resolving(e, c)
    {
      var u :| TokenFor(d, u, c);
      assert TokenFor(e, u, c);
    }
    forall c, u | c in e.lost && TokenFor(e, u, c)
      ensures false
    {
      assert TokenFor(d, u, c);
    }
    forall u, v, c | TokenFor(e, u, c) && TokenFor(e, v, c)
      ensures u == v
    {
      assert TokenFor(d, u, c) && TokenFor(d, v, c);
    }
  }

  lemma MaterializeKeepsDesk(d: Desk, c: Card)
    requires DeskInv(d) && c !in d.seen
    ensures DeskInv(Materializing(d, c))
  {
    var e := Materializing(d, c);
    forall x | x in e.pending && x !in e.lost
      ensures Resolving(e, x)
    {
      if x == c {
        assert TokenFor(e, d.next, c);
      } else {
        var u :| TokenFor(d, u, x);
        assert TokenFor(e, u, x);
      }
    }
    forall x, u | x in e.lost && TokenFor(e, u, x)
      ensures false
    {
      assert TokenFor(d, u, x);
    }
    forall u, v, x | TokenFor(e, u, x) && TokenFor(e, v, x)
      ensures u == v
    {
      if x != c {
        assert TokenFor(d, u, x) && TokenFor(d, v, x);
      }
    }
  }

  lemma ApplyKeepsDesk(d: Desk, t: Token, couldOpen: bool)
    requires DeskInv(d) && t in d.tokens
    ensures DeskInv(Applying(d, t, couldOpen))
  {
    var c := d.tokens[t].card;
    if c !in d.pending {
      assert d.pending == d.pending - {c};
      FinishKeepsDesk(d, t, d.pending);
    } else if !couldOpen && d.pending[c] < d.budget {
      PendingKeepsDesk(d, d.pending[c := d.pending[c] + 1], d.next);
      AdvanceKeepsDesk(d.(pending := d.pending[c := d.pending[c] + 1]), t, Retrying);
    } else {
      AdvanceKeepsDesk(d, t, Claimed);
    }
  }

  lemma ConstructKeepsInv(s: State, t: Token)
    requires Inv(s) && At(s.desk, t, Claimed)
    ensures Inv(Constructing(s, t))
  {
    AdvanceKeepsDesk(s.desk, t, Building);
    assert InClaim(s.desk.next) !in s.heap.shares;
    NewIsValid(s.heap, InClaim(s.desk.next));
  }

  lemma ThrowKeepsInv(s: State, t: Token)
    requires Inv(s) && At(s.desk, t, Claimed)
    ensures Inv(Step(s, ConstructThrows(t)))
  {
    var d := s.desk;
    var e := Step(s, ConstructThrows(t)).desk;
    var gone := d.tokens[t].card;
    assert TokenFor(d, t, gone);
    forall c | c in e.pending && c !in e.lost
      ensures Resolving(e, c)
    {
      var u :| TokenFor(d, u, c);
      assert TokenFor(e, u, c);
    }
    forall c, u | c in e.lost && TokenFor(e, u, c)
      ensures false
    {
      assert TokenFor(d, u, c);
    }
    forall u, v, c | TokenFor(e, u, c) && TokenFor(e, v, c)
      ensures u == v
    {
      assert TokenFor(d, u, c) && TokenFor(d, v, c);
    }
    DeskStepKeepsInv(s, e);
  }

  lemma DiscardKeepsDesk(d: Desk, t: Token)
    requires DeskInv(d) && t in d.tokens && d.tokens[t].card !in d.pending
    ensures DeskInv(Finish(d, t).(next := d.next + 1))
  {
    assert d.pending == d.pending - {d.tokens[t].card};
    FinishKeepsDesk(d, t, d.pending);
    PendingKeepsDesk(Finish(d, t), d.pending, d.next + 1);
  }

  lemma DiscardKeepsInv(s: State, t: Token)
    requires Inv(s) && At(s.desk, t, Building) && s.desk.tokens[t].card !in s.desk.pending
    ensures Inv(Publishing(s, t))
  {
    DiscardKeepsDesk(s.desk, t);
    assert InFrame(s.desk.next) !in s.heap.shares;
    MoveIsValid(s.heap, InClaim(t), InFrame(s.desk.next));
  }

  lemma ExportKeepsInv(s: State, t: Token)
    requires Inv(s) && At(s.desk, t, Building) && s.desk.tokens[t].card in s.desk.pending
    ensures Inv(Publishing(s, t))
    ensures Publishing(s, t).heap == Move(s.heap, InClaim(t), InMap(s.desk.tokens[t].card))
  {
    var c := s.desk.tokens[t].card;
    FinishKeepsDesk(s.desk, t, s.desk.pending - {c});
    assert InMap(c) !in s.heap.shares;
    MoveIsValid(s.heap, InClaim(t), InMap(c));
  }

  lemma CopyKeepsInv(s: State, c: Card)
    requires Inv(s) && Exported(s, c)
    ensures Inv(Copying(s, c))
  {
    PendingKeepsDesk(s.desk, s.desk.pending, s.desk.next + 1);
    assert InFrame(s.desk.next) !in s.heap.shares;
    CopyIsValid(s.heap, InMap(c), InFrame(s.desk.next));
  }

  lemma WithdrawKeepsInv(s: State, c: Card)
    requires Inv(s)
    ensures Inv(Withdrawing(s, c))
  {
    PendingKeepsDesk(s.desk, s.desk.pending - {c}, s.desk.next + 1);
    WithdrawKeepsPlaces(s, c);
  }

  lemma WithdrawKeepsPlaces(s: State, c: Card)
    requires Valid(s.heap) && PlacesInv(s)
    ensures Valid(Withdrawing(s, c).heap) && PlacesInv(Withdrawing(s, c))
  {
    assert InFrame(s.desk.next) !in s.heap.shares;
    if Exported(s, c) {
      MoveIsValid(s.heap, InMap(c), InFrame(s.desk.next));
    }
  }

  // A step of the desk alone leaves the shares where they are.
  lemma DeskStepKeepsInv(s: State, d: Desk)
    requires Inv(s) && DeskInv(d)
    requires s.desk.seen <= d.seen && s.desk.next <= d.next
    requires forall c :: c in d.pending ==> c in s.desk.pending || c !in s.desk.seen
    requires forall t: Token :: At(d, t, Building) <==> At(s.desk, t, Building)
    ensures Inv(s.(desk := d))
  {
  }

  lemma AdvanceKeepsInv(s: State, t: Token, stage: Stage)
    requires Inv(s) && t in s.desk.tokens && s.desk.tokens[t].stage != Building && stage != Building
    ensures Inv(s.(desk := Advance(s.desk, t, stage)))
  {
    AdvanceKeepsDesk(s.desk, t, stage);
    DeskStepKeepsInv(s, Advance(s.desk, t, stage));
  }

  lemma RetryKeepsInv(s: State, t: Token)
    requires Inv(s) && At(s.desk, t, Retrying)
    ensures Inv(Step(s, RetryDue(t)))
  {
    var d := s.desk;
    if d.tokens[t].card in d.pending {
      AdvanceKeepsInv(s, t, Scheduling);
    } else {
      assert d.pending == d.pending - {d.tokens[t].card};
      FinishKeepsDesk(d, t, d.pending);
      DeskStepKeepsInv(s, Finish(d, t));
    }
  }

  lemma ApplyKeepsInv(s: State, t: Token)
    requires Inv(s) && t in s.desk.tokens && s.desk.tokens[t].stage.Posted?
    ensures Inv(Step(s, ApplyProbe(t)))
  {
    ApplyKeepsDesk(s.desk, t, s.desk.tokens[t].stage.couldOpen);
    DeskStepKeepsInv(s, Applying(s.desk, t, s.desk.tokens[t].stage.couldOpen));
  }

  lemma ResolveKeepsInv(s: State, a: Action)
    requires Inv(s)
    requires a.Materialize? || a.Schedule? || a.ProbeDone? || a.RetryDue? || a.ApplyProbe? || a.ConstructThrows?
    ensures Inv(Step(s, a))
  {
    var d := s.desk;
    match a
    case Materialize(c) =>
      if c !in d.seen {
        MaterializeKeepsDesk(d, c);
        DeskStepKeepsInv(s, Materializing(d, c));
      }
    case Schedule(t, queued) =>
      if At(d, t, Scheduling) {
        AdvanceKeepsInv(s, t, if queued then Probing else Retrying);
      }
    case ProbeDone(t, couldOpen) =>
      if At(d, t, Probing) {
        AdvanceKeepsInv(s, t, Posted(couldOpen));
      }
    case RetryDue(t) =>
      if At(d, t, Retrying) {
        RetryKeepsInv(s, t);
      }
    case ApplyProbe(t) =>
      if t in d.tokens && d.tokens[t].stage.Posted? {
        ApplyKeepsInv(s, t);
      }
    case ConstructThrows(t) =>
      if At(d, t, Claimed) {
        ThrowKeepsInv(s, t);
      }
  }

  lemma SharesKeepInv(s: State, a: Action)
    requires Inv(s) && (a.Construct? || a.Publish? || a.CopyShare? || a.Withdraw? || a.DropShare?)
    ensures Inv(Step(s, a))
  {
    match a
    case Construct(t) =>
      if At(s.desk, t, Claimed) {
        ConstructKeepsInv(s, t);
      }
    case Publish(t) =>
      if At(s.desk, t, Building) {
        if s.desk.tokens[t].card in s.desk.pending {
          ExportKeepsInv(s, t);
        } else {
          DiscardKeepsInv(s, t);
        }
      }
    case CopyShare(c) =>
      if Exported(s, c) {
        CopyKeepsInv(s, c);
      }
    case Withdraw(c) => WithdrawKeepsInv(s, c);
    case DropShare(f) =>
      if InFrame(f) in s.heap.shares {
        DropIsValid(s.heap, InFrame(f));
      }
  }

  lemma StepKeepsInv(s: State, a: Action)
    requires Inv(s)
    ensures Inv(Step(s, a))
  {
    if a.Construct? || a.Publish? || a.CopyShare? || a.Withdraw? || a.DropShare? {
      SharesKeepInv(s, a);
    } else {
      ResolveKeepsInv(s, a);
    }
  }

  lemma {:induction false} RunInv(budget: nat, acts: seq<Action>)
    ensures Inv(Run(budget, acts))
  {
    if acts != [] {
      RunInv(budget, acts[..|acts| - 1]);
      StepKeepsInv(Run(budget, acts[..|acts| - 1]), acts[|acts| - 1]);
    }
  }

  // ---------------------------------------------------------------------
  // Over every run
  // ---------------------------------------------------------------------

  /** No card is pending and exported at once. */
  lemma {:induction false} PendingAndExportedAreDisjoint(budget: nat, acts: seq<Action>, c: Card)
    ensures !(c in Run(budget, acts).desk.pending && Exported(Run(budget, acts), c))
  {
    RunInv(budget, acts);
  }

  ghost predicate Gone(s: State, c: Card) {
    c in s.desk.seen && c !in s.desk.pending && !Exported(s, c)
  }

  lemma GoneStaysGone(s: State, a: Action, c: Card)
    requires Gone(s, c)
    ensures Gone(Step(s, a), c)
  {
  }

  lemma WithdrawnIsGone(s: State, c: Card)
    requires Inv(s) && c in s.desk.seen
    ensures Gone(Step(s, Withdraw(c)), c)
  {
  }

  /** Once a card's withdrawal has run it is never pending or exported again,
      wherever its resolve stood, its off-lock construction included. */
  lemma {:induction false} WithdrawnStaysOut(budget: nat, acts: seq<Action>, i: nat, c: Card)
    requires i < |acts| && acts[i] == Withdraw(c) && c in Run(budget, acts[..i]).desk.seen
    ensures Gone(Run(budget, acts), c)
    decreases |acts|
  {
    var n := |acts| - 1;
    if i == n {
      RunInv(budget, acts[..i]);
      WithdrawnIsGone(Run(budget, acts[..i]), c);
    } else {
      assert acts[..n][..i] == acts[..i];
      WithdrawnStaysOut(budget, acts[..n], i, c);
      GoneStaysGone(Run(budget, acts[..n]), acts[n], c);
    }
  }

  // The step failed to build the object of c.
  predicate ThrowsNow(s: State, a: Action, c: Card) {
    a.ConstructThrows? && At(s.desk, a.token, Claimed) && s.desk.tokens[a.token].card == c
  }

  // Some action of the run did.
  predicate BuildThrew(budget: nat, acts: seq<Action>, c: Card) {
    exists i :: 0 <= i < |acts| && ThrowsNow(Run(budget, acts[..i]), acts[i], c)
  }

  lemma StepLoses(s: State, a: Action, c: Card)
    ensures c in Step(s, a).desk.lost <==> c in s.desk.lost || ThrowsNow(s, a, c)
  {
  }

  lemma BuildThrewSoFar(budget: nat, acts: seq<Action>, a: Action, c: Card)
    ensures BuildThrew(budget, acts + [a], c) <==> BuildThrew(budget, acts, c) || ThrowsNow(Run(budget, acts), a, c)
  {
    var more := acts + [a];
    assert more[..|acts|] == acts && more[|acts|] == a;
    assert forall i :: 0 <= i < |acts| ==> more[..i] == acts[..i] && more[i] == acts[i];
  }

  lemma {:induction false} LostIsBuildThrew(budget: nat, acts: seq<Action>, c: Card)
    ensures c in Run(budget, acts).desk.lost <==> BuildThrew(budget, acts, c)
  {
    if acts != [] {
      var n := |acts| - 1;
      assert acts == acts[..n] + [acts[n]];
      LostIsBuildThrew(budget, acts[..n], c);
      BuildThrewSoFar(budget, acts[..n], acts[n], c);
      StepLoses(Run(budget, acts[..n]), acts[n], c);
    }
  }

  /** A pending card never has two resolves in flight, so it is not claimed
      twice; and it has one, so it is not silently dropped, if and only if
      building its object has not thrown. */
  lemma {:induction false} ExactlyOneResolve(budget: nat, acts: seq<Action>, c: Card)
    requires c in Run(budget, acts).desk.pending
    ensures (exists t :: TokenFor(Run(budget, acts).desk, t, c)) <==> !BuildThrew(budget, acts, c)
    ensures forall t, u :: TokenFor(Run(budget, acts).desk, t, c) && TokenFor(Run(budget, acts).desk, u, c) ==> t == u
  {
    RunInv(budget, acts);
    LostIsBuildThrew(budget, acts, c);
    assert Resolving(Run(budget, acts).desk, c) <==> c !in Run(budget, acts).desk.lost;
  }

  // A resolve of c is at this stage.
  ghost predicate NowAt(d: Desk, c: Card, stage: Stage) {
    exists t :: TokenFor(d, t, c) && d.tokens[t].stage == stage
  }

  // c has one resolve, and it is at this stage.
  ghost predicate OnlyAt(d: Desk, c: Card, stage: Stage) {
    exists t :: TokenFor(d, t, c) && d.tokens[t].stage == stage && forall u :: TokenFor(d, u, c) ==> u == t
  }

  // The step sends c, whose probe has come back, to be probed again.
  ghost predicate ReprobesNow(s: State, a: Action, c: Card) {
    a.ApplyProbe? && TokenFor(s.desk, a.token, c) && s.desk.tokens[a.token].stage.Posted?
    && NowAt(Step(s, a).desk, c, Retrying)
  }

  ghost function Reprobes(budget: nat, acts: seq<Action>, c: Card): nat {
    if acts == [] then 0
    else
      var front := acts[..|acts| - 1];
      Reprobes(budget, front, c) + if ReprobesNow(Run(budget, front), acts[|acts| - 1], c) then 1 else 0
  }

  predicate Counts(s: State, c: Card, n: nat) {
    && n <= s.desk.budget
    && (c in s.desk.pending ==> n == s.desk.pending[c])
    && (c !in s.desk.seen ==> n == 0)
  }

  // Dropped, retried or claimed, by the retries used so far.
  ghost predicate Taken(d: Desk, d': Desk, budget: nat, c: Card, couldOpen: bool) {
    if c !in d.pending then !Resolving(d', c) && d'.pending == d.pending
    else if !couldOpen && d.pending[c] < budget then
      OnlyAt(d', c, Retrying) && d'.pending == d.pending[c := d.pending[c] + 1]
    else OnlyAt(d', c, Claimed) && d'.pending == d.pending
  }

  // Where the probe's result takes the resolve.
  lemma ProbeTakesIt(s: State, t: Token, c: Card)
    requires Inv(s) && TokenFor(s.desk, t, c) && s.desk.tokens[t].stage.Posted?
    ensures Taken(s.desk, Step(s, ApplyProbe(t)).desk, s.desk.budget, c, s.desk.tokens[t].stage.couldOpen)
  {
    var d, d' := s.desk, Step(s, ApplyProbe(t)).desk;
    forall u | TokenFor(d', u, c)
      ensures c in d.pending && u == d.next
    {
      if u != d.next {
        assert TokenFor(d, u, c);
      }
    }
    if c in d.pending {
      assert TokenFor(d', d.next, c);
    }
  }

  lemma StepCounts(s: State, a: Action, c: Card, n: nat)
    requires Inv(s) && Counts(s, c, n)
    ensures Counts(Step(s, a), c, n + if ReprobesNow(s, a, c) then 1 else 0)
  {
    if a.ApplyProbe? && TokenFor(s.desk, a.token, c) && s.desk.tokens[a.token].stage.Posted? {
      ProbeTakesIt(s, a.token, c);
    }
  }

  lemma {:induction false} BudgetStays(budget: nat, acts: seq<Action>)
    ensures Run(budget, acts).desk.budget == budget
  {
    if acts != [] {
      BudgetStays(budget, acts[..|acts| - 1]);
    }
  }

  /** Whatever the policy's budget, the retry count of a pending card is the
      re-probes it was given, and no card is ever given more than the budget. */
  lemma {:induction false} RetryBudgetBounds(budget: nat, acts: seq<Action>, c: Card)
    ensures Reprobes(budget, acts, c) <= budget
    ensures Counts(Run(budget, acts), c, Reprobes(budget, acts, c))
  {
    BudgetStays(budget, acts);
    if acts != [] {
      var front := acts[..|acts| - 1];
      RunInv(budget, front);
      RetryBudgetBounds(budget, front, c);
      StepCounts(Run(budget, front), acts[|acts| - 1], c, Reprobes(budget, front, c));
    }
  }

  lemma ReprobesOneMore(budget: nat, acts: seq<Action>, a: Action, c: Card)
    ensures Run(budget, acts + [a]) == Step(Run(budget, acts), a)
    ensures Reprobes(budget, acts + [a], c)
         == Reprobes(budget, acts, c) + if ReprobesNow(Run(budget, acts), a, c) then 1 else 0
  {
    assert (acts + [a])[..|acts|] == acts;
  }

  // The same over every run.
  lemma {:induction false} ProbeTakes(budget: nat, acts: seq<Action>, t: Token, c: Card)
    requires TokenFor(Run(budget, acts).desk, t, c) && Run(budget, acts).desk.tokens[t].stage.Posted?
    ensures Taken(Run(budget, acts).desk, Step(Run(budget, acts), ApplyProbe(t)).desk, budget, c,
                  Run(budget, acts).desk.tokens[t].stage.couldOpen)
  {
    RunInv(budget, acts);
    BudgetStays(budget, acts);
    ProbeTakesIt(Run(budget, acts), t, c);
  }

  /** What a probe's result does. Of a withdrawn card nothing is left in
      flight. A pending one that could not be opened, and has been probed again
      less often than the policy allows, is probed once more; any other is
      claimed for construction. */
  lemma {:induction false} ProbeDecides(budget: nat, acts: seq<Action>, t: Token, c: Card, couldOpen: bool)
    requires var d := Run(budget, acts).desk; TokenFor(d, t, c) && d.tokens[t].stage == Posted(couldOpen)
    ensures var d, d' := Run(budget, acts).desk, Run(budget, acts + [ApplyProbe(t)]).desk;
      var more := Reprobes(budget, acts + [ApplyProbe(t)], c);
      if c !in d.pending then !Resolving(d', c) && d'.pending == d.pending
      else if !couldOpen && Reprobes(budget, acts, c) < budget then
        OnlyAt(d', c, Retrying) && d'.pending == d.pending[c := more] && more == Reprobes(budget, acts, c) + 1
      else OnlyAt(d', c, Claimed) && d'.pending == d.pending && more == Reprobes(budget, acts, c)
  {
    ProbeTakes(budget, acts, t, c);
    RetryBudgetBounds(budget, acts, c);
    ReprobesOneMore(budget, acts, ApplyProbe(t), c);
  }

  lemma OneMoreStep(budget: nat, acts: seq<Action>, a: Action)
    ensures Run(budget, acts + [a]) == Step(Run(budget, acts), a)
    ensures (acts + [a])[..|acts|] == acts
  {
    assert (acts + [a])[..|acts|] == acts;
  }

  // One resolve consumed and the next created is the same card's only one.
  lemma OnlyTheNext(d: Desk, d': Desk, t: Token, stage: Stage)
    requires DeskInv(d) && t in d.tokens
    requires d'.tokens == (d.tokens - {t})[d.next := Resolve(d.tokens[t].card, stage)]
    ensures OnlyAt(d', d.tokens[t].card, stage)
  {
    var c := d.tokens[t].card;
    assert TokenFor(d', d.next, c);
    forall u | TokenFor(d', u, c)
      ensures u == d.next
    {
      if u != d.next {
        assert TokenFor(d, u, c) && TokenFor(d, t, c);
      }
    }
  }

  lemma NoneAfter(d: Desk, d': Desk, t: Token)
    requires DeskInv(d) && t in d.tokens && d'.tokens == d.tokens - {t}
    ensures !Resolving(d', d.tokens[t].card)
  {
    var c := d.tokens[t].card;
    forall u | TokenFor(d', u, c)
      ensures false
    {
      assert TokenFor(d, u, c) && TokenFor(d, t, c);
    }
  }

  /** Where every other action on the way takes the resolve of c that it is
      about. */
  lemma {:induction false} ResolveMoves(budget: nat, acts: seq<Action>, t: Token, c: Card, a: Action)
    requires TokenFor(Run(budget, acts).desk, t, c)
    ensures var s, s' := Run(budget, acts), Run(budget, acts + [a]); var stage := s.desk.tokens[t].stage;
      && (stage == Scheduling && a == Schedule(t, true) ==> OnlyAt(s'.desk, c, Probing))
      && (stage == Scheduling && a == Schedule(t, false) ==> OnlyAt(s'.desk, c, Retrying))
      && (stage == Probing && a == ProbeDone(t, true) ==> OnlyAt(s'.desk, c, Posted(true)))
      && (stage == Probing && a == ProbeDone(t, false) ==> OnlyAt(s'.desk, c, Posted(false)))
      && (stage == Retrying && a == RetryDue(t) && c in s.desk.pending ==> OnlyAt(s'.desk, c, Scheduling))
      && (stage == Retrying && a == RetryDue(t) && c !in s.desk.pending ==> !Resolving(s'.desk, c))
      && (stage == Claimed && a == Construct(t) ==> OnlyAt(s'.desk, c, Building))
      && (stage == Claimed && a == ConstructThrows(t) ==> !Resolving(s'.desk, c) && s'.heap == s.heap)
  {
    var s, s' := Run(budget, acts), Run(budget, acts + [a]);
    RunInv(budget, acts);
    OneMoreStep(budget, acts, a);
    if a.Schedule? || a.ProbeDone? || a.Construct? || (a.RetryDue? && c in s.desk.pending) {
      if a.token == t && t !in s'.desk.tokens {
        OnlyTheNext(s.desk, s'.desk, t, s'.desk.tokens[s.desk.next].stage);
      }
    } else if t !in s'.desk.tokens && (a.ConstructThrows? || a.RetryDue?) {
      NoneAfter(s.desk, s'.desk, t);
    }
  }

  lemma {:induction false} ExportedIsResolved(budget: nat, acts: seq<Action>, c: Card)
    requires Exported(Run(budget, acts), c)
    ensures !Resolving(Run(budget, acts).desk, c)
  {
    if acts != [] {
      var s, a := Run(budget, acts[..|acts| - 1]), acts[|acts| - 1];
      RunInv(budget, acts[..|acts| - 1]);
      if Exported(s, c) {
        ExportedIsResolved(budget, acts[..|acts| - 1], c);
        StaysResolved(s, a, c);
      } else {
        NoneAfter(s.desk, Step(s, a).desk, a.token);
      }
    }
  }

  lemma StaysResolved(s: State, a: Action, c: Card)
    requires Inv(s) && c in s.desk.seen && !Resolving(s.desk, c)
    ensures !Resolving(Step(s, a).desk, c)
  {
    forall u | TokenFor(Step(s, a).desk, u, c)
      ensures false
    {
      if u in s.desk.tokens {
        assert TokenFor(s.desk, u, c);
      } else if !a.Materialize? {
        assert TokenFor(s.desk, a.token, c);
      }
    }
  }

  /** The second critical section: a card still pending is exported as the
      object just built, and one withdrawn meanwhile is not exported. */
  lemma {:induction false} PublishDecides(budget: nat, acts: seq<Action>, t: Token, c: Card)
    requires var d := Run(budget, acts).desk; TokenFor(d, t, c) && At(d, t, Building)
    ensures var s, s' := Run(budget, acts), Run(budget, acts + [Publish(t)]);
      && InClaim(t) in s.heap.shares && !Resolving(s'.desk, c) && c !in s'.desk.pending
      && (Exported(s', c) <==> c in s.desk.pending)
      && (Exported(s', c) ==> s'.heap.shares[InMap(c)] == s.heap.shares[InClaim(t)])
  {
    var s, s' := Run(budget, acts), Run(budget, acts + [Publish(t)]);
    RunInv(budget, acts);
    OneMoreStep(budget, acts, Publish(t));
    NoneAfter(s.desk, s'.desk, t);
    if c in s.desk.pending {
      ExportKeepsInv(s, t);
    } else {
      if Exported(s, c) {
        ExportedIsResolved(budget, acts, c);
      }
      DiscardKeepsInv(s, t);
    }
  }

  // The action claims c for construction because its probe opened it, or
  // because the policy allows no further one.
  ghost predicate ClaimsNow(budget: nat, acts: seq<Action>, a: Action, c: Card) {
    var d := Run(budget, acts).desk;
    a.ApplyProbe? && TokenFor(d, a.token, c)
    && (d.tokens[a.token].stage == Posted(true)
        || (d.tokens[a.token].stage == Posted(false) && Reprobes(budget, acts, c) == budget))
  }

  ghost predicate WasClaimed(budget: nat, acts: seq<Action>, c: Card) {
    exists i :: 0 <= i < |acts| && ClaimsNow(budget, acts[..i], acts[i], c)
  }

  lemma ClaimedSoFar(budget: nat, acts: seq<Action>, a: Action, c: Card)
    requires WasClaimed(budget, acts, c) || ClaimsNow(budget, acts, a, c)
    ensures WasClaimed(budget, acts + [a], c)
  {
    var more := acts + [a];
    if WasClaimed(budget, acts, c) {
      var i :| 0 <= i < |acts| && ClaimsNow(budget, acts[..i], acts[i], c);
      assert more[..i] == acts[..i] && more[i] == acts[i];
    } else {
      assert more[..|acts|] == acts && more[|acts|] == a;
    }
  }

  // c is claimed, built or exported.
  ghost predicate PastTheProbe(s: State, c: Card) {
    NowAt(s.desk, c, Claimed) || NowAt(s.desk, c, Building) || Exported(s, c)
  }

  lemma PastBy(s: State, a: Action, u: Token, c: Card)
    requires Inv(s) && !PastTheProbe(s, c) && TokenFor(Step(s, a).desk, u, c)
    requires Step(s, a).desk.tokens[u].stage == Claimed || Step(s, a).desk.tokens[u].stage == Building
    ensures a.ApplyProbe? && TokenFor(s.desk, a.token, c) && s.desk.tokens[a.token].stage.Posted?
  {
    assert forall v :: TokenFor(s.desk, v, c) ==>
      s.desk.tokens[v].stage != Claimed && s.desk.tokens[v].stage != Building;
    assert !TokenFor(s.desk, u, c);
  }

  lemma PastByThisStep(budget: nat, acts: seq<Action>, a: Action, c: Card)
    requires !PastTheProbe(Run(budget, acts), c) && PastTheProbe(Step(Run(budget, acts), a), c)
    ensures ClaimsNow(budget, acts, a, c)
  {
    var s := Run(budget, acts);
    var s' := Step(s, a);
    RunInv(budget, acts);
    RetryBudgetBounds(budget, acts, c);
    BudgetStays(budget, acts);
    assert forall u :: TokenFor(s.desk, u, c) ==>
      s.desk.tokens[u].stage != Claimed && s.desk.tokens[u].stage != Building;
    if Exported(s', c) {
      assert false;
    }
    var u :| TokenFor(s'.desk, u, c) && (s'.desk.tokens[u].stage == Claimed || s'.desk.tokens[u].stage == Building);
    PastBy(s, a, u, c);
    ProbeTakesIt(s, a.token, c);
  }

  /** No object is built for a card and no card is exported unless a probe
      opened it or every re-probe of the policy has been used up. */
  lemma {:induction false} ExportedOnlyOnceClaimed(budget: nat, acts: seq<Action>, c: Card)
    requires PastTheProbe(Run(budget, acts), c)
    ensures WasClaimed(budget, acts, c)
  {
    if acts != [] {
      var front, a := acts[..|acts| - 1], acts[|acts| - 1];
      assert acts == front + [a];
      if PastTheProbe(Run(budget, front), c) {
        ExportedOnlyOnceClaimed(budget, front, c);
      } else {
        PastByThisStep(budget, front, a, c);
      }
      ClaimedSoFar(budget, front, a, c);
    }
  }

  // A card seen for the first time is pending, with its one resolve about to
  // be scheduled.
  lemma {:induction false} MaterializedIsPending(budget: nat, acts: seq<Action>, c: Card)
    requires c !in Run(budget, acts).desk.seen
    ensures var d, d' := Run(budget, acts).desk, Run(budget, acts + [Materialize(c)]).desk;
      OnlyAt(d', c, Scheduling) && d'.pending == d.pending[c := 0] && d'.seen == d.seen + {c}
  {
    RunInv(budget, acts);
    OneMoreStep(budget, acts, Materialize(c));
    FirstResolve(Run(budget, acts).desk, c);
  }

  lemma FirstResolve(d: Desk, c: Card)
    requires DeskInv(d) && c !in d.seen
    ensures OnlyAt(Materializing(d, c), c, Scheduling)
  {
    assert TokenFor(Materializing(d, c), d.next, c);
    assert forall u :: TokenFor(Materializing(d, c), u, c) && u != d.next ==> TokenFor(d, u, c);
  }

  // Some actions, at most `steps` of them, export c.
  ghost predicate SoonExported(s: State, c: Card, steps: nat)
    decreases steps
  {
    Exported(s, c) || (steps > 0 && exists a :: SoonExported(Step(s, a), c, steps - 1))
  }

  // The actions between a stage and the export.
  function Distance(stage: Stage): nat {
    match stage
    case Retrying => 6
    case Scheduling => 5
    case Probing => 4
    case Posted(couldOpen) => if couldOpen then 3 else 7
    case Claimed => 2
    case Building => 1
  }

  // The next action of a resolve when the queue has room and the card opens.
  function Onward(t: Token, stage: Stage): Action {
    match stage
    case Retrying => RetryDue(t)
    case Scheduling => Schedule(t, true)
    case Probing => ProbeDone(t, true)
    case Posted(_) => ApplyProbe(t)
    case Claimed => Construct(t)
    case Building => Publish(t)
  }

  lemma OnwardIsCloser(s: State, t: Token, c: Card)
    requires Inv(s) && TokenFor(s.desk, t, c) && c in s.desk.pending
    ensures
      var stage := s.desk.tokens[t].stage;
      var s' := Step(s, Onward(t, stage));
      Exported(s', c) ||
      (c in s'.desk.pending && TokenFor(s'.desk, s.desk.next, c)
       && Distance(s'.desk.tokens[s.desk.next].stage) < Distance(stage))
  {
    var s' := Step(s, Onward(t, s.desk.tokens[t].stage));
    match s.desk.tokens[t].stage
    case Building =>
      assert InClaim(t) in s.heap.shares;
      assert Exported(s', c);
    case _ =>
      assert TokenFor(s'.desk, s.desk.next, c);
  }

  lemma {:induction false} ResolveSoonExports(s: State, t: Token, c: Card)
    requires Inv(s) && TokenFor(s.desk, t, c) && c in s.desk.pending
    ensures SoonExported(s, c, Distance(s.desk.tokens[t].stage))
    decreases Distance(s.desk.tokens[t].stage)
  {
    var stage := s.desk.tokens[t].stage;
    var a := Onward(t, stage);
    var s' := Step(s, a);
    OnwardIsCloser(s, t, c);
    StepKeepsInv(s, a);
    if Exported(s', c) {
      assert SoonExported(s', c, Distance(stage) - 1);
    } else {
      ResolveSoonExports(s', s.desk.next, c);
      SoonerIsSoon(s', c, Distance(s'.desk.tokens[s.desk.next].stage), Distance(stage) - 1);
      assert SoonExported(s', c, Distance(stage) - 1);
    }
  }

  lemma {:induction false} SoonerIsSoon(s: State, c: Card, fewer: nat, steps: nat)
    requires SoonExported(s, c, fewer) && fewer <= steps
    ensures SoonExported(s, c, steps)
    decreases steps
  {
    if !Exported(s, c) {
      var a :| SoonExported(Step(s, a), c, fewer - 1);
      SoonerIsSoon(Step(s, a), c, fewer - 1, steps - 1);
    }
  }

  /** A pending card whose object could be built so far is never stuck: from
      every reachable state at most seven further actions export it. */
  lemma {:induction false} PendingCanBeExported(budget: nat, acts: seq<Action>, c: Card)
    requires c in Run(budget, acts).desk.pending && !BuildThrew(budget, acts, c)
    ensures SoonExported(Run(budget, acts), c, 7)
  {
    ExactlyOneResolve(budget, acts, c);
    RunInv(budget, acts);
    var s := Run(budget, acts);
    var t :| TokenFor(s.desk, t, c);
    ResolveSoonExports(s, t, c);
    SoonerIsSoon(s, c, Distance(s.desk.tokens[t].stage), 7);
  }

  /** Every use count is the map entries plus the shares in flight. */
  lemma {:induction false} OwnersAreHolders(budget: nat, acts: seq<Action>, o: Object)
    requires o in Run(budget, acts).heap.owners
    ensures Run(budget, acts).heap.owners[o] == |Holders(Run(budget, acts).heap.shares, o)|
  {
    RunInv(budget, acts);
  }

  /** An object anyone holds a share of has not been destroyed, so the loop's
      update never touches a dead one. */
  lemma {:induction false} NeverUsedAfterDestruction(budget: nat, acts: seq<Action>, p: Place)
    requires p in Run(budget, acts).heap.shares
    ensures Run(budget, acts).heap.shares[p] !in Run(budget, acts).heap.destroyed
  {
    RunInv(budget, acts);
    HeldIsAlive(Run(budget, acts).heap, p);
  }

  /** An object is destroyed once, exactly when its last share is gone. */
  lemma {:induction false} DestroyedExactlyOnce(budget: nat, acts: seq<Action>, o: Object)
    ensures Runs(Run(budget, acts).heap.destroyed, o) <= 1
    ensures Runs(Run(budget, acts).heap.destroyed, o) == 1 <==>
              o in Run(budget, acts).heap.owners && Holders(Run(budget, acts).heap.shares, o) == {}
  {
    RunInv(budget, acts);
    assert Runs(Run(budget, acts).heap.destroyed, o)
        == if o in Run(budget, acts).heap.owners && Run(budget, acts).heap.owners[o] == 0 then 1 else 0;
  }

  /** No destructor runs in a step that holds the cards mutex. */
  lemma {:induction false} NeverDestroyedUnderTheMutex(budget: nat, acts: seq<Action>, a: Action)
    requires HoldsMutex(a)
    ensures Step(Run(budget, acts), a).heap.destroyed == Run(budget, acts).heap.destroyed
  {
    RunInv(budget, acts);
    var s := Run(budget, acts);
    if a.Publish? && At(s.desk, a.token, Building) && s.desk.tokens[a.token].card in s.desk.pending {
      ExportKeepsInv(s, a.token);
    }
  }
}
