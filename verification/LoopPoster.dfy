/**
 Marshalling callbacks onto the event loop: a mutex-guarded queue, an eventfd
 counter and one-shot timers. No wakeup is lost, callbacks run in the order they
 were queued, and submitted work is conserved.
 */
module LoopPoster {
  import opened Wrappers

  type Work = nat

  // A queued callback: the work itself, or the hop that arms a timer for it.
  datatype Call = Do(work: Work) | Arm(work: Work)

  // The loop thread: waiting, between its read of the counter and its swap of
  // the queue, or running what it swapped out.
  datatype Phase = Idle | Woken | Running(batch: seq<Call>)

  // How armTimer ends.
  datatype ArmOutcome = NoClock | NoTimer | Armed

  // The largest value an eventfd holds; a write that would pass it fails.
  const CounterMax: nat := 0xffff_ffff_ffff_fffe

  datatype State = State(
    queue: seq<Call>,            // m_pending
    counter: nat,                // the eventfd
    writers: nat,                // posters between their push and their write
    phase: Phase,
    timers: multiset<Work>,      // m_timers
    pushed: seq<Call>,           // every push, in order
    started: seq<Call>,          // every queued callback taken up, in order
    submitted: multiset<Work>,   // everything given to post or postAfter
    ran: multiset<Work>)

  const Init := State([], 0, 0, Idle, multiset{}, [], [], multiset{}, multiset{})

  datatype Action =
    | Post(work: Work)
    | PostAfter(work: Work)
    | WriteEventfd
    | Wake
    | Swap
    | RunNext(outcome: ArmOutcome)
    | EndBatch
    | TimerFires(work: Work)

  function Push(s: State, c: Call): State {
    s.(queue := s.queue + [c], pushed := s.pushed + [c], writers := s.writers + 1)
  }

  function Ran(s: State, w: Work): State {
    s.(ran := s.ran + multiset{w})
  }

  function RunningNext(s: State, outcome: ArmOutcome): State
    requires s.phase.Running? && s.phase.batch != []
  {
    var c := s.phase.batch[0];
    var s1 := s.(phase := Running(s.phase.batch[1..]), started := s.started + [c]);
    if c.Do? || outcome == NoClock then Ran(s1, c.work)
    else if outcome == NoTimer then Push(s1, Do(c.work))
    else s1.(timers := s1.timers + multiset{c.work})
  }

  function Step(s: State, a: Action): State {
    match a
    case Post(w) => Push(s, Do(w)).(submitted := s.submitted + multiset{w})
    case PostAfter(w) => Push(s, Arm(w)).(submitted := s.submitted + multiset{w})
    case WriteEventfd =>
      if s.writers == 0 then s
      else s.(writers := s.writers - 1, counter := if s.counter < CounterMax then s.counter + 1 else s.counter)
    case Wake => if s.phase.Idle? then s.(counter := 0, phase := Woken) else s
    case Swap => if s.phase.Woken? then s.(phase := Running(s.queue), queue := []) else s
    case RunNext(outcome) => if s.phase.Running? && s.phase.batch != [] then RunningNext(s, outcome) else s
    case EndBatch => if s.phase == Running([]) then s.(phase := Idle) else s
    case TimerFires(w) =>
      if s.phase.Idle? && w in s.timers then Ran(s.(timers := s.timers - multiset{w}), w) else s
  }

  function Run(acts: seq<Action>): State {
    if acts == [] then Init else Step(Run(acts[..|acts| - 1]), acts[|acts| - 1])
  }

  // ---------------------------------------------------------------------
  // The invariant
  // ---------------------------------------------------------------------

  function Batch(s: State): seq<Call> {
    if s.phase.Running? then s.phase.batch else []
  }

  // A queued callback always has something on its way to wake the loop.
  predicate WillWake(s: State) {
    s.queue != [] ==> s.counter > 0 || s.writers > 0 || s.phase.Woken?
  }

  // What was pushed is what was taken up, then the rest of the batch, then the queue.
  predicate InOrder(s: State) {
    s.pushed == s.started + Batch(s) + s.queue
  }

  function Works(calls: seq<Call>): seq<Work> {
    seq(|calls|, i requires 0 <= i < |calls| => calls[i].work)
  }

  function WorksOf(calls: seq<Call>): multiset<Work> {
    multiset(Works(calls))
  }

  // How often w has run, waits for a timer or is queued.
  function Places(s: State, w: Work): nat {
    s.ran[w] + s.timers[w] + WorksOf(Batch(s))[w] + WorksOf(s.queue)[w]
  }

  ghost predicate Conserved(s: State) {
    forall w: Work :: s.submitted[w] == Places(s, w)
  }

  ghost predicate Inv(s: State) {
    WillWake(s) && InOrder(s) && Conserved(s)
  }

  lemma WorksOfConcat(a: seq<Call>, b: seq<Call>)
    ensures WorksOf(a + b) == WorksOf(a) + WorksOf(b)
  {
    assert Works(a + b) == Works(a) + Works(b);
  }

  lemma WorksOfAppend(calls: seq<Call>, c: Call)
    ensures WorksOf(calls + [c]) == WorksOf(calls) + multiset{c.work}
  {
    assert Works(calls + [c]) == Works(calls) + [c.work];
  }

  lemma WorksOfFirst(calls: seq<Call>)
    requires calls != []
    ensures WorksOf(calls) == multiset{calls[0].work} + WorksOf(calls[1..])
  {
    assert Works(calls) == [calls[0].work] + Works(calls[1..]);
  }

  lemma PushKeepsOrder(s: State, c: Call)
    requires InOrder(s)
    ensures InOrder(Push(s, c))
  {
    assert s.started + Batch(s) + s.queue + [c] == s.started + Batch(s) + (s.queue + [c]);
  }

  lemma StepKeepsOrder(s: State, a: Action)
    requires InOrder(s)
    ensures InOrder(Step(s, a))
  {
    match a
    case Post(w) => PushKeepsOrder(s, Do(w));
    case PostAfter(w) => PushKeepsOrder(s, Arm(w));
    case RunNext(outcome) =>
      if s.phase.Running? && s.phase.batch != [] {
        var c := s.phase.batch[0];
        assert s.started + s.phase.batch == (s.started + [c]) + s.phase.batch[1..];
        PushKeepsOrder(s.(phase := Running(s.phase.batch[1..]), started := s.started + [c]), Do(c.work));
      }
    case Swap => assert s.started + [] + s.queue == s.started + s.queue + [];
    case _ =>
  }

  lemma StepKeepsWakeup(s: State, a: Action)
    requires WillWake(s)
    ensures WillWake(Step(s, a))
  {
  }

  lemma PushMovesWork(s: State, c: Call, w: Work)
    ensures Places(Push(s, c), w) == Places(s, w) + if w == c.work then 1 else 0
  {
    WorksOfAppend(s.queue, c);
  }

  // The batch's next call taken out.
  function TakenOut(s: State): State
    requires s.phase.Running? && s.phase.batch != []
  {
    s.(phase := Running(s.phase.batch[1..]), started := s.started + [s.phase.batch[0]])
  }

  lemma TakingOutMovesWork(s: State, w: Work)
    requires s.phase.Running? && s.phase.batch != []
    ensures Places(TakenOut(s), w) + (if w == s.phase.batch[0].work then 1 else 0) == Places(s, w)
  {
    WorksOfFirst(s.phase.batch);
  }

  lemma RunMovesWork(s: State, outcome: ArmOutcome, w: Work)
    requires s.phase.Running? && s.phase.batch != []
    ensures Places(RunningNext(s, outcome), w) == Places(s, w)
    ensures RunningNext(s, outcome).submitted == s.submitted
  {
    TakingOutMovesWork(s, w);
    PushMovesWork(TakenOut(s), Do(s.phase.batch[0].work), w);
  }

  lemma PostMovesWork(s: State, c: Call, w: Work)
    ensures var t := Push(s, c).(submitted := s.submitted + multiset{c.work});
      Places(t, w) - t.submitted[w] == Places(s, w) - s.submitted[w]
  {
    PushMovesWork(s, c, w);
    assert Places(Push(s, c).(submitted := s.submitted + multiset{c.work}), w) == Places(Push(s, c), w);
  }

  lemma LoopMovesWork(s: State, a: Action, w: Work)
    requires a.Wake? || a.Swap? || a.EndBatch? || a.WriteEventfd?
    ensures Places(Step(s, a), w) == Places(s, w) && Step(s, a).submitted == s.submitted
  {
  }

  lemma TimerMovesWork(s: State, x: Work, w: Work)
    ensures Places(Step(s, TimerFires(x)), w) == Places(s, w)
    ensures Step(s, TimerFires(x)).submitted == s.submitted
  {
  }

  // Places and submissions moved together, for every work.
  lemma MovedTogether(s: State, t: State)
    requires Conserved(s)
    requires forall w: Work :: Places(t, w) - t.submitted[w] == Places(s, w) - s.submitted[w]
    ensures Conserved(t)
  {
    forall w: Work
      ensures t.submitted[w] == Places(t, w)
    {
      assert s.submitted[w] == Places(s, w);
    }
  }

  lemma PostConserves(s: State, c: Call)
    requires Conserved(s)
    ensures Conserved(Push(s, c).(submitted := s.submitted + multiset{c.work}))
  {
    forall w: Work {
      PostMovesWork(s, c, w);
    }
    MovedTogether(s, Push(s, c).(submitted := s.submitted + multiset{c.work}));
  }

  lemma RunConserves(s: State, outcome: ArmOutcome)
    requires Conserved(s) && s.phase.Running? && s.phase.batch != []
    ensures Conserved(RunningNext(s, outcome))
  {
    forall w: Work {
      RunMovesWork(s, outcome, w);
    }
    MovedTogether(s, RunningNext(s, outcome));
  }

  lemma LoopConserves(s: State, a: Action)
    requires Conserved(s) && (a.Wake? || a.Swap? || a.EndBatch? || a.WriteEventfd?)
    ensures Conserved(Step(s, a))
  {
    forall w: Work {
      LoopMovesWork(s, a, w);
    }
    MovedTogether(s, Step(s, a));
  }

  lemma TimerConserves(s: State, x: Work)
    requires Conserved(s)
    ensures Conserved(Step(s, TimerFires(x)))
  {
    forall w: Work {
      TimerMovesWork(s, x, w);
    }
    MovedTogether(s, Step(s, TimerFires(x)));
  }

  lemma StepConserves(s: State, a: Action)
    requires Conserved(s)
    ensures Conserved(Step(s, a))
  {
    match a
    case Post(w) => PostConserves(s, Do(w));
    case PostAfter(w) => PostConserves(s, Arm(w));
    case RunNext(outcome) =>
      if s.phase.Running? && s.phase.batch != [] {
        RunConserves(s, outcome);
      }
    case TimerFires(w) => TimerConserves(s, w);
    case _ => LoopConserves(s, a);
  }

  lemma StepKeepsInv(s: State, a: Action)
    requires Inv(s)
    ensures Inv(Step(s, a))
  {
    StepKeepsOrder(s, a);
    StepKeepsWakeup(s, a);
    StepConserves(s, a);
  }

  lemma {:induction false} RunInv(acts: seq<Action>)
    ensures Inv(Run(acts))
  {
    if acts == [] {
      assert forall w: Work :: Places(Init, w) == 0;
    } else {
      RunInv(acts[..|acts| - 1]);
      StepKeepsInv(Run(acts[..|acts| - 1]), acts[|acts| - 1]);
    }
  }

  // ---------------------------------------------------------------------
  // Over every run
  // ---------------------------------------------------------------------

  /** No lost wakeup: a non-empty queue has a positive counter, a poster between
      its push and its write, or a loop between its read and its swap. */
  lemma {:induction false} NoLostWakeup(acts: seq<Action>)
    requires Run(acts).queue != []
    ensures Run(acts).counter > 0 || Run(acts).writers > 0 || Run(acts).phase.Woken?
  {
    RunInv(acts);
  }

  /** First in, first out and at most once: the pushed sequence is what ran,
      then what is left of the batch, then the queue. */
  lemma {:induction false} QueueIsFifo(acts: seq<Action>)
    ensures Run(acts).pushed == Run(acts).started + Batch(Run(acts)) + Run(acts).queue
  {
    RunInv(acts);
  }

  /** Submitted work has run, waits for a timer, or is queued: none is lost and
      none is run twice, through every way arming a timer can end. */
  lemma {:induction false} WorkIsConserved(acts: seq<Action>)
    ensures var s := Run(acts);
      s.submitted == s.ran + s.timers + WorksOf(Batch(s)) + WorksOf(s.queue)
  {
    RunInv(acts);
    assert forall w: Work :: Run(acts).submitted[w] == Places(Run(acts), w);
  }

  // A step of the loop or of a poster that has pushed: nothing is posted from
  // outside, no timer fires, and the loop wakes only on a positive counter.
  predicate Moves(s: State, a: Action) {
    match a
    case WriteEventfd => s.writers > 0
    case Wake => s.phase.Idle? && s.counter > 0
    case Swap => s.phase.Woken?
    case RunNext(_) => s.phase.Running? && s.phase.batch != []
    case EndBatch => s.phase == Running([])
    case _ => false
  }

  // Whichever of these steps are taken, in whatever order and with whatever
  // outcome, one can be taken until the first `count` pushes are taken up, and
  // at most `steps` of them are taken until then.
  ghost predicate SurelyStarted(s: State, count: nat, steps: nat)
    decreases steps
  {
    |s.started| >= count
    || (steps > 0 && (exists a: Action :: Moves(s, a))
        && forall a: Action :: Moves(s, a) ==> SurelyStarted(Step(s, a), count, steps - 1))
  }

  function PhaseRank(s: State): nat {
    match s.phase
    case Running(batch) => if batch == [] then 4 else 0
    case Woken => 1
    case Idle => if s.counter > 0 then 2 else 3
  }

  function Rank(s: State, count: nat): nat {
    if |s.started| >= count then 0 else 6 * (count - |s.started|) + PhaseRank(s) + s.writers
  }

  // The wakeup on its way is what lets the loop move on.
  lemma SomethingMoves(s: State, count: nat)
    requires Inv(s) && |s.started| < count <= |s.pushed|
    ensures exists a: Action :: Moves(s, a)
  {
    assert |s.pushed| == |s.started| + |Batch(s)| + |s.queue|;
    match s.phase
    case Running(batch) => assert Moves(s, if batch == [] then EndBatch else RunNext(NoClock));
    case Woken => assert Moves(s, Swap);
    case Idle => assert Moves(s, if s.counter > 0 then Wake else WriteEventfd);
  }

  lemma EveryMoveIsCloser(s: State, a: Action, count: nat)
    requires Inv(s) && |s.started| < count <= |s.pushed| && Moves(s, a)
    ensures Rank(Step(s, a), count) < Rank(s, count)
    ensures |s.pushed| <= |Step(s, a).pushed|
  {
    assert |s.pushed| == |s.started| + |Batch(s)| + |s.queue|;
  }

  lemma OneMoveOn(s: State, a: Action, count: nat, steps: nat)
    requires Inv(s) && |s.started| < count <= |s.pushed| && Moves(s, a) && Rank(s, count) <= steps
    ensures steps > 0 && Inv(Step(s, a)) && count <= |Step(s, a).pushed| && Rank(Step(s, a), count) <= steps - 1
  {
    EveryMoveIsCloser(s, a, count);
    StepKeepsInv(s, a);
  }

  lemma {:induction false} EverythingPushedSurelyStarts(s: State, count: nat, steps: nat)
    requires Inv(s) && count <= |s.pushed| && Rank(s, count) <= steps
    ensures SurelyStarted(s, count, steps)
    decreases steps
  {
    if |s.started| < count {
      SomethingMoves(s, count);
      forall a: Action | Moves(s, a)
        ensures SurelyStarted(Step(s, a), count, steps - 1)
      {
        OneMoveOn(s, a, count, steps);
        EverythingPushedSurelyStarts(Step(s, a), count, steps - 1);
      }
      OneMoveEarlier(s, count, steps);
    }
  }

  lemma OneMoveEarlier(s: State, count: nat, steps: nat)
    requires steps > 0 && exists a: Action :: Moves(s, a)
    requires forall a: Action :: Moves(s, a) ==> SurelyStarted(Step(s, a), count, steps - 1)
    ensures SurelyStarted(s, count, steps)
  {
  }

  /** From every reachable state, and without any further post, the steps of the
      loop and of the posters that have pushed already take up everything pushed
      so far, in whatever order they come: the wakeups in flight suffice. */
  lemma {:induction false} NothingQueuedIsStranded(acts: seq<Action>)
    ensures exists steps :: SurelyStarted(Run(acts), |Run(acts).pushed|, steps)
  {
    RunInv(acts);
    var s := Run(acts);
    EverythingPushedSurelyStarts(s, |s.pushed|, Rank(s, |s.pushed|));
  }

  // ---------------------------------------------------------------------
  // The poster as it is kept
  // ---------------------------------------------------------------------

  // What the loop's own turn changes: the queue, what has run and what waits
  // for a timer.
  datatype Effect = Effect(pending: seq<Call>, ran: seq<Work>, timers: multiset<Work>)

  // A call taken up: run with what it posts, posted again without a timer, or
  // left in one.
  function TakingUp(e: Effect, c: Call, posts: Work -> seq<Call>, arming: Work -> ArmOutcome): Effect {
    if c.Do? || arming(c.work) == NoClock then e.(ran := e.ran + [c.work], pending := e.pending + posts(c.work))
    else if arming(c.work) == NoTimer then e.(pending := e.pending + [Do(c.work)])
    else e.(timers := e.timers + multiset{c.work})
  }

  function TakingUpAll(e: Effect, batch: seq<Call>, posts: Work -> seq<Call>, arming: Work -> ArmOutcome): Effect {
    if batch == [] then e
    else TakingUp(TakingUpAll(e, batch[..|batch| - 1], posts, arming), batch[|batch| - 1], posts, arming)
  }

  // Everything these works post when they run.
  function PostsOf(works: seq<Work>, posts: Work -> seq<Call>): multiset<Work> {
    if works == [] then multiset{}
    else PostsOf(works[..|works| - 1], posts) + WorksOf(posts(works[|works| - 1]))
  }

  // What is queued, has run or waits for a timer.
  function Kept(e: Effect): multiset<Work> {
    WorksOf(e.pending) + multiset(e.ran) + e.timers
  }

  // One call's work is kept, and so is what it posts when it runs.
  lemma OneCallIsKept(e: Effect, c: Call, posts: Work -> seq<Call>, arming: Work -> ArmOutcome)
    ensures var e' := TakingUp(e, c, posts, arming);
      || (e'.ran == e.ran && Kept(e') == Kept(e) + multiset{c.work})
      || (e'.ran == e.ran + [c.work] && Kept(e') == Kept(e) + multiset{c.work} + WorksOf(posts(c.work)))
  {
    WorksOfConcat(e.pending, posts(c.work));
    WorksOfAppend(e.pending, Do(c.work));
  }

  // One more call of a batch.
  lemma OneMoreCall(e: Effect, batch: seq<Call>, i: nat, posts: Work -> seq<Call>, arming: Work -> ArmOutcome)
    requires i < |batch|
    ensures TakingUpAll(e, batch[..i + 1], posts, arming)
         == TakingUp(TakingUpAll(e, batch[..i], posts, arming), batch[i], posts, arming)
    ensures WorksOf(batch[..i + 1]) == WorksOf(batch[..i]) + multiset{batch[i].work}
  {
    assert batch[..i + 1][..i] == batch[..i];
    assert batch[..i] + [batch[i]] == batch[..i + 1];
    WorksOfAppend(batch[..i], batch[i]);
  }

  // The works `more` were run on the way from e to e'.
  ghost predicate KeptSince(e: Effect, e': Effect, taken: multiset<Work>, more: seq<Work>, posts: Work -> seq<Call>) {
    e'.ran == e.ran + more && Kept(e') == Kept(e) + taken + PostsOf(more, posts)
  }

  lemma KeptOnce(e: Effect, e': Effect, taken: multiset<Work>, more: seq<Work>, c: Call, posts: Work -> seq<Call>,
                 arming: Work -> ArmOutcome) returns (more': seq<Work>)
    requires KeptSince(e, e', taken, more, posts)
    ensures KeptSince(e, TakingUp(e', c, posts, arming), taken + multiset{c.work}, more', posts)
  {
    OneCallIsKept(e', c, posts, arming);
    if TakingUp(e', c, posts, arming).ran == e'.ran {
      more' := more;
    } else {
      more' := more + [c.work];
      assert more'[..|more|] == more;
    }
  }

  lemma NothingTaken(e: Effect, posts: Work -> seq<Call>)
    ensures KeptSince(e, e, WorksOf([]), [], posts)
  {
    assert Works([]) == [];
  }

  /** A batch taken up loses no work and makes none up, and nor does it with
      what the callbacks it runs post meanwhile. */
  lemma {:induction false} BatchIsKept(e: Effect, batch: seq<Call>, i: nat, posts: Work -> seq<Call>,
                                       arming: Work -> ArmOutcome) returns (more: seq<Work>)
    requires i <= |batch|
    ensures KeptSince(e, TakingUpAll(e, batch[..i], posts, arming), WorksOf(batch[..i]), more, posts)
  {
    if i == 0 {
      more := [];
      assert batch[..0] == [];
      NothingTaken(e, posts);
    } else {
      var before := BatchIsKept(e, batch, i - 1, posts, arming);
      OneMoreCall(e, batch, i - 1, posts, arming);
      more := KeptOnce(e, TakingUpAll(e, batch[..i - 1], posts, arming), WorksOf(batch[..i - 1]), before,
                       batch[i - 1], posts, arming);
    }
  }

  // The works that ran are those of the calls at these places, in their order:
  // every callback, and every hop that found no clock.
  predicate RanInOrder(batch: seq<Call>, arming: Work -> ArmOutcome, more: seq<Work>, at: seq<nat>) {
    && |at| == |more|
    && (forall j :: 0 <= j < |at| ==> at[j] < |batch| && more[j] == batch[at[j]].work)
    && (forall i, j :: 0 <= i < j < |at| ==> at[i] < at[j])
    && (forall i :: 0 <= i < |batch| ==> (i in at <==> batch[i].Do? || arming(batch[i].work) == NoClock))
  }

  lemma OneMoreRan(batch: seq<Call>, i: nat, arming: Work -> ArmOutcome, more: seq<Work>, at: seq<nat>)
    requires i < |batch| && RanInOrder(batch[..i], arming, more, at)
    ensures if batch[i].Do? || arming(batch[i].work) == NoClock then
              RanInOrder(batch[..i + 1], arming, more + [batch[i].work], at + [i])
            else RanInOrder(batch[..i + 1], arming, more, at)
  {
    var longer := batch[..i + 1];
    assert forall k :: 0 <= k < i ==> longer[k] == batch[..i][k];
    assert i !in at;
  }

  /** The batch's callbacks run in the order they were queued. */
  lemma {:induction false} BatchRunsInOrder(e: Effect, batch: seq<Call>, i: nat, posts: Work -> seq<Call>,
                                            arming: Work -> ArmOutcome)
    returns (more: seq<Work>, at: seq<nat>)
    requires i <= |batch|
    ensures TakingUpAll(e, batch[..i], posts, arming).ran == e.ran + more
    ensures RanInOrder(batch[..i], arming, more, at)
  {
    more, at := [], [];
    if i > 0 {
      more, at := BatchRunsInOrder(e, batch, i - 1, posts, arming);
      OneMoreCall(e, batch, i - 1, posts, arming);
      OneMoreRan(batch, i - 1, arming, more, at);
      if batch[i - 1].Do? || arming(batch[i - 1].work) == NoClock {
        more, at := more + [batch[i - 1].work], at + [i - 1];
      }
    }
  }

  // The queue swapped out is the batch.
  lemma SwappedOut(batch: seq<Call>, ran: seq<Work>, timers: multiset<Work>)
    ensures Kept(Effect([], ran, timers)) + WorksOf(batch) == WorksOf(batch) + multiset(ran) + timers
  {
    assert Works([]) == [];
  }

  /** The step by which the machine takes a call up is this one: the same ending,
      and then whatever the callback posts if it ran. */
  lemma RunNextTakesUp(s: State, e: Effect, posts: Work -> seq<Call>, arming: Work -> ArmOutcome)
    requires s.phase.Running? && s.phase.batch != []
    requires e.pending == s.queue && e.timers == s.timers && multiset(e.ran) == s.ran
    ensures var c := s.phase.batch[0];
      var s', e' := Step(s, RunNext(arming(c.work))), TakingUp(e, c, posts, arming);
      && e'.timers == s'.timers && multiset(e'.ran) == s'.ran
      && e'.pending == s'.queue + if e'.ran == e.ran then [] else posts(c.work)
  {
  }

  class EventLoopPoster {
    var pending: seq<Call>
    var eventfd: nat
    var timers: multiset<Work>
    var ran: seq<Work>

    predicate Awake()
      reads this
    {
      pending != [] ==> eventfd > 0
    }

    ghost function Now(): Effect
      reads this
    {
      Effect(pending, ran, timers)
    }

    constructor ()
      ensures pending == [] && eventfd == 0 && timers == multiset{} && ran == []
    {
      pending, eventfd, timers, ran := [], 0, multiset{}, [];
    }

    // Pushed under the mutex, then the counter is written.
    method Post(c: Call)
      modifies `pending, `eventfd
      ensures pending == old(pending) + [c] && eventfd > 0
    {
      pending := pending + [c];
      if eventfd < CounterMax {
        eventfd := eventfd + 1;
      }
    }

    // Delayed work hops onto the loop first; a delay that is not positive is
    // none.
    method PostAfter(w: Work, delay: int)
      modifies `pending, `eventfd
      ensures pending == old(pending) + [if delay <= 0 then Do(w) else Arm(w)] && eventfd > 0
    {
      Post(if delay <= 0 then Do(w) else Arm(w));
    }

    method PostAll(calls: seq<Call>)
      requires Awake()
      modifies `pending, `eventfd
      ensures pending == old(pending) + calls && Awake()
    {
      for i := 0 to |calls|
        invariant pending == old(pending) + calls[..i] && Awake()
      {
        Post(calls[i]);
      }
    }

    // A callback runs and may post.
    method Invoke(w: Work, posts: Work -> seq<Call>)
      requires Awake()
      modifies `pending, `eventfd, `ran
      ensures pending == old(pending) + posts(w) && ran == old(ran) + [w] && Awake()
    {
      ran := ran + [w];
      PostAll(posts(w));
    }

    // A timer keeps w, or w is posted at once, or it runs on the spot.
    method ArmTimer(w: Work, posts: Work -> seq<Call>, arming: Work -> ArmOutcome)
      requires Awake()
      modifies this
      ensures Awake()
      ensures match arming(w)
              case Armed => timers == old(timers) + multiset{w} && pending == old(pending) && ran == old(ran)
              case NoTimer => timers == old(timers) && pending == old(pending) + [Do(w)] && ran == old(ran)
              case NoClock => timers == old(timers) && pending == old(pending) + posts(w) && ran == old(ran) + [w]
    {
      if arming(w) == NoClock {
        Invoke(w, posts);
        return;
      }
      if arming(w) == NoTimer {
        Post(Do(w));
        return;
      }
      timers := timers + multiset{w};
    }

    method TakeUp(c: Call, posts: Work -> seq<Call>, arming: Work -> ArmOutcome)
      requires Awake()
      modifies this
      ensures Awake() && Now() == TakingUp(old(Now()), c, posts, arming)
      ensures c.Do? ==> timers == old(timers) && pending == old(pending) + posts(c.work) && ran == old(ran) + [c.work]
    {
      if c.Do? {
        Invoke(c.work, posts);
      } else {
        ArmTimer(c.work, posts, arming);
      }
    }

    // One turn of the drain loop.
    method TakeUpNext(ghost start: Effect, batch: seq<Call>, i: nat, posts: Work -> seq<Call>,
                      arming: Work -> ArmOutcome)
      requires i < |batch| && Awake() && Now() == TakingUpAll(start, batch[..i], posts, arming)
      modifies this
      ensures Awake() && Now() == TakingUpAll(start, batch[..i + 1], posts, arming)
    {
      TakeUp(batch[i], posts, arming);
      OneMoreCall(start, batch, i, posts, arming);
    }

    // Reads the eventfd, swaps the queue out and runs it. What was queued, what
    // ran, what waits for a timer and what the callbacks posted meanwhile is
    // all still somewhere, once.
    method OnReadable(posts: Work -> seq<Call>, arming: Work -> ArmOutcome)
      returns (ghost more: seq<Work>, ghost at: seq<nat>)
      modifies this
      ensures Awake() && Now() == TakingUpAll(Effect([], old(ran), old(timers)), old(pending), posts, arming)
      ensures ran == old(ran) + more && RanInOrder(old(pending), arming, more, at)
      ensures WorksOf(pending) + multiset(ran) + timers
           == WorksOf(old(pending)) + multiset(old(ran)) + old(timers) + PostsOf(more, posts)
    {
      eventfd := 0;
      var batch := pending;
      pending := [];
      ghost var start := Now();
      for i := 0 to |batch|
        invariant Awake() && Now() == TakingUpAll(start, batch[..i], posts, arming)
      {
        TakeUpNext(start, batch, i, posts, arming);
      }
      assert batch[..|batch|] == batch;
      more := BatchIsKept(start, batch, |batch|, posts, arming);
      ghost var same;
      same, at := BatchRunsInOrder(start, batch, |batch|, posts, arming);
      assert same == ran[|old(ran)|..] == more;
      SwappedOut(old(pending), old(ran), old(timers));
    }

    // A timer is due: its work runs.
    method OnTimer(w: Work, posts: Work -> seq<Call>)
      requires Awake() && w in timers
      modifies this
      ensures Awake()
      ensures timers == old(timers) - multiset{w} && ran == old(ran) + [w] && pending == old(pending) + posts(w)
    {
      timers := timers - multiset{w};
      Invoke(w, posts);
    }
  }
}
