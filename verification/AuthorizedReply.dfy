/**
 Replies deferred until an authority has answered: the one-shot reply of each
 call, and the gate of the object a granted body runs on.
 */
module AuthorizedReply {
  import opened Wrappers

  type CallId = nat
  type GateId = nat

  datatype Outcome = Granted | Denied | Undecided

  // How the granted body ends.
  datatype BodyEnd = Returns | Throws

  // What the caller hears: the results or the body's own error, or one of the
  // four refusals that say nothing was changed.
  datatype Reply = Results | Failure | NotAuthorized | NoAnswer | ObjectGone | AgentStopped

  datatype Phase =
    | Asking                    // the completion is with the authority
    | Answered(outcome: Outcome)
    | AtGate
    | Running                   // the gate's mutex is held from here ...
    | Replying(end: BodyEnd)
    | Unlocking                 // ... to here
    | Refused
    | Finished                  // the completion returned
    | Released                  // the last reference to the reply is gone

  datatype Call = Call(gate: GateId, phase: Phase, answered: bool, outcome: Option<Outcome>,
                       replies: seq<Reply>, runs: nat, lost: bool)

  // The mutex's holder, and m_closed.
  datatype Gate = Gate(holder: Option<CallId>, closed: bool)

  // `alive`: the process runs; once it does not, nothing happens any more.
  datatype State = State(calls: map<CallId, Call>, gates: map<GateId, Gate>, alive: bool)

  const Init := State(map[], map[], true)

  // `sends`: whether the bus takes the message.
  datatype Action =
    | NewObject(g: GateId)
    | Ask(c: CallId, g: GateId)
    | Answer(c: CallId, outcome: Outcome)
    | Proceed(c: CallId, sends: bool)
    | Enter(c: CallId)
    | BodyEnds(c: CallId, end: BodyEnd)
    | SendReply(c: CallId, sends: bool)
    | Leave(c: CallId)
    | Release(c: CallId, sends: bool)
    | Close(g: GateId)

  // An error reply whose failure to send is swallowed or leaves the completion.
  function Sent(k: Call, reply: Reply, sends: bool): Call {
    if sends then k.(replies := k.replies + [reply]) else k.(lost := true)
  }

  predicate At(s: State, c: CallId, p: Phase) {
    c in s.calls && s.calls[c].phase == p
  }

  function With(s: State, c: CallId, k: Call): State {
    s.(calls := s.calls[c := k])
  }

  // Granted goes to the gate; the others are told why.
  function Proceeded(k: Call, sends: bool): Call {
    match k.phase
    case Answered(Granted) => k.(phase := AtGate)
    case Answered(Denied) => Sent(k, NotAuthorized, sends).(phase := Finished)
    case Answered(Undecided) => Sent(k, NoAnswer, sends).(phase := Finished)
    case Refused => Sent(k, ObjectGone, sends).(phase := Finished)
    case _ => k
  }

  // replyWith: the results, or the error the body or their sending threw.
  function Replied(k: Call, sends: bool): Call {
    match k.phase
    case Replying(Returns) =>
      if sends then k.(replies := k.replies + [Results], phase := Unlocking) else k.(phase := Replying(Throws))
    case Replying(Throws) => if sends then k.(replies := k.replies + [Failure], phase := Unlocking) else k
    case _ => k
  }

  // ~PendingReply
  function Dropped(k: Call, sends: bool): Call {
    (if k.answered then k else Sent(k, AgentStopped, sends)).(phase := Released)
  }

  // The steps that only move their own call.
  function Moved(k: Call, a: Action): Call {
    match a
    case Answer(_, outcome) =>
      if k.phase == Asking then k.(phase := Answered(outcome), answered := true, outcome := Some(outcome)) else k
    case Proceed(_, sends) => Proceeded(k, sends)
    case BodyEnds(_, end) => if k.phase == Running then k.(phase := Replying(end)) else k
    case SendReply(_, sends) => Replied(k, sends)
    case Release(_, sends) => if k.phase == Asking || k.phase == Finished then Dropped(k, sends) else k
    case _ => k
  }

  predicate GateFree(s: State, g: GateId) {
    g in s.gates && s.gates[g].holder == None
  }

  // runIfOpen up to the body.
  function EnteredCall(k: Call, closed: bool): Call {
    if closed then k.(phase := Refused) else k.(phase := Running, runs := k.runs + 1)
  }

  function EnteredGate(g: Gate, c: CallId): Gate {
    if g.closed then g else Gate(Some(c), false)
  }

  function Entered(s: State, c: CallId): State
    requires c in s.calls && s.calls[c].gate in s.gates
  {
    var k := s.calls[c];
    With(s, c, EnteredCall(k, s.gates[k.gate].closed)).(gates := s.gates[k.gate := EnteredGate(s.gates[k.gate], c)])
  }

  // An error that cannot be sent from inside the body ends the process.
  predicate Terminates(s: State, a: Action) {
    a.SendReply? && !a.sends && At(s, a.c, Replying(Throws))
  }

  function Step(s: State, a: Action): State {
    if !s.alive then s
    else if Terminates(s, a) then s.(alive := false)
    else Taken(s, a)
  }

  function Taken(s: State, a: Action): State {
    match a
    case NewObject(g) => if g in s.gates then s else s.(gates := s.gates[g := Gate(None, false)])
    case Ask(c, g) =>
      if c in s.calls || g !in s.gates then s else With(s, c, Call(g, Asking, false, None, [], 0, false))
    case Enter(c) => if At(s, c, AtGate) && GateFree(s, s.calls[c].gate) then Entered(s, c) else s
    case Leave(c) =>
      if At(s, c, Unlocking) && s.calls[c].gate in s.gates then
        With(s, c, s.calls[c].(phase := Finished))
        .(gates := s.gates[s.calls[c].gate := s.gates[s.calls[c].gate].(holder := None)])
      else s
    case Close(g) => if GateFree(s, g) then s.(gates := s.gates[g := Gate(None, true)]) else s
    case _ => if a.c in s.calls then With(s, a.c, Moved(s.calls[a.c], a)) else s
  }

  function RunFrom(s: State, acts: seq<Action>): State {
    if acts == [] then s else Step(RunFrom(s, acts[..|acts| - 1]), acts[|acts| - 1])
  }

  function Run(acts: seq<Action>): State {
    RunFrom(Init, acts)
  }

  // -- What every step keeps --

  predicate Over(p: Phase) {
    p == Finished || p == Released
  }

  predicate HoldsGate(p: Phase) {
    p == Running || p.Replying? || p == Unlocking
  }

  // Every refusal says nothing was changed.
  predicate Refusal(r: Reply) {
    r != Results && r != Failure
  }

  // The only reply an outcome allows, or none if its sending failed.
  predicate ReplyIn(k: Call) {
    && |k.replies| <= 1
    && (k.lost ==> k.replies == [] && k.runs == 0)
    && (k.replies != [] ==>
          match k.replies[0]
          case NotAuthorized => k.outcome == Some(Denied) && k.runs == 0
          case NoAnswer => k.outcome == Some(Undecided) && k.runs == 0
          case ObjectGone => k.outcome == Some(Granted) && k.runs == 0
          case AgentStopped => k.outcome == None && k.runs == 0
          case _ => k.outcome == Some(Granted) && k.runs == 1)
  }

  predicate CallIn(k: Call) {
    && k.answered == k.outcome.Some?
    && ReplyIn(k)
    && (k.runs > 0 ==> k.runs == 1 && k.outcome == Some(Granted))
    && match k.phase
       case Asking => !k.answered && k.replies == [] && !k.lost && k.runs == 0
       case Answered(outcome) => k.outcome == Some(outcome) && k.replies == [] && !k.lost && k.runs == 0
       case AtGate => k.outcome == Some(Granted) && k.replies == [] && !k.lost && k.runs == 0
       case Refused => k.outcome == Some(Granted) && k.replies == [] && !k.lost && k.runs == 0
       case Running => k.replies == [] && !k.lost && k.runs == 1
       case Replying(_) => k.replies == [] && !k.lost && k.runs == 1
       case Unlocking => |k.replies| == 1 && k.runs == 1
       case Finished => k.answered && (k.lost || |k.replies| == 1)
       case Released => k.lost || |k.replies| == 1
  }

  predicate GateIn(s: State, c: CallId)
    requires c in s.calls
  {
    var k := s.calls[c];
    k.gate in s.gates && (HoldsGate(k.phase) <==> s.gates[k.gate].holder == Some(c))
  }

  predicate HolderIn(s: State, g: GateId)
    requires g in s.gates
  {
    match s.gates[g].holder
    case None => true
    case Some(c) => c in s.calls && s.calls[c].gate == g && !s.gates[g].closed
  }

  predicate Inv(s: State) {
    && (forall c: CallId | c in s.calls :: CallIn(s.calls[c]) && GateIn(s, c))
    && (forall g: GateId | g in s.gates :: HolderIn(s, g))
  }

  // One call moved and no gate did.
  lemma CallKeepsInv(s: State, c: CallId, k: Call)
    requires Inv(s) && c in s.calls && k.gate == s.calls[c].gate
    requires CallIn(k) && (HoldsGate(k.phase) <==> HoldsGate(s.calls[c].phase))
    ensures Inv(With(s, c, k))
  {
    var s' := With(s, c, k);
    forall d: CallId | d in s'.calls
      ensures CallIn(s'.calls[d]) && GateIn(s', d)
    {
      assert CallIn(s.calls[d]) && GateIn(s, d);
    }
    forall g: GateId | g in s'.gates
      ensures HolderIn(s', g)
    {
      assert HolderIn(s, g);
    }
  }

  // One call moved together with its gate.
  lemma GateKeepsInv(s: State, c: CallId, k: Call, holder: Option<CallId>)
    requires Inv(s) && c in s.calls && k.gate == s.calls[c].gate && CallIn(k)
    requires k.gate in s.gates && (s.gates[k.gate].holder == None || s.gates[k.gate].holder == Some(c))
    requires if HoldsGate(k.phase) then holder == Some(c) && !s.gates[k.gate].closed else holder == None
    ensures Inv(With(s, c, k).(gates := s.gates[k.gate := s.gates[k.gate].(holder := holder)]))
  {
    var s' := With(s, c, k).(gates := s.gates[k.gate := s.gates[k.gate].(holder := holder)]);
    forall d: CallId | d in s'.calls
      ensures CallIn(s'.calls[d]) && GateIn(s', d)
    {
      assert CallIn(s.calls[d]) && GateIn(s, d);
    }
    forall g: GateId | g in s'.gates
      ensures HolderIn(s', g)
    {
      assert HolderIn(s, g);
    }
  }

  lemma ObjectsKeepInv(s: State, a: Action)
    requires Inv(s) && (a.NewObject? || a.Ask? || a.Close?)
    ensures Inv(Step(s, a))
  {
    var s' := Step(s, a);
    forall d: CallId | d in s'.calls
      ensures CallIn(s'.calls[d]) && GateIn(s', d)
    {
      if d in s.calls {
        assert CallIn(s.calls[d]) && GateIn(s, d);
      }
      if a.Ask? && d == a.c && a.g in s.gates {
        assert HolderIn(s, a.g);
      }
    }
    forall g: GateId | g in s'.gates
      ensures HolderIn(s', g)
    {
      if g in s.gates {
        assert HolderIn(s, g);
      }
    }
  }

  lemma EnterKeepsInv(s: State, c: CallId)
    requires Inv(s)
    ensures Inv(Step(s, Enter(c)))
  {
    if At(s, c, AtGate) && GateFree(s, s.calls[c].gate) {
      var k := s.calls[c];
      assert CallIn(k);
      GateKeepsInv(s, c, EnteredCall(k, s.gates[k.gate].closed), EnteredGate(s.gates[k.gate], c).holder);
    }
  }

  lemma LeaveKeepsInv(s: State, c: CallId)
    requires Inv(s)
    ensures Inv(Step(s, Leave(c)))
  {
    if At(s, c, Unlocking) {
      assert CallIn(s.calls[c]) && GateIn(s, c);
      GateKeepsInv(s, c, s.calls[c].(phase := Finished), None);
    }
  }

  lemma MovedIn(k: Call, a: Action)
    requires CallIn(k)
    ensures CallIn(Moved(k, a)) && Moved(k, a).gate == k.gate
    ensures HoldsGate(Moved(k, a).phase) <==> HoldsGate(k.phase)
  {
  }

  lemma StepKeepsInv(s: State, a: Action)
    requires Inv(s)
    ensures Inv(Step(s, a))
  {
    match a
    case NewObject(_) => ObjectsKeepInv(s, a);
    case Ask(_, _) => ObjectsKeepInv(s, a);
    case Close(_) => ObjectsKeepInv(s, a);
    case Enter(c) => EnterKeepsInv(s, c);
    case Leave(c) => LeaveKeepsInv(s, c);
    case _ =>
      if a.c in s.calls {
        MovedIn(s.calls[a.c], a);
        CallKeepsInv(s, a.c, Moved(s.calls[a.c], a));
      }
  }

  lemma {:induction false} RunInv(acts: seq<Action>)
    ensures Inv(Run(acts))
  {
    if acts != [] {
      RunInv(acts[..|acts| - 1]);
      StepKeepsInv(Run(acts[..|acts| - 1]), acts[|acts| - 1]);
    }
  }

  // -- Main results --

  /** Never two replies; and once the reply is released, whether by a completion
      that ran or by one that was dropped, exactly one unless the bus refused it. */
  lemma ExactlyOneReply(acts: seq<Action>, c: CallId)
    requires c in Run(acts).calls
    ensures |Run(acts).calls[c].replies| <= 1
    ensures Over(Run(acts).calls[c].phase) ==> (|Run(acts).calls[c].replies| == 1 <==> !Run(acts).calls[c].lost)
  {
    RunInv(acts);
  }

  /** The body runs at most once, and only after Granted; a caller told that
      nothing was changed is told the truth, and results mean that it ran. */
  lemma BodyOnlyWhenGranted(acts: seq<Action>, c: CallId)
    requires c in Run(acts).calls
    ensures var k := Run(acts).calls[c];
      && k.runs <= 1
      && (k.runs == 1 ==> k.outcome == Some(Granted))
      && (k.replies != [] ==> (Refusal(k.replies[0]) <==> k.runs == 0))
      && (k.replies == [NotAuthorized] ==> k.outcome == Some(Denied))
      && (k.replies == [AgentStopped] ==> k.outcome == None)
  {
    RunInv(acts);
  }

  function RunsOf(s: State, c: CallId): nat {
    if c in s.calls then s.calls[c].runs else 0
  }

  // The object's gate is closed and, if c is a call on it, c's body is not
  // running and has run n times.
  predicate Quiet(s: State, g: GateId, c: CallId, n: nat) {
    && g in s.gates && s.gates[g].closed
    && (c !in s.calls ==> n == 0)
    && (c in s.calls && s.calls[c].gate == g ==> !HoldsGate(s.calls[c].phase) && s.calls[c].runs == n)
  }

  lemma StepKeepsQuiet(s: State, a: Action, g: GateId, c: CallId, n: nat)
    requires Quiet(s, g, c, n)
    ensures Quiet(Step(s, a), g, c, n)
  {
    match a
    case Enter(d) => assert At(s, d, AtGate) && s.calls[d].gate == g ==> !HoldsGate(Step(s, a).calls[d].phase);
    case _ =>
  }

  /** Once close() has returned, no body of that object is running and none will,
      for the calls already made and for those still to come. */
  lemma {:induction false} NothingRunsAfterClose(acts: seq<Action>, more: seq<Action>, g: GateId, c: CallId)
    requires g in Run(acts).gates && Run(acts).gates[g].closed
    ensures Quiet(RunFrom(Run(acts), more), g, c, RunsOf(Run(acts), c))
    decreases |more|
  {
    if more == [] {
      RunInv(acts);
      if c in Run(acts).calls {
        assert GateIn(Run(acts), c) && HolderIn(Run(acts), g);
      }
    } else {
      NothingRunsAfterClose(acts, more[..|more| - 1], g, c);
      StepKeepsQuiet(RunFrom(Run(acts), more[..|more| - 1]), more[|more| - 1], g, c, RunsOf(Run(acts), c));
    }
  }

  function StepsLeft(p: Phase): nat {
    if p == Running then 2 else if p.Replying? then 1 else 0
  }

  // The holder's own steps, taken while the bus sends, to the end of the mutex.
  function HolderFinishes(c: CallId, k: Call): seq<Action>
    decreases StepsLeft(k.phase)
  {
    match k.phase
    case Running => [BodyEnds(c, Returns)] + HolderFinishes(c, Moved(k, BodyEnds(c, Returns)))
    case Replying(_) => [SendReply(c, true)] + HolderFinishes(c, Moved(k, SendReply(c, true)))
    case _ => [Leave(c)]
  }

  /** close() waits for a running body, and for nothing else: the holder's own
      steps free the gate, and then it closes. */
  lemma CloseOnlyWaitsForTheBody(acts: seq<Action>, g: GateId)
    requires g in Run(acts).gates && Run(acts).alive
    ensures Run(acts).gates[g].holder == None ==> Step(Run(acts), Close(g)).gates[g].closed
    ensures Run(acts).gates[g].holder.Some? ==>
              var c := Run(acts).gates[g].holder.value;
              c in Run(acts).calls
              && GateFree(RunFrom(Run(acts), HolderFinishes(c, Run(acts).calls[c])), g)
  {
    RunInv(acts);
    assert HolderIn(Run(acts), g);
    if Run(acts).gates[g].holder.Some? {
      var c := Run(acts).gates[g].holder.value;
      assert GateIn(Run(acts), c);
      HolderFrees(Run(acts), c);
    }
  }

  lemma RunLast(s: State, acts: seq<Action>, a: Action)
    ensures RunFrom(s, acts + [a]) == Step(RunFrom(s, acts), a)
  {
    assert (acts + [a])[..|acts|] == acts;
  }

  lemma {:induction false} RunFirst(s: State, a: Action, rest: seq<Action>)
    ensures RunFrom(s, [a] + rest) == RunFrom(Step(s, a), rest)
    decreases |rest|
  {
    if rest == [] {
      RunLast(s, [], a);
      assert [a] + rest == [] + [a];
    } else {
      var most, b := rest[..|rest| - 1], rest[|rest| - 1];
      RunFirst(s, a, most);
      RunLast(s, [a] + most, b);
      RunLast(Step(s, a), most, b);
      assert [a] + rest == [a] + most + [b] && rest == most + [b];
    }
  }

  lemma LeaveFrees(s: State, c: CallId)
    requires Inv(s) && s.alive && At(s, c, Unlocking)
    ensures GateFree(RunFrom(s, [Leave(c)]), s.calls[c].gate)
  {
    assert GateIn(s, c);
    RunFirst(s, Leave(c), []);
    assert [Leave(c)] + [] == [Leave(c)];
  }

  lemma {:induction false} HolderFrees(s: State, c: CallId)
    requires Inv(s) && s.alive && c in s.calls && HoldsGate(s.calls[c].phase)
    ensures GateFree(RunFrom(s, HolderFinishes(c, s.calls[c])), s.calls[c].gate)
    decreases StepsLeft(s.calls[c].phase)
  {
    var k := s.calls[c];
    if k.phase == Unlocking {
      LeaveFrees(s, c);
    } else {
      var a := OwnAction(c, k);
      OwnMove(s, c, a);
      RunFirst(s, a, HolderFinishes(c, Moved(k, a)));
      HolderFrees(Step(s, a), c);
    }
  }

  lemma OwnAction(c: CallId, k: Call) returns (a: Action)
    requires k.phase == Running || k.phase.Replying?
    ensures a == BodyEnds(c, Returns) || a == SendReply(c, true)
    ensures HolderFinishes(c, k) == [a] + HolderFinishes(c, Moved(k, a))
    ensures StepsLeft(Moved(k, a).phase) < StepsLeft(k.phase)
  {
    a := if k.phase == Running then BodyEnds(c, Returns) else SendReply(c, true);
  }

  // A step of the holder's own, while the bus sends.
  lemma OwnMove(s: State, c: CallId, a: Action)
    requires Inv(s) && s.alive && c in s.calls && HoldsGate(s.calls[c].phase)
    requires a == BodyEnds(c, Returns) || a == SendReply(c, true)
    ensures var s' := Step(s, a);
      Inv(s') && s'.alive && c in s'.calls && s'.calls[c] == Moved(s.calls[c], a)
      && s'.calls[c].gate == s.calls[c].gate && HoldsGate(s'.calls[c].phase)
  {
    StepKeepsInv(s, a);
    assert GateIn(s, c);
    MovedIn(s.calls[c], a);
  }

  /** How the authority's answer goes on, from every reachable state: a refusal
      is told if the bus takes it, a grant goes to the gate, which lets it run
      exactly while it is open. */
  lemma AnswerGoesOn(acts: seq<Action>, c: CallId)
    requires Run(acts).alive && c in Run(acts).calls
    ensures var s := Run(acts); var k := s.calls[c];
      && k.gate in s.gates
      && (k.phase == Asking ==> forall outcome: Outcome ::
            Step(s, Answer(c, outcome)).calls[c] ==
            k.(phase := Answered(outcome), answered := true, outcome := Some(outcome)))
      && (k.phase == Answered(Denied) ==> Step(s, Proceed(c, true)).calls[c].replies == [NotAuthorized])
      && (k.phase == Answered(Undecided) ==> Step(s, Proceed(c, true)).calls[c].replies == [NoAnswer])
      && (k.phase == Refused ==> Step(s, Proceed(c, true)).calls[c].replies == [ObjectGone])
      && (k.phase == Answered(Granted) ==> forall sends: bool :: At(Step(s, Proceed(c, sends)), c, AtGate))
      && (k.phase in {Answered(Denied), Answered(Undecided), Refused} ==>
            forall sends: bool :: At(Step(s, Proceed(c, sends)), c, Finished))
      && (k.phase == AtGate && s.gates[k.gate] == Gate(None, false) ==>
            At(Step(s, Enter(c)), c, Running) && Step(s, Enter(c)).gates[k.gate].holder == Some(c))
      && (k.phase == AtGate && s.gates[k.gate] == Gate(None, true) ==> At(Step(s, Enter(c)), c, Refused))
      && (k.phase == AtGate && s.gates[k.gate].holder.Some? ==> Step(s, Enter(c)) == s)
  {
    RunInv(acts);
    assert CallIn(Run(acts).calls[c]) && GateIn(Run(acts), c);
  }

  /** How a body that runs is replied to: its results if it returned and they
      could be sent, its error otherwise; an error that cannot be sent from
      there ends the process. */
  lemma BodyIsRepliedTo(acts: seq<Action>, c: CallId)
    requires Run(acts).alive && c in Run(acts).calls
    ensures var s := Run(acts); var k := s.calls[c];
      && (k.phase == Running ==> forall end: BodyEnd :: At(Step(s, BodyEnds(c, end)), c, Replying(end)))
      && (k.phase == Replying(Returns) ==>
            Step(s, SendReply(c, true)).calls[c].replies == [Results] && At(Step(s, SendReply(c, true)), c, Unlocking)
            && At(Step(s, SendReply(c, false)), c, Replying(Throws)))
      && (k.phase == Replying(Throws) ==>
            Step(s, SendReply(c, true)).calls[c].replies == [Failure] && At(Step(s, SendReply(c, true)), c, Unlocking)
            && !Step(s, SendReply(c, false)).alive)
  {
    RunInv(acts);
    assert CallIn(Run(acts).calls[c]);
  }

  /** How a reply ends: the gate is left with the reply as it is, a completion
      dropped before its answer is told so, and one that answered says no more. */
  lemma ReplyEnds(acts: seq<Action>, c: CallId)
    requires Run(acts).alive && c in Run(acts).calls
    ensures var s := Run(acts); var k := s.calls[c];
      && k.gate in s.gates
      && (k.phase == Unlocking ==>
            At(Step(s, Leave(c)), c, Finished) && Step(s, Leave(c)).calls[c].replies == k.replies
            && Step(s, Leave(c)).gates[k.gate].holder == None)
      && (k.phase == Asking ==> Step(s, Release(c, true)).calls[c].replies == [AgentStopped])
      && (k.phase == Finished ==> forall sends: bool :: Step(s, Release(c, sends)).calls[c].replies == k.replies)
  {
    RunInv(acts);
    assert CallIn(Run(acts).calls[c]) && GateIn(Run(acts), c);
  }

  // The bus refused a message about this call.
  predicate BusRefused(a: Action, c: CallId) {
    (a.Proceed? || a.SendReply? || a.Release?) && a.c == c && !a.sends
  }

  lemma StepLoses(s: State, a: Action, c: CallId)
    requires c in Step(s, a).calls && Step(s, a).calls[c].lost
    ensures (c in s.calls && s.calls[c].lost) || BusRefused(a, c)
  {
  }

  /** A reply goes missing only if the bus refused it. */
  lemma {:induction false} LostByTheBus(acts: seq<Action>, c: CallId) returns (i: nat)
    requires c in Run(acts).calls && Run(acts).calls[c].lost
    ensures i < |acts| && BusRefused(acts[i], c)
  {
    if acts == [] {
      assert false;
    }
    var n := |acts| - 1;
    StepLoses(Run(acts[..n]), acts[n], c);
    i := n;
    if !BusRefused(acts[n], c) {
      i := LostByTheBus(acts[..n], c);
    }
  }

  /** The gate an object holds for the grants that run on it. */
  class GrantGate {
    var closed: bool
    var locked: bool
    ghost var bodies: nat          // the bodies it has let run
    ghost var bodiesAtClose: nat

    // No body has run since it was closed.
    ghost predicate Valid()
      reads this
    {
      closed ==> bodies == bodiesAtClose
    }

    constructor ()
      ensures Valid() && !closed && !locked && bodies == 0
    {
      closed, locked, bodies, bodiesAtClose := false, false, 0, 0;
    }

    // The body runs under the mutex if the gate is open; whether it ran.
    method RunIfOpen(reply: PendingReply, c: CallId, end: BodyEnd, sends: bool) returns (ran: bool)
      requires Valid() && !locked && reply.Valid() && reply.call.phase == AtGate
      modifies this, reply
      ensures Valid() && !locked && closed == old(closed) && reply.Valid()
      ensures ran == !closed && bodies == old(bodies) + if ran then 1 else 0
      ensures ran ==> reply.call.phase == Finished && reply.call.runs == 1
                      && reply.sent == if end == Returns && sends then [Results] else [Failure]
      ensures !ran ==> reply.call.phase == Refused && reply.call.runs == 0 && reply.sent == []
      ensures reply.answered == old(reply.answered)
    {
      locked := true;
      if closed {
        reply.call := EnteredCall(reply.call, true);
        locked := false;
        return false;
      }
      reply.call := EnteredCall(reply.call, false);
      bodies := bodies + 1;
      reply.ReplyWith(c, end, sends);
      reply.call := reply.call.(phase := Finished);
      locked := false;
      ran := true;
    }

    method Close()
      requires Valid() && !locked
      modifies this
      ensures Valid() && closed && !locked && bodies == old(bodies)
    {
      locked := true;
      if !closed {
        bodiesAtClose := bodies;
      }
      closed := true;
      locked := false;
    }
  }

  /** A deferred reply, answered even if the authorization never is. */
  class PendingReply {
    var answered: bool
    var sent: seq<Reply>
    ghost var call: Call

    ghost predicate Valid()
      reads this
    {
      CallIn(call) && answered == call.answered && sent == call.replies
    }

    constructor (g: GateId)
      ensures Valid() && call == Call(g, Asking, false, None, [], 0, false)
    {
      answered, sent, call := false, [], Call(g, Asking, false, None, [], 0, false);
    }

    ghost method Take(a: Action)
      requires CallIn(call) && Moved(call, a).answered == answered && Moved(call, a).replies == sent
      modifies `call
      ensures Valid() && call == Moved(old(call), a)
    {
      MovedIn(call, a);
      call := Moved(call, a);
    }

    // replyWith, under the gate; the error reply of a body that threw is sent.
    method ReplyWith(c: CallId, end: BodyEnd, sends: bool)
      requires Valid() && call.phase == Running
      modifies this
      ensures Valid() && call.phase == Unlocking && call.runs == old(call).runs && answered == old(answered)
      ensures sent == if end == Returns && sends then [Results] else [Failure]
    {
      Take(BodyEnds(c, end));
      if end == Returns {
        if sends {
          sent := sent + [Results];
          Take(SendReply(c, true));
          return;
        }
        Take(SendReply(c, false));
      }
      sent := sent + [Failure];
      Take(SendReply(c, true));
    }

    // The completion, on whichever thread the answer arrives.
    method Complete(c: CallId, outcome: Outcome, gate: GrantGate, end: BodyEnd, sends: bool)
      requires Valid() && call.phase == Asking && gate.Valid() && !gate.locked
      modifies this, gate
      ensures Valid() && call.phase == Finished && answered
      ensures gate.Valid() && !gate.locked && gate.closed == old(gate.closed)
      ensures outcome == Denied ==> sent == if sends then [NotAuthorized] else []
      ensures outcome == Undecided ==> sent == if sends then [NoAnswer] else []
      ensures outcome == Granted && gate.closed ==> sent == if sends then [ObjectGone] else []
      ensures outcome == Granted && !gate.closed ==> sent == if end == Returns && sends then [Results] else [Failure]
      ensures call.runs == if outcome == Granted && !gate.closed then 1 else 0
    {
      answered := true;
      Take(Answer(c, outcome));
      match outcome {
        case Denied =>
          if sends { sent := sent + [NotAuthorized]; }
          Take(Proceed(c, sends));
        case Undecided =>
          if sends { sent := sent + [NoAnswer]; }
          Take(Proceed(c, sends));
        case Granted =>
          Take(Proceed(c, true));
          var ran := gate.RunIfOpen(this, c, end, sends);
          if !ran {
            if sends { sent := sent + [ObjectGone]; }
            Take(Proceed(c, sends));
          }
      }
    }

    // The destructor.
    method Destroy(c: CallId, sends: bool)
      requires Valid() && (call.phase == Asking || call.phase == Finished)
      modifies this
      ensures Valid() && call == Moved(old(call), Release(c, sends)) && call.phase == Released
      ensures sent == if old(answered) || !sends then old(sent) else [AgentStopped]
    {
      if !answered && sends {
        sent := sent + [AgentStopped];
      }
      Take(Release(c, sends));
    }
  }
}
