/**
 Reading a card's certificates as a client that may subscribe late: the agent's
 worker publishes, signals and completes in its order while the client calls,
 arms, reads and waits in its own.
 */
module CertificateRead {
  import opened Wrappers

  // One certificate, as its wire tuple.
  type Cert = string

  datatype Status = Ok | Cancelled | Error

  // The operation's error code; the four named are failures on the way to the card.
  datatype Code = NoCode | CardRemoved | CommunicationError | WatchdogTimeout | RateLimited | OtherCode(code: nat)

  // How the operation ends, and whether its recovery store could be written.
  datatype Outcome = Outcome(status: Status, code: Code, certs: seq<Cert>, publishes: bool)

  datatype WorkerPhase = Reading | Published | Signalled | StatusSet | Completed | Ended

  datatype ClientPhase =
    | Calling | Arming | AskingCompleted | AskingStatus | AskingCode | Waiting | Fetching | Returned | Threw

  // What readCertificates returns.
  datatype CertificateRead = CertificateRead(timedOut: bool, status: Status, code: Code, certs: seq<Cert>)

  datatype State = State(
    // the agent: the recovery store, the operation's properties
    worker: WorkerPhase,
    store: Option<seq<Cert>>,
    terminalStatus: Status,
    terminalCode: Code,
    // the bus: the match rule, and a Finished on its way to the client
    armed: bool,
    finishedInFlight: Option<(Status, Code)>,
    finishedLost: bool,
    // the client: what the handler wrote, and the read being built
    heard: Option<(Status, Code)>,
    client: ClientPhase,
    read: CertificateRead)

  const Init := State(Reading, None, Error, NoCode, false, None, false, None, Calling,
                      CertificateRead(false, Error, NoCode, []))

  datatype Action =
    | Worker(emits: bool)     // the worker's next step; `emits`: its signal could be sent
    | Client                  // the client's next step
    | DeliverFinished
    | BudgetRunsOut
    | CallFails

  // publish, emit Result, set the terminal properties, mark Completed, emit Finished.
  function WorkerStep(s: State, o: Outcome, emits: bool): State {
    match s.worker
    case Reading =>
      if o.status == Ok then s.(worker := Published, store := if o.publishes then Some(o.certs) else None)
      else s.(worker := StatusSet, terminalStatus := o.status, terminalCode := o.code)
    case Published => s.(worker := Signalled)
    case Signalled => s.(worker := StatusSet, terminalStatus := o.status, terminalCode := o.code)
    case StatusSet => s.(worker := Completed)
    case Completed =>
      s.(worker := Ended,
         finishedInFlight := if s.armed && emits then Some((s.terminalStatus, s.terminalCode)) else None,
         finishedLost := !emits)
    case Ended => s
  }

  function IsCompleted(s: State): bool {
    s.worker == Completed || s.worker == Ended
  }

  // After the status is known: only an Ok read fetches.
  function Judged(s: State): State {
    s.(client := if s.read.status == Ok then Fetching else Returned)
  }

  function ClientStep(s: State): State {
    match s.client
    case Calling => s.(client := Arming)
    case Arming => s.(client := AskingCompleted, armed := true)
    case AskingCompleted => s.(client := if IsCompleted(s) then AskingStatus else Waiting)
    case AskingStatus => s.(client := AskingCode, read := s.read.(status := s.terminalStatus))
    case AskingCode => Judged(s.(read := s.read.(code := s.terminalCode)))
    case Waiting =>
      if s.heard.None? then s
      else Judged(s.(read := s.read.(status := s.heard.value.0, code := s.heard.value.1)))
    case Fetching =>
      if s.store.None? then s.(client := Threw)
      else s.(client := Returned, read := s.read.(certs := s.store.value))
    case Returned => s
    case Threw => s
  }

  predicate InACall(c: ClientPhase) {
    c != Waiting && c != Returned && c != Threw
  }

  function Step(s: State, o: Outcome, a: Action): State {
    match a
    case Worker(emits) => WorkerStep(s, o, emits)
    case Client => ClientStep(s)
    case DeliverFinished =>
      if s.finishedInFlight.None? then s else s.(heard := s.finishedInFlight, finishedInFlight := None)
    case BudgetRunsOut =>
      if s.client == Waiting && s.heard.None? then s.(client := Returned, read := s.read.(timedOut := true)) else s
    case CallFails => if InACall(s.client) then s.(client := Threw) else s
  }

  function Run(o: Outcome, acts: seq<Action>): State {
    if acts == [] then Init else Step(Run(o, acts[..|acts| - 1]), o, acts[|acts| - 1])
  }

  // ---------------------------------------------------------------------
  // The invariant
  // ---------------------------------------------------------------------

  predicate Terminal(s: State, o: Outcome) {
    s.terminalStatus == o.status && s.terminalCode == o.code
  }

  predicate AgentInv(s: State, o: Outcome) {
    && (s.worker == StatusSet || IsCompleted(s) ==> Terminal(s, o))
    && (s.store.Some? ==> o.status == Ok && s.store.value == o.certs)
    && (s.finishedInFlight.Some? ==> s.finishedInFlight.value == (o.status, o.code))
    && (s.heard.Some? ==> s.heard.value == (o.status, o.code))
    && (s.finishedInFlight.Some? || s.finishedLost || s.heard.Some? ==> s.worker == Ended)
  }

  predicate ClientInv(s: State, o: Outcome) {
    match s.client
    case Calling => !s.armed
    case Arming => !s.armed
    case AskingCompleted => s.armed && s.read.certs == [] && !s.read.timedOut
    case AskingStatus => IsCompleted(s) && s.read.certs == [] && !s.read.timedOut
    case AskingCode => IsCompleted(s) && s.read.status == o.status && s.read.certs == [] && !s.read.timedOut
    case Waiting => s.armed && s.read.certs == [] && !s.read.timedOut
    case Fetching => o.status == Ok && s.read == CertificateRead(false, o.status, o.code, [])
    case Returned =>
      s.read.timedOut || s.read == CertificateRead(false, o.status, o.code, if o.status == Ok then o.certs else [])
    case Threw => true
  }

  // A client that waits is one whose Finished has yet to be emitted, is on its
  // way, has been heard, or could not be sent.
  predicate WillHear(s: State) {
    s.client == Waiting && s.worker == Ended ==> s.finishedInFlight.Some? || s.heard.Some? || s.finishedLost
  }

  predicate Inv(s: State, o: Outcome) {
    AgentInv(s, o) && ClientInv(s, o) && WillHear(s)
    && (s.client == Calling || s.client == Arming ==> s.read.certs == [] && !s.read.timedOut)
    && (!(s.client == Calling || s.client == Arming || s.client == Threw) ==> s.armed)
  }

  lemma WorkerKeepsInv(s: State, o: Outcome, emits: bool)
    requires Inv(s, o)
    ensures Inv(WorkerStep(s, o, emits), o)
  {
  }

  lemma JudgedKeepsInv(s: State, o: Outcome)
    requires AgentInv(s, o) && s.armed && s.read == CertificateRead(false, o.status, o.code, [])
    ensures Inv(Judged(s), o)
  {
  }

  lemma ClientKeepsInv(s: State, o: Outcome)
    requires Inv(s, o)
    ensures Inv(ClientStep(s), o)
  {
    match s.client
    case AskingCode => JudgedKeepsInv(s.(read := s.read.(code := s.terminalCode)), o);
    case Waiting =>
      if s.heard.Some? {
        JudgedKeepsInv(s.(read := s.read.(status := s.heard.value.0, code := s.heard.value.1)), o);
      }
    case _ =>
  }

  lemma StepKeepsInv(s: State, o: Outcome, a: Action)
    requires Inv(s, o)
    ensures Inv(Step(s, o, a), o)
  {
    match a
    case Worker(emits) => WorkerKeepsInv(s, o, emits);
    case Client => ClientKeepsInv(s, o);
    case _ =>
  }

  lemma {:induction false} RunInv(o: Outcome, acts: seq<Action>)
    ensures Inv(Run(o, acts), o)
  {
    if acts != [] {
      RunInv(o, acts[..|acts| - 1]);
      StepKeepsInv(Run(o, acts[..|acts| - 1]), o, acts[|acts| - 1]);
    }
  }

  // ---------------------------------------------------------------------
  // Over every interleaving
  // ---------------------------------------------------------------------

  /** A client that neither times out nor has a call fail returns the
      operation's true terminal status and code, and an Ok read returns exactly
      the published certificates. */
  lemma {:induction false} ReadIsTheTruth(o: Outcome, acts: seq<Action>)
    requires Run(o, acts).client == Returned && !Run(o, acts).read.timedOut
    ensures Run(o, acts).read.status == o.status && Run(o, acts).read.code == o.code
    ensures Run(o, acts).read.certs == if o.status == Ok then o.certs else []
    ensures o.status == Ok ==> o.publishes
  {
    RunInv(o, acts);
    OkWasPublished(o, acts);
  }

  lemma {:induction false} OkWasPublished(o: Outcome, acts: seq<Action>)
    ensures Run(o, acts).store.Some? ==> o.publishes
    ensures Run(o, acts).client == Returned && !Run(o, acts).read.timedOut && o.status == Ok ==> o.publishes
  {
    if acts != [] {
      RunInv(o, acts[..|acts| - 1]);
      OkWasPublished(o, acts[..|acts| - 1]);
    }
  }

  /** A client never waits for a Finished that has already gone by: once the
      operation has ended, it was heard, is on its way, or could not be sent. */
  lemma {:induction false} NeverWaitsInVain(o: Outcome, acts: seq<Action>)
    requires Run(o, acts).client == Waiting && Run(o, acts).worker == Ended
    ensures Run(o, acts).heard.Some? || Run(o, acts).finishedInFlight.Some? || Run(o, acts).finishedLost
  {
    RunInv(o, acts);
  }

  // Action i found the state s when it was taken.
  ghost predicate Found(o: Outcome, acts: seq<Action>, i: nat, a: Action, s: State) {
    i < |acts| && acts[i] == a && Run(o, acts[..i]) == s
  }

  lemma FoundBefore(o: Outcome, acts: seq<Action>, i: nat, a: Action, s: State)
    requires acts != [] && Found(o, acts[..|acts| - 1], i, a, s)
    ensures Found(o, acts, i, a, s)
  {
    assert acts[..|acts| - 1][..i] == acts[..i];
  }

  /** Only the clock times a read out, and only while the client waits and has
      heard nothing. */
  lemma {:induction false} TimedOutByTheClock(o: Outcome, acts: seq<Action>) returns (i: nat, s: State)
    requires Run(o, acts).read.timedOut
    ensures Found(o, acts, i, BudgetRunsOut, s) && s.client == Waiting && s.heard.None?
  {
    if acts == [] {
      assert false;
    }
    var most := acts[..|acts| - 1];
    if Run(o, most).read.timedOut {
      i, s := TimedOutByTheClock(o, most);
      FoundBefore(o, acts, i, BudgetRunsOut, s);
    } else {
      i, s := |most|, Run(o, most);
    }
  }

  /** A client that has heard nothing gives up when the clock runs out, keeping
      nothing, and a call that fails under it throws, in every reachable state. */
  lemma {:induction false} GivingUpIsTold(o: Outcome, acts: seq<Action>)
    ensures var s := Run(o, acts);
      && (s.client == Waiting && s.heard.None? ==>
            var t := Step(s, o, BudgetRunsOut); t.client == Returned && t.read.timedOut && t.read.certs == [])
      && (s.client == Waiting && s.heard.Some? ==> Step(s, o, BudgetRunsOut) == s)
      && (s.client !in {Waiting, Returned, Threw} <==> s.client != Threw && Step(s, o, CallFails).client == Threw)
  {
    RunInv(o, acts);
  }

  /** A read throws only by a call that failed under it, or because the agent
      could not keep an Ok result: its order of publishing and completing leaves
      no other way. */
  lemma {:induction false} ThrewByACall(o: Outcome, acts: seq<Action>) returns (i: nat, s: State)
    requires Run(o, acts).client == Threw && (o.status == Ok ==> o.publishes)
    ensures Found(o, acts, i, CallFails, s) && s.client != Waiting && s.client != Returned && s.client != Threw
  {
    if acts == [] {
      assert false;
    }
    var most := acts[..|acts| - 1];
    RunInv(o, most);
    StoreFollowsWorker(o, most);
    StartedBeforeFetching(o, most);
    if Run(o, most).client == Threw {
      i, s := ThrewByACall(o, most);
      FoundBefore(o, acts, i, CallFails, s);
    } else {
      i, s := |most|, Run(o, most);
    }
  }

  // A client fetches only what the worker has long left.
  lemma {:induction false} StartedBeforeFetching(o: Outcome, acts: seq<Action>)
    ensures Run(o, acts).client in {AskingStatus, AskingCode, Fetching} ==> IsCompleted(Run(o, acts))
  {
    if acts != [] {
      RunInv(o, acts[..|acts| - 1]);
      StartedBeforeFetching(o, acts[..|acts| - 1]);
    }
  }

  /** Finished goes astray only if the agent could not send it. */
  lemma {:induction false} LostByTheAgent(o: Outcome, acts: seq<Action>) returns (i: nat, s: State)
    requires Run(o, acts).finishedLost
    ensures Found(o, acts, i, Worker(false), s) && s.worker == Completed
  {
    if acts == [] {
      assert false;
    }
    var most := acts[..|acts| - 1];
    if Run(o, most).finishedLost {
      i, s := LostByTheAgent(o, most);
      FoundBefore(o, acts, i, Worker(false), s);
    } else {
      i, s := |most|, Run(o, most);
    }
  }

  // Some actions, none of them the clock or a failing call, return the read.
  ghost predicate SoonReturns(s: State, o: Outcome, steps: nat)
    decreases steps
  {
    s.client == Returned ||
    (steps > 0 && exists a: Action :: (a == Worker(true) || a == Client || a == DeliverFinished)
                                      && SoonReturns(Step(s, o, a), o, steps - 1))
  }

  function WorkerSteps(w: WorkerPhase): nat {
    match w
    case Reading => 5
    case Published => 4
    case Signalled => 3
    case StatusSet => 2
    case Completed => 1
    case Ended => 0
  }

  function ClientSteps(c: ClientPhase): nat {
    match c
    case Calling => 6
    case Arming => 5
    case AskingCompleted => 4
    case AskingStatus => 3
    case Waiting => 3
    case AskingCode => 2
    case Fetching => 1
    case Returned => 0
    case Threw => 0
  }

  function Onward(s: State): Action {
    if s.worker != Ended then Worker(true)
    else if s.finishedInFlight.Some? then DeliverFinished
    else Client
  }

  function Remaining(s: State): nat {
    2 * WorkerSteps(s.worker) + (if s.finishedInFlight.Some? then 1 else 0) + ClientSteps(s.client)
  }

  lemma {:induction false} LeftAloneItReturns(s: State, o: Outcome, steps: nat)
    requires Inv(s, o) && s.client != Threw && !s.finishedLost && Remaining(s) <= steps
    requires o.status == Ok ==> o.publishes && (s.worker == Reading || s.store.Some?)
    ensures SoonReturns(s, o, steps)
    decreases steps
  {
    if s.client != Returned {
      var a := Onward(s);
      var t := Step(s, o, a);
      StepKeepsInv(s, o, a);
      assert Remaining(t) < Remaining(s);
      LeftAloneItReturns(t, o, steps - 1);
    }
  }

  /** From every state a client can be in while nothing has failed, the read
      returns without the help of the clock. */
  lemma {:induction false} ReadNeedsNoTimeout(o: Outcome, acts: seq<Action>)
    requires Run(o, acts).client != Threw && !Run(o, acts).finishedLost
    requires o.status == Ok ==> o.publishes
    ensures exists steps :: SoonReturns(Run(o, acts), o, steps)
  {
    RunInv(o, acts);
    StoreFollowsWorker(o, acts);
    LeftAloneItReturns(Run(o, acts), o, Remaining(Run(o, acts)));
  }

  lemma {:induction false} StoreFollowsWorker(o: Outcome, acts: seq<Action>)
    requires o.status == Ok ==> o.publishes
    ensures o.status == Ok ==> Run(o, acts).worker == Reading || Run(o, acts).store.Some?
  {
    if acts != [] {
      StoreFollowsWorker(o, acts[..|acts| - 1]);
    }
  }

  // ---------------------------------------------------------------------
  // What a read means for the next query
  // ---------------------------------------------------------------------

  // CertificateRead::settled
  predicate Settled(read: CertificateRead) {
    if read.timedOut then false
    else if read.status != Error then true
    else match read.code
      case CardRemoved => false
      case CommunicationError => false
      case WatchdogTimeout => false
      case RateLimited => false
      case _ => true
  }

  // The operation failed on the way to the card, whoever reads it and when.
  predicate FailedOnTheWay(o: Outcome) {
    o.status == Error && o.code in {CardRemoved, CommunicationError, WatchdogTimeout, RateLimited}
  }

  /** Whether the card is asked again is decided by how the operation ended and
      by nothing else: in every interleaving, a read that returns settles if and
      only if it did not time out and the operation did not fail on the way to
      the card - however late the client subscribed. */
  lemma {:induction false} SettlesByTheOperation(o: Outcome, acts: seq<Action>)
    requires Run(o, acts).client == Returned
    ensures Settled(Run(o, acts).read) <==> !Run(o, acts).read.timedOut && !FailedOnTheWay(o)
  {
    if !Run(o, acts).read.timedOut {
      ReadIsTheTruth(o, acts);
    }
  }
}
