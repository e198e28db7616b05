/**
 The change-PIN window: the two captured secrets as descriptors, from the
 accept that reads them to the reply, the close or the agent that gets them.
 */
module ChangePin {
  import opened Wrappers
  import PromptWire

  type Fd = nat

  datatype Edits = Edits(current: string, newPin: string, confirm: string)

  // SecretFdPair; None is -1.
  datatype Pair = Pair(primary: Option<Fd>, secondary: Option<Fd>)

  const NoPair := Pair(None, None)

  datatype Answer = Refused(status: PromptWire.ReplyStatus) | Handed(primary: Fd, secondary: Fd)

  datatype State = State(
    contents: map<Fd, string>,   // what each sealed descriptor ever made holds
    closed: multiset<Fd>,        // every close() of one
    handed: multiset<Fd>,        // every hand-over to a reply or a caller
    next: Fd,
    edits: Edits,
    captured: Pair,              // m_captured
    registered: bool,            // the window's registry entry is still there
    destroyed: bool,
    answers: seq<Answer>)

  const Init := State(map[], multiset{}, multiset{}, 0, Edits("", "", ""), NoPair, true, false, [])

  datatype Action =
    | Type(edits: Edits)
    | Accept(sealsCurrent: bool, sealsNew: bool)
    | Reject(expired: bool)
    | Take
    | Destroy

  function Sealed(s: State, bytes: string, ok: bool): (State, Option<Fd>) {
    if ok then (s.(contents := s.contents[s.next := bytes], next := s.next + 1), Some(s.next)) else (s, None)
  }

  // Both entries are read and sealed in one accept, then the edits are wiped.
  function Captured(s: State, sealsCurrent: bool, sealsNew: bool): State {
    var (s1, primary) := Sealed(s, s.edits.current, sealsCurrent);
    var (s2, secondary) := Sealed(s1, s.edits.newPin, sealsNew);
    s2.(edits := Edits("", "", ""), captured := Pair(primary, secondary))
  }

  function Held(fd: Option<Fd>): multiset<Fd> {
    if fd.Some? then multiset{fd.value} else multiset{}
  }

  function BothHeld(p: Pair): multiset<Fd> {
    Held(p.primary) + Held(p.secondary)
  }

  function AlreadyCaptured(s: State): bool {
    s.captured.primary.Some? || s.captured.secondary.Some?
  }

  // The completion connected to QDialog::finished.
  function Completed(s: State, accepted: bool, expired: bool): State {
    if !s.registered then s
    else
      var s1 := s.(registered := false);
      if !accepted then
        s1.(answers := s.answers + [Refused(if expired then PromptWire.Timeout else PromptWire.Cancelled)])
      else
        var pair := s.captured;
        var s2 := s1.(captured := NoPair);
        if pair.primary.None? || pair.secondary.None? then
          s2.(closed := s.closed + BothHeld(pair), answers := s.answers + [Refused(PromptWire.Error)])
        else
          s2.(handed := s.handed + BothHeld(pair),
              answers := s.answers + [Handed(pair.primary.value, pair.secondary.value)])
  }

  function Accepted(s: State, sealsCurrent: bool, sealsNew: bool): State {
    if AlreadyCaptured(s) then Completed(s, true, false)
    else if s.edits.newPin != s.edits.confirm then s
    else Completed(Captured(s, sealsCurrent, sealsNew), true, false)
  }

  function Taken(s: State): State {
    s.(handed := s.handed + BothHeld(s.captured), captured := NoPair)
  }

  function Destroyed(s: State): State {
    s.(closed := s.closed + BothHeld(s.captured), captured := NoPair, destroyed := true)
  }

  function Step(s: State, a: Action): State {
    if s.destroyed then s else
    match a
    case Type(edits) => s.(edits := edits)
    case Accept(sealsCurrent, sealsNew) => Accepted(s, sealsCurrent, sealsNew)
    case Reject(expired) => Completed(s, false, expired)
    case Take => Taken(s)
    case Destroy => Destroyed(s)
  }

  function Run(acts: seq<Action>): State {
    if acts == [] then Init else Step(Run(acts[..|acts| - 1]), acts[|acts| - 1])
  }

  // How often a descriptor is held by the dialog, was closed or was handed over.
  ghost function Fates(s: State, fd: Fd): nat {
    BothHeld(s.captured)[fd] + s.closed[fd] + s.handed[fd]
  }

  // Every descriptor ever captured has met exactly one of its three fates.
  ghost predicate Accounted(s: State) {
    forall fd: Fd :: Fates(s, fd) == if fd < s.next then 1 else 0
  }

  ghost predicate Inv(s: State) {
    Accounted(s) && AnswersInv(s)
  }

  lemma CaptureKeepsFates(s: State, sealsCurrent: bool, sealsNew: bool)
    requires Accounted(s) && s.captured == NoPair
    ensures Accounted(Captured(s, sealsCurrent, sealsNew))
  {
    var t := Captured(s, sealsCurrent, sealsNew);
    forall fd: Fd
      ensures Fates(t, fd) == if fd < t.next then 1 else 0
    {
      assert Fates(s, fd) == if fd < s.next then 1 else 0;
    }
  }

  // Moving what is held to the closed or to the handed ones keeps the account.
  lemma SettlingKeepsFates(s: State, t: State)
    requires Accounted(s) && t.next == s.next && t.captured == NoPair
    requires || (t.closed == s.closed + BothHeld(s.captured) && t.handed == s.handed)
             || (t.handed == s.handed + BothHeld(s.captured) && t.closed == s.closed)
    ensures Accounted(t)
  {
    forall fd: Fd
      ensures Fates(t, fd) == if fd < t.next then 1 else 0
    {
      assert Fates(s, fd) == if fd < s.next then 1 else 0;
    }
  }

  lemma SameFates(s: State, t: State)
    requires Accounted(s) && t.next == s.next && t.captured == s.captured
    requires t.closed == s.closed && t.handed == s.handed
    ensures Accounted(t)
  {
    assert forall fd: Fd :: Fates(t, fd) == Fates(s, fd);
  }

  lemma CompletedKeepsFates(s: State, accepted: bool, expired: bool)
    requires Accounted(s)
    ensures Accounted(Completed(s, accepted, expired))
  {
    if s.registered && accepted {
      SettlingKeepsFates(s, Completed(s, accepted, expired));
    } else {
      SameFates(s, Completed(s, accepted, expired));
    }
  }

  lemma AcceptedKeepsFates(s: State, sealsCurrent: bool, sealsNew: bool)
    requires Accounted(s)
    ensures Accounted(Accepted(s, sealsCurrent, sealsNew))
  {
    if AlreadyCaptured(s) {
      CompletedKeepsFates(s, true, false);
    } else if s.edits.newPin == s.edits.confirm {
      CaptureKeepsFates(s, sealsCurrent, sealsNew);
      CompletedKeepsFates(Captured(s, sealsCurrent, sealsNew), true, false);
    }
  }

  lemma StepKeepsFates(s: State, a: Action)
    requires Accounted(s)
    ensures Accounted(Step(s, a))
  {
    match a
    case Accept(sealsCurrent, sealsNew) => AcceptedKeepsFates(s, sealsCurrent, sealsNew);
    case Reject(expired) => CompletedKeepsFates(s, false, expired);
    case Take => SettlingKeepsFates(s, Taken(s));
    case Destroy => SettlingKeepsFates(s, Destroyed(s));
    case Type(edits) => SameFates(s, Step(s, a));
  }

  // All of the invariant but the account.
  ghost predicate AnswersInv(s: State) {
    && (forall fd: Fd :: fd in s.contents <==> fd < s.next)
    && (s.registered ==> s.captured == NoPair && s.answers == [])
    && (!s.registered ==> |s.answers| == 1)
    && (s.destroyed ==> s.captured == NoPair)
    && (forall x :: x in s.answers && x.Refused? ==> x.status != PromptWire.Ok && x.status != PromptWire.OkMrz)
  }

  lemma CompletedKeepsAnswers(s: State, accepted: bool, expired: bool)
    requires (forall fd: Fd :: fd in s.contents <==> fd < s.next) && !s.destroyed
    requires s.registered ==> s.answers == [] && (accepted || s.captured == NoPair)
    requires !s.registered ==> AnswersInv(s)
    ensures AnswersInv(Completed(s, accepted, expired))
  {
  }

  lemma AcceptedKeepsAnswers(s: State, sealsCurrent: bool, sealsNew: bool)
    requires AnswersInv(s) && !s.destroyed
    ensures AnswersInv(Accepted(s, sealsCurrent, sealsNew))
  {
    if AlreadyCaptured(s) {
      CompletedKeepsAnswers(s, true, false);
    } else if s.edits.newPin == s.edits.confirm {
      CompletedKeepsAnswers(Captured(s, sealsCurrent, sealsNew), true, false);
    }
  }

  lemma StepKeepsInv(s: State, a: Action)
    requires Inv(s)
    ensures Inv(Step(s, a))
  {
    StepKeepsFates(s, a);
    if !s.destroyed {
      match a
      case Accept(sealsCurrent, sealsNew) => AcceptedKeepsAnswers(s, sealsCurrent, sealsNew);
      case Reject(expired) => CompletedKeepsAnswers(s, false, expired);
      case _ =>
    }
  }

  lemma {:induction false} RunInv(acts: seq<Action>)
    ensures Inv(Run(acts))
  {
    if acts == [] {
      assert forall fd: Fd :: Fates(Init, fd) == 0;
    } else {
      RunInv(acts[..|acts| - 1]);
      StepKeepsInv(Run(acts[..|acts| - 1]), acts[|acts| - 1]);
    }
  }

  /** Once the window is gone every descriptor it captured was closed or handed
      over, exactly once; before that, at most once. */
  lemma {:induction false} EveryFdOnce(acts: seq<Action>, fd: Fd)
    requires fd < Run(acts).next
    ensures Run(acts).closed[fd] + Run(acts).handed[fd] <= 1
    ensures Run(acts).destroyed ==> Run(acts).closed[fd] + Run(acts).handed[fd] == 1
  {
    RunInv(acts);
    assert Fates(Run(acts), fd) == 1;
  }

  // The two entries that fd p and fd q hold are `edits`, confirmed.
  ghost predicate Carries(s: State, p: Fd, q: Fd, edits: Edits) {
    && p in s.contents && q in s.contents && p != q
    && edits.newPin == edits.confirm && s.contents[p] == edits.current && s.contents[q] == edits.newPin
  }

  ghost predicate ReadAt(acts: seq<Action>, i: nat, s: State, p: Fd, q: Fd) {
    i < |acts| && acts[i].Accept? && Carries(s, p, q, Run(acts[..i]).edits)
  }

  lemma ContentsStay(s: State, a: Action, p: Fd, q: Fd, edits: Edits)
    requires Inv(s) && Carries(s, p, q, edits)
    ensures Carries(Step(s, a), p, q, edits)
  {
  }

  lemma OkIsCapturedNow(s: State, a: Action, p: Fd, q: Fd)
    requires Inv(s) && s.answers == [] && Step(s, a).answers == [Handed(p, q)]
    ensures a.Accept? && Carries(Step(s, a), p, q, s.edits)
  {
    assert Step(s, a).answers[0] == Handed(p, q);
  }

  lemma AnswerStays(s: State, a: Action)
    requires Inv(s) && s.answers != []
    ensures Step(s, a).answers == s.answers
  {
  }

  /** An Ok reply carries the current and the new entry as they stood at one
      accept, where the new entry equalled the confirmation. */
  lemma {:induction false} OkReplyIsOneAccept(acts: seq<Action>, p: Fd, q: Fd) returns (i: nat)
    requires Run(acts).answers == [Handed(p, q)]
    ensures ReadAt(acts, i, Run(acts), p, q)
  {
    var n := |acts| - 1;
    var front := acts[..n];
    RunInv(front);
    if Run(front).answers == [] {
      OkIsCapturedNow(Run(front), acts[n], p, q);
      i := n;
    } else {
      AnswerStays(Run(front), acts[n]);
      i := OkReplyIsOneAccept(front, p, q);
      assert front[..i] == acts[..i];
      ContentsStay(Run(front), acts[n], p, q, Run(front[..i]).edits);
    }
  }

  /** In every run, an accept before any answer with both secrets sealed hands
      over two new descriptors that read as the current and the new entry; a
      confirmation that does not match moves nothing. */
  lemma {:induction false} AcceptHandsOverBoth(acts: seq<Action>)
    requires Run(acts).registered && !Run(acts).destroyed
    ensures
      var s := Run(acts);
      var t := Step(s, Accept(true, true));
      if s.edits.newPin != s.edits.confirm then t == s
      else
        && !t.registered && t.edits == Edits("", "", "") && t.answers == [Handed(s.next, s.next + 1)]
        && t.contents == s.contents[s.next := s.edits.current][s.next + 1 := s.edits.newPin]
        && s.next !in s.contents && s.next + 1 !in s.contents
        && t.handed == s.handed + multiset{s.next, s.next + 1} && t.closed == s.closed
  {
    RunInv(acts);
    assert Held(Some(Run(acts).next)) + Held(Some(Run(acts).next + 1)) == multiset{Run(acts).next, Run(acts).next + 1};
  }

  /** With a secret missing the answer is Error, nothing is handed over, and the
      half that was sealed is closed; the edits are wiped all the same. */
  lemma {:induction false} HalfACaptureIsAnError(acts: seq<Action>, sealsCurrent: bool, sealsNew: bool)
    requires Run(acts).registered && !Run(acts).destroyed && !(sealsCurrent && sealsNew)
    ensures
      var s := Run(acts);
      var t := Step(s, Accept(sealsCurrent, sealsNew));
      if s.edits.newPin != s.edits.confirm then t == s
      else
        && !t.registered && t.edits == Edits("", "", "") && t.answers == [Refused(PromptWire.Error)]
        && t.handed == s.handed && t.captured == NoPair
        && t.closed == s.closed + if sealsCurrent || sealsNew then multiset{s.next} else multiset{}
  {
    RunInv(acts);
    HalfACapture(Run(acts), sealsCurrent, sealsNew);
  }

  lemma HalfACapture(s: State, sealsCurrent: bool, sealsNew: bool)
    requires Inv(s) && s.registered && !s.destroyed && !(sealsCurrent && sealsNew)
    ensures
      var t := Step(s, Accept(sealsCurrent, sealsNew));
      if s.edits.newPin != s.edits.confirm then t == s
      else
        && !t.registered && t.edits == Edits("", "", "") && t.answers == [Refused(PromptWire.Error)]
        && t.handed == s.handed && t.captured == NoPair
        && t.closed == s.closed + if sealsCurrent || sealsNew then multiset{s.next} else multiset{}
  {
    if sealsCurrent {
      assert !sealsNew;
    } else if sealsNew {
    }
  }

  /** A take hands over what is captured, the destructor closes it, and neither
      does anything else to a descriptor. */
  lemma TakenIsHandedAndDestroyedIsClosed(acts: seq<Action>)
    requires !Run(acts).destroyed
    ensures
      var s := Run(acts);
      var held := (if s.captured.primary.Some? then multiset{s.captured.primary.value} else multiset{})
                + (if s.captured.secondary.Some? then multiset{s.captured.secondary.value} else multiset{});
      && Step(s, Take) == s.(captured := Pair(None, None), handed := s.handed + held)
      && Step(s, Destroy) == s.(captured := Pair(None, None), closed := s.closed + held, destroyed := true)
  {
  }

  /** Closing the window before any answer is answered by how it closed, and no
      descriptor is made or handed over. */
  lemma {:induction false} RejectIsAnswered(acts: seq<Action>, expired: bool)
    requires Run(acts).registered && !Run(acts).destroyed
    ensures
      var t := Step(Run(acts), Reject(expired));
      && t.answers == [Refused(if expired then PromptWire.Timeout else PromptWire.Cancelled)]
      && t == Run(acts).(answers := t.answers, registered := false)
  {
    RunInv(acts);
  }

  // ---------------------------------------------------------------------
  // The agent
  // ---------------------------------------------------------------------

  datatype PinChangeResult = PinChangeResult(status: PromptWire.PromptStatus, current: Option<string>,
          newPin: Option<string>)

  // PrompterClient::requestPinChange; a read that fails is None.
  function AgentResult(answer: Answer, readPrimary: Option<string>, readSecondary: Option<string>): PinChangeResult {
    match answer
    case Refused(status) => PinChangeResult(PromptWire.PromptStatusFor(status, false), None, None)
    case Handed(_, _) =>
      if readPrimary.None? || readSecondary.None? then PinChangeResult(PromptWire.PError, None, None)
      else PinChangeResult(PromptWire.POk, readPrimary, readSecondary)
  }

  /** The agent reports each refusal as what it was, and never a secret with one. */
  lemma RefusalIsReported(status: PromptWire.ReplyStatus, primary: Option<string>, secondary: Option<string>)
    requires status != PromptWire.Ok
    ensures AgentResult(Refused(status), primary, secondary) ==
            PinChangeResult(if status == PromptWire.Cancelled then PromptWire.PCancelled
                            else if status == PromptWire.Timeout then PromptWire.PTimeout
                            else PromptWire.PError, None, None)
  {
  }

  // What the agent reads back from a descriptor it was handed.
  function ReadBack(s: State, answer: Answer, primary: bool, readable: bool): Option<string> {
    if answer.Refused? || !readable then None
    else
      var fd := if primary then answer.primary else answer.secondary;
      if fd in s.contents then Some(s.contents[fd]) else None
  }

  /** The agent exposes both secrets or neither, and the secrets it exposes are
      the two entries of one matching accept. */
  lemma {:induction false} BothOrNeither(acts: seq<Action>, answer: Answer, readsPrimary: bool, readsSecondary: bool)
    requires Run(acts).answers == [answer]
    ensures var s := Run(acts);
      var result := AgentResult(answer, ReadBack(s, answer, true, readsPrimary),
                                ReadBack(s, answer, false, readsSecondary));
      && (result.current.Some? <==> result.newPin.Some?)
      && (result.current.Some? <==> result.status == PromptWire.POk)
      && (result.current.Some? <==> answer.Handed? && readsPrimary && readsSecondary)
      && (result.current.Some? ==>
            exists i: nat :: i < |acts| && acts[i].Accept?
              && Run(acts[..i]).edits.newPin == Run(acts[..i]).edits.confirm
              && result.current == Some(Run(acts[..i]).edits.current)
              && result.newPin == Some(Run(acts[..i]).edits.newPin))
  {
    RunInv(acts);
    assert answer in Run(acts).answers;
    if answer.Handed? {
      var i := OkReplyIsOneAccept(acts, answer.primary, answer.secondary);
      assert acts[i].Accept?;
    }
  }

  // ---------------------------------------------------------------------
  // The dialog as it is kept
  // ---------------------------------------------------------------------

  class Dialog {
    var contents: map<Fd, string>
    var closed: multiset<Fd>
    var handed: multiset<Fd>
    var next: Fd
    var edits: Edits
    var capturedPair: Pair
    var registered: bool
    var destroyed: bool
    var answers: seq<Answer>

    ghost function Abs(): State
      reads this
    {
      State(contents, closed, handed, next, edits, capturedPair, registered, destroyed, answers)
    }

    constructor ()
      ensures Abs() == Init
    {
      contents, closed, handed, next := map[], multiset{}, multiset{}, 0;
      edits, capturedPair, registered, destroyed, answers := Edits("", "", ""), NoPair, true, false, [];
    }

    method CloseFd(fd: Option<Fd>)
      modifies `closed
      ensures closed == old(closed) + Held(fd)
    {
      if fd.Some? {
        closed := closed + multiset{fd.value};
      }
    }

    method CloseBoth(pair: Pair)
      modifies `closed
      ensures closed == old(closed) + BothHeld(pair)
    {
      CloseFd(pair.primary);
      CloseFd(pair.secondary);
      assert old(closed) + Held(pair.primary) + Held(pair.secondary) == old(closed) + BothHeld(pair);
    }

    method MakeSealedSecretFd(bytes: string, ok: bool) returns (fd: Option<Fd>)
      modifies `contents, `next
      ensures (Abs(), fd) == Sealed(old(Abs()), bytes, ok)
    {
      if !ok {
        return None;
      }
      fd := Some(next);
      contents := contents[next := bytes];
      next := next + 1;
    }

    method TakeSecretFdPair() returns (pair: Pair)
      modifies `capturedPair
      ensures pair == old(capturedPair) && Abs() == old(Abs()).(captured := NoPair)
    {
      pair := capturedPair;
      capturedPair := NoPair;
    }

    // The accepted half of the completion.
    method AnswerWithCapture()
      modifies `capturedPair, `closed, `handed, `answers
      requires registered
      ensures Abs().(registered := false) == Completed(old(Abs()), true, false)
    {
      var pair := TakeSecretFdPair();
      if pair.primary.None? || pair.secondary.None? {
        CloseBoth(pair);
        answers := answers + [Refused(PromptWire.Error)];
      } else {
        handed := handed + BothHeld(pair);
        answers := answers + [Handed(pair.primary.value, pair.secondary.value)];
      }
    }

    method OnFinished(accepted: bool, expired: bool)
      modifies this
      ensures Abs() == Completed(old(Abs()), accepted, expired)
    {
      if !registered {
        return;
      }
      if accepted {
        AnswerWithCapture();
      } else {
        answers := answers + [Refused(if expired then PromptWire.Timeout else PromptWire.Cancelled)];
      }
      registered := false;
    }

    method Accept(sealsCurrent: bool, sealsNew: bool)
      requires !destroyed
      modifies this
      ensures Abs() == Step(old(Abs()), Action.Accept(sealsCurrent, sealsNew))
    {
      var already := capturedPair.primary.Some? || capturedPair.secondary.Some?;
      if !already {
        if edits.newPin != edits.confirm {
          return;
        }
        var primary := MakeSealedSecretFd(edits.current, sealsCurrent);
        var secondary := MakeSealedSecretFd(edits.newPin, sealsNew);
        edits := Edits("", "", "");
        capturedPair := Pair(primary, secondary);
      }
      OnFinished(true, false);
    }

    // The destructor.
    method Destroy()
      requires !destroyed
      modifies this
      ensures Abs() == Destroyed(old(Abs()))
    {
      CloseBoth(capturedPair);
      capturedPair := NoPair;
      destroyed := true;
    }
  }
}
