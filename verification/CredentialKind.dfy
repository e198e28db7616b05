/**
 Which credential a reply carries, from the form on screen to the agent's
 result: over every run, the status word names the form the secret came from.
 */
module CredentialKind {
  import opened Wrappers
  import opened PromptWire
  import opened PromptLifecycle

  // What a reply says about the secret in it.
  ghost predicate Truthful(s: State, r: RequestId, reply: Reply) {
    match reply.status
    case Ok => r in s.requests && reply.secret.Some? && reply.secret.value.kind == s.requests[r].kind
    case OkMrz =>
      r in s.requests && s.requests[r].offer && s.requests[r].kind == Can
      && reply.secret.Some? && reply.secret.value.kind == Mrz
    case _ => reply.secret.None?
  }

  ghost predicate RepliesInv(s: State) {
    forall r :: r in s.replies ==> forall i :: 0 <= i < |s.replies[r]| ==> Truthful(s, r, s.replies[r][i])
  }

  lemma FinishedKeepsReplies(s: State, w: Window, accepted: bool, entry: string, captured: bool)
    requires w in s.dialogs && Inv(Unmarked(s, w)) && RepliesInv(s)
    ensures RepliesInv(Finished(s, w, accepted, entry, captured))
  {
    var t := Finished(s, w, accepted, entry, captured);
    var d := s.dialogs[w];
    assert DialogInv(Unmarked(s, w), w);
    forall r | r in t.replies
      ensures forall i :: 0 <= i < |t.replies[r]| ==> Truthful(t, r, t.replies[r][i])
    {
      if d.handle in s.registry.entries && r == d.request {
        assert Stands(Unmarked(s, w), d.handle);
        assert t.replies[r] == [Outcome(d, accepted, entry, captured)];
        assert Truthful(t, r, Outcome(d, accepted, entry, captured));
      } else {
        assert t.replies[r] == s.replies[r];
        assert forall i :: 0 <= i < |s.replies[r]| ==> Truthful(s, r, s.replies[r][i]);
      }
    }
  }

  // A step that answers nobody new and forgets no request.
  lemma SameReplies(s: State, t: State)
    requires RepliesInv(s)
    requires forall r :: r in t.replies ==>
      (|| t.replies[r] == []
       || (r in s.replies && t.replies[r] == s.replies[r])
       || t.replies[r] == [Reply(Error, None)]
       || t.replies[r] == [Reply(Unauthorized, None)])
    requires forall r :: r in s.requests && r in s.replies && s.replies[r] != [] ==>
               r in t.requests && t.requests[r] == s.requests[r]
    ensures RepliesInv(t)
  {
    forall r | r in t.replies
      ensures forall i :: 0 <= i < |t.replies[r]| ==> Truthful(t, r, t.replies[r][i])
    {
      if r in s.replies && t.replies[r] == s.replies[r] {
        assert forall i :: 0 <= i < |s.replies[r]| ==> Truthful(s, r, s.replies[r][i]);
      }
    }
  }

  lemma ArrivingKeepsReplies(s: State, a: Action)
    requires Inv(s) && RepliesInv(s) && a.Arrive?
    ensures RepliesInv(Step(s, a))
  {
    assert s.nextRequest !in s.replies;
    SameReplies(s, Step(s, a));
  }

  lemma RaisingKeepsReplies(s: State, r: RequestId)
    requires Inv(s) && RepliesInv(s) && r in s.raises
    ensures RepliesInv(Raising(s, r))
  {
    assert Answerable(s, r);
    assert [] + [Reply(Error, Nothing)] == [Reply(Error, Nothing)];
    SameReplies(s, Raising(s, r));
  }

  lemma ExpiredKeepsReplies(s: State, w: Window)
    requires Inv(s) && RepliesInv(s) && w in s.dialogs
    ensures RepliesInv(Finished(Expired(s, w), w, false, "", false))
  {
    UnmarkedExpired(s, w);
    SameReplies(s, Expired(s, w));
    FinishedKeepsReplies(Expired(s, w), w, false, "", false);
  }

  lemma FinishKeepsReplies(s: State, w: Window, accepted: bool, entry: string, captured: bool)
    requires Inv(s) && RepliesInv(s) && w in s.dialogs
    ensures RepliesInv(Finished(s, w, accepted, entry, captured))
  {
    ExpiredMark(s, w);
    FinishedKeepsReplies(s, w, accepted, entry, captured);
  }

  lemma DeliveryKeepsReplies(s: State, w: Window)
    requires Inv(s) && RepliesInv(s)
    ensures RepliesInv(Step(s, DeliverReject(w)))
  {
    if w in s.rejects {
      var s1 := s.(rejects := s.rejects - multiset{w});
      QueuesKeepInv(s, s.dismissals, s.rejects - multiset{w}, s.now);
      SameReplies(s, s1);
      if w in s.dialogs {
        FinishKeepsReplies(s1, w, false, "", false);
      }
    }
  }

  lemma StepKeepsReplies(s: State, a: Action)
    requires Inv(s) && RepliesInv(s)
    ensures RepliesInv(Step(s, a))
  {
    match a
    case Arrive(_, _, _, _, _) => ArrivingKeepsReplies(s, a);
    case RunRaise(r) =>
      if r in s.raises {
        RaisingKeepsReplies(s, r);
      }
    case DeliverReject(w) => DeliveryKeepsReplies(s, w);
    case UserReject(w) =>
      if w in s.dialogs {
        FinishKeepsReplies(s, w, false, "", false);
      }
    case UserAccept(w, entry, matches, captured) =>
      if w in s.dialogs {
        FinishKeepsReplies(s, w, true, entry, captured);
      }
    case DeadlineFires(w) =>
      if Due(s, w) {
        ExpiredKeepsReplies(s, w);
      }
    case _ => SameReplies(s, Step(s, a));
  }

  lemma {:induction false} RunReplies(acts: seq<Action>)
    ensures RepliesInv(Run(acts))
  {
    if acts != [] {
      var front := acts[..|acts| - 1];
      RunInv(front);
      RunReplies(front);
      StepKeepsReplies(Run(front), acts[|acts| - 1]);
    }
  }

  /** The agent reports MRZ as the chosen kind exactly when its CAN request came
      back with an MRZ in it, a plain Ok carries the kind that was asked for, and
      every other ending is reported as what it was: for every option set, every
      run and any number of form switches. */
  lemma {:induction false} ChosenKindIsTheTruth(acts: seq<Action>, r: RequestId, kind: Kind, options: PromptOptions,
                                                d: Dict, pid: int, readable: bool)
    requires Carries(d, options)
    requires r in Run(acts).requests && Run(acts).requests[r] == RequestFrom(kind, Lift(d), pid)
    requires r in Run(acts).replies && |Run(acts).replies[r]| == 1
    ensures
      var reply := Run(acts).replies[r][0];
      var result := RequestResult(kind, options, reply, readable);
      && (result.chosenKind == Some(Mrz) <==>
            result.status == POk && kind == Can && reply.secret.Some? && reply.secret.value.kind == Mrz)
      && (result.chosenKind.Some? ==> result.chosenKind == Some(Mrz))
      && (result.status == match reply.status
            case Ok => if readable then POk else PError
            case OkMrz => if readable then POk else PError
            case Cancelled => PCancelled
            case Timeout => PTimeout
            case Error => PError
            case Unauthorized => PError)
      && (reply.status == Ok ==> reply.secret.Some? && reply.secret.value.kind == kind)
      && (result.status == POk ==> result.secret == Some(reply.secret.value.bytes))
      && (result.status != POk ==> result.secret.None? && result.chosenKind.None?)
  {
    RunReplies(acts);
    assert Truthful(Run(acts), r, Run(acts).replies[r][0]);
    OffersAgree(kind, options, d);
  }

  /** The prompter lifts what the agent set: the name, both budgets, and whether
      the MRZ is among the alternatives. */
  lemma LiftedAsSet(options: PromptOptions, d: Dict)
    requires Carries(d, options)
    ensures Lift(d) ==
            Lifted(options.promptId, options.deadlineMs, options.altDeadlineMs, KindWord(Mrz) in options.altKinds)
  {
    RoutingArrives(options, d);
  }

  /** What the holder types is what the agent gets: in every run, an accept on
      the window of a single-secret request ends in an Ok result of exactly that
      entry, as an MRZ when the form then on screen was the MRZ form of a CAN
      request, and as the kind asked for otherwise. */
  lemma {:induction false} EntryReachesTheAgent(acts: seq<Action>, h: Handle, kind: Kind, options: PromptOptions,
                                                d: Dict, pid: int, entry: string)
    requires Carries(d, options) && kind != ChangePin
    requires h in Run(acts).registry.entries && Run(acts).registry.entries[h].window in Run(acts).dialogs
    requires var r := RequestOf(Run(acts), h);
      r in Run(acts).requests && Run(acts).requests[r] == RequestFrom(kind, Lift(d), pid)
    ensures
      var s := Run(acts);
      var w := s.registry.entries[h].window;
      var r := s.dialogs[w].request;
      var t := Step(s, UserAccept(w, entry, true, true));
      && r in t.replies && |t.replies[r]| == 1
      && RequestResult(kind, options, t.replies[r][0], true) ==
         PromptResult(POk, if kind == Can && s.dialogs[w].kind == Mrz then Some(Mrz) else None, Some(entry))
  {
    RegisteredStands(acts, h);
    AcceptAnswersTheEntry(acts, h, entry, true, true);
    OffersAgree(kind, options, d);
    LiftedAsSet(options, d);
  }
}
