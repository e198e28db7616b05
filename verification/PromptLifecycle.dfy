/**
 The prompter as a state machine: one action per bus call, posted functor or
 GUI event, in any order. A request is answered at most once, an unanswered one
 is in exactly one place, and the clock answers exactly what it closed.

 Posted functors and queued rejects may run in any order here, which includes
 the order the event queue runs them in.
 */
module PromptLifecycle {
  import opened Wrappers
  import opened PromptWire
  import EntryClock
  import PromptRegistry

  type RequestId = nat
  type Window = PromptRegistry.Window
  type Handle = PromptRegistry.Handle

  // A request that passed the caller gate and named a kind its method serves.
  datatype Request = Request(kind: Kind, promptId: string, owner: int, entryMs: UInt32, altMs: UInt32, offer: bool)

  // The routing part of a request's options, as the handler lifts it; `altMrz`
  // says that the alternative kinds name the MRZ.
  datatype Lifted = Lifted(promptId: string, entryMs: UInt32, altMs: UInt32, altMrz: bool)

  function Lift(d: Dict): Lifted {
    Lifted(OptionString(d, PromptIdKey), OptionUInt(d, DeadlineKey, 0), OptionUInt(d, AltDeadlineKey, 0),
           KindWord(Mrz) in OptionStringList(d, AltKindsKey))
  }

  // A window that is built and not yet deleted. `deleting` is set by
  // deleteLater(); the object lives on until the event loop deletes it.
  datatype Dialog = Dialog(request: RequestId, handle: Handle, kind: Kind, offer: bool,
                           clock: EntryClock.Clock, expired: bool, deleting: bool)

  datatype Dismissal = CancelTask(promptId: string, caller: int) | ResetTask

  datatype State = State(
    raises: map<RequestId, Request>,          // posted to the GUI thread, not run yet
    dismissals: multiset<Dismissal>,          // posted Cancel and Reset functors
    rejects: multiset<Window>,                // queued reject() calls
    registry: PromptRegistry.LiveWindows,
    dialogs: map<Window, Dialog>,
    requests: map<RequestId, Request>,        // every request that was posted
    replies: map<RequestId, seq<Reply>>,      // every answer sent, per request
    nextRequest: RequestId,
    nextWindow: Window,
    now: int)

  const Init := State(map[], multiset{}, multiset{}, PromptRegistry.Empty, map[], map[], map[], 0, 1, 0)

  datatype Action =
    // RequestSecret (`multi` false) or RequestSecrets; `pid` is 0 for a caller
    // the gate refuses, `posted` whether the GUI thread took the functor.
    | Arrive(multi: bool, kind: Option<Kind>, options: Lifted, pid: int, posted: bool)
    | RunRaise(request: RequestId)
    | CancelCall(promptId: string, pid: int, posted: bool)
    | ResetCall(pid: int, posted: bool)
    | RunDismissal(task: Dismissal)
    | DeliverReject(window: Window)
    | UserReject(window: Window)
    // `matches`: new equals confirm (change-PIN only); `captured`: sealing worked.
    | UserAccept(window: Window, entry: string, matches: bool, captured: bool)
    | DeadlineFires(window: Window)
    | SwitchForm(window: Window)
    | DeleteWindow(window: Window)
    | Advance(millis: nat)

  // ---------------------------------------------------------------------
  // The steps
  // ---------------------------------------------------------------------

  function Answered(s: State, r: RequestId, reply: Reply): State {
    s.(replies := s.replies[r := (if r in s.replies then s.replies[r] else []) + [reply]])
  }

  const Nothing: Option<Secret> := None

  // The switch is offered on a CAN request that names the MRZ, and nowhere else.
  function RequestFrom(kind: Kind, options: Lifted, pid: int): Request {
    Request(kind, options.promptId, pid, options.entryMs, options.altMs, kind == Can && options.altMrz)
  }

  predicate Serves(multi: bool, kind: Option<Kind>) {
    kind.Some? && (kind.value == ChangePin <==> multi)
  }

  // A request answered in the very step that receives it.
  function Refusing(s: State, status: ReplyStatus): State {
    s.(nextRequest := s.nextRequest + 1, replies := s.replies[s.nextRequest := [Reply(status, Nothing)]])
  }

  function Posting(s: State, request: Request): State {
    var r := s.nextRequest;
    s.(nextRequest := r + 1, raises := s.raises[r := request], requests := s.requests[r := request],
       replies := s.replies[r := []])
  }

  function Arriving(s: State, multi: bool, kind: Option<Kind>, options: Lifted, pid: int, posted: bool): State {
    if pid == 0 then Refusing(s, Unauthorized)
    else if !Serves(multi, kind) || !posted then Refusing(s, Error)
    else Posting(s, RequestFrom(kind.value, options, pid))
  }

  // raiseWindow / raiseChangePinWindow.
  ghost function Raising(s: State, r: RequestId): State
    requires r in s.raises
  {
    var request := s.raises[r];
    var w := s.nextWindow;
    var (registry, handle) := PromptRegistry.Registering(
      s.registry, PromptRegistry.Entry(w, request.owner, request.promptId));
    var s1 := s.(raises := s.raises - {r}, nextWindow := w + 1, registry := registry);
    if handle.None? then Answered(s1, r, Reply(Error, Nothing))
    else
      var clock := EntryClock.Raised(request.entryMs, if request.offer then request.altMs else 0, s.now);
      s1.(dialogs := s1.dialogs[w := Dialog(r, handle.value, request.kind, request.offer, clock, false, false)])
  }

  // What the completion answers with.
  function Outcome(d: Dialog, accepted: bool, entry: string, captured: bool): Reply {
    if !accepted then Reply(if d.expired then Timeout else Cancelled, Nothing)
    else if !captured then Reply(Error, Nothing)
    else Reply(if d.offer && d.kind == Mrz then OkMrz else Ok, Some(Secret(d.kind, entry)))
  }

  // QDialog::finished: the entry is taken first, and only a taken entry is answered.
  ghost function Finished(s: State, w: Window, accepted: bool, entry: string, captured: bool): State
    requires w in s.dialogs
  {
    var d := s.dialogs[w];
    if PromptRegistry.EntryOf(s.registry, d.handle).None? then s
    else
      var s1 := s.(registry := PromptRegistry.Taking(s.registry, d.handle),
                   dialogs := s.dialogs[w := d.(deleting := true)]);
      Answered(s1, d.request, Outcome(d, accepted, entry, captured))
  }

  // The deadline timer's timeout: the mark is set, then the window closes.
  function Expired(s: State, w: Window): State
    requires w in s.dialogs
  {
    var d := s.dialogs[w];
    s.(dialogs := s.dialogs[w := d.(expired := true, clock := EntryClock.Fired(d.clock))])
  }

  predicate Due(s: State, w: Window) {
    w in s.dialogs && s.dialogs[w].clock.expiry.Some? && s.dialogs[w].clock.expiry.value <= s.now
  }

  predicate OwnsPrompt(owner: int, caller: int) {
    owner != 0 && owner == caller
  }

  // The windows a dismissal queues a reject for.
  ghost function Dismissed(r: PromptRegistry.LiveWindows, task: Dismissal): multiset<Window> {
    match task
    case ResetTask => multiset(set h | h in r.entries :: r.entries[h].window)
    case CancelTask(promptId, caller) =>
      var h := PromptRegistry.HandleNamed(r, promptId);
      if h.Some? && OwnsPrompt(r.entries[h.value].ownerPid, caller)
      then multiset{r.entries[h.value].window} else multiset{}
  }

  ghost function Dismissing(s: State, task: Dismissal): State {
    s.(dismissals := s.dismissals - multiset{task}, rejects := s.rejects + Dismissed(s.registry, task))
  }

  ghost function Step(s: State, a: Action): State {
    match a
    case Arrive(multi, kind, options, pid, posted) => Arriving(s, multi, kind, options, pid, posted)
    case RunRaise(r) => if r in s.raises then Raising(s, r) else s
    case CancelCall(id, pid, posted) =>
      if pid == 0 || !posted then s else s.(dismissals := s.dismissals + multiset{CancelTask(id, pid)})
    case ResetCall(pid, posted) =>
      if pid == 0 || !posted then s else s.(dismissals := s.dismissals + multiset{ResetTask})
    case RunDismissal(task) => if task in s.dismissals then Dismissing(s, task) else s
    case DeliverReject(w) =>
      if w !in s.rejects then s
      else
        var s1 := s.(rejects := s.rejects - multiset{w});
        if w in s1.dialogs then Finished(s1, w, false, "", false) else s1
    case UserReject(w) => if w in s.dialogs then Finished(s, w, false, "", false) else s
    case UserAccept(w, entry, matches, captured) =>
      if w !in s.dialogs || (s.dialogs[w].kind == ChangePin && !matches) then s
      else Finished(s, w, true, entry, captured)
    case DeadlineFires(w) => if Due(s, w) then Finished(Expired(s, w), w, false, "", false) else s
    case SwitchForm(w) =>
      if w !in s.dialogs || !s.dialogs[w].offer then s
      else
        var d := s.dialogs[w];
        s.(dialogs := s.dialogs[w := d.(kind := if d.kind == Mrz then Can else Mrz,
                                        clock := EntryClock.Switched(d.clock, s.now))])
    case DeleteWindow(w) =>
      if w !in s.dialogs || !s.dialogs[w].deleting then s else s.(dialogs := s.dialogs - {w})
    case Advance(millis) => s.(now := s.now + millis)
  }

  ghost function Run(acts: seq<Action>): State {
    if acts == [] then Init else Step(Run(acts[..|acts| - 1]), acts[|acts| - 1])
  }

  // ---------------------------------------------------------------------
  // The invariant
  // ---------------------------------------------------------------------

  ghost predicate Answerable(s: State, r: RequestId) {
    r in s.requests && r in s.replies && s.replies[r] == []
  }

  // A registered window stands: it is built, unanswered and not expired.
  ghost predicate Stands(s: State, h: Handle) {
    h in s.registry.entries &&
    var e := s.registry.entries[h];
    && e.window in s.dialogs
    && var d := s.dialogs[e.window];
       d.handle == h && !d.deleting && !d.expired && Answerable(s, d.request)
       && s.requests[d.request].owner == e.ownerPid && s.requests[d.request].promptId == e.promptId
  }

  ghost predicate RegistryInv(s: State) {
    && PromptRegistry.WellFormed(s.registry)
    && (forall h :: h in s.registry.entries ==> Stands(s, h))
  }

  // A dialog follows the request it was raised for.
  ghost predicate Follows(d: Dialog, request: Request) {
    && d.offer == request.offer
    && (d.offer ==> request.kind == Can && (d.kind == Can || d.kind == Mrz))
    && (!d.offer ==> d.kind == request.kind)
  }

  ghost predicate DialogInv(s: State, w: Window) {
    w in s.dialogs &&
    var d := s.dialogs[w];
    && 1 <= w < s.nextWindow && 1 <= d.handle < s.registry.next
    && d.request in s.requests && Follows(d, s.requests[d.request])
    && d.request !in s.raises
    && (d.deleting <==> d.handle !in s.registry.entries)
    && (!d.deleting ==> s.registry.entries[d.handle].window == w)
  }

  ghost predicate DialogsInv(s: State) {
    && 1 <= s.nextWindow
    && (forall w :: w in s.dialogs ==> DialogInv(s, w))
    && (forall v, w :: v in s.dialogs && w in s.dialogs && s.dialogs[v].request == s.dialogs[w].request ==> v == w)
  }

  ghost predicate StandingFor(s: State, h: Handle, r: RequestId) {
    h in s.registry.entries && s.registry.entries[h].window in s.dialogs
    && s.dialogs[s.registry.entries[h].window].request == r
  }

  ghost predicate RequestInv(s: State, r: RequestId) {
    && r in s.replies && |s.replies[r]| <= 1
    && (s.replies[r] == [] ==> r in s.raises || exists h :: StandingFor(s, h, r))
  }

  ghost predicate RequestsInv(s: State) {
    && (forall r :: r in s.replies || r in s.requests ==> r < s.nextRequest)
    && (forall r: RequestId :: r < s.nextRequest ==> RequestInv(s, r))
    && (forall r :: r in s.raises ==> Answerable(s, r) && s.raises[r] == s.requests[r])
    && (forall r :: r in s.requests ==> s.requests[r].offer ==> s.requests[r].kind == Can)
  }

  ghost predicate Inv(s: State) {
    RegistryInv(s) && DialogsInv(s) && RequestsInv(s)
  }

  lemma InitInv()
    ensures Inv(Init)
  {
  }

  // A step keeps the registry's invariant when every entry it leaves stood
  // before and its window, request and answers were left alone.
  lemma StandsStays(s: State, t: State, h: Handle)
    requires Stands(s, h) && h in t.registry.entries && t.registry.entries[h] == s.registry.entries[h]
    requires var w := s.registry.entries[h].window;
      && w in t.dialogs && t.dialogs[w].handle == h && !t.dialogs[w].deleting && !t.dialogs[w].expired
      && t.dialogs[w].request == s.dialogs[w].request
      && var r := s.dialogs[w].request;
         r in t.requests && t.requests[r] == s.requests[r] && r in t.replies && t.replies[r] == s.replies[r]
    ensures Stands(t, h)
  {
  }

  // A new request, refused or posted, disturbs no other.
  lemma RefusingKeepsInv(s: State, status: ReplyStatus)
    requires Inv(s)
    ensures Inv(Refusing(s, status))
  {
    var t := Refusing(s, status);
    assert s.nextRequest !in s.replies && s.nextRequest !in s.requests;
    forall h | h in t.registry.entries
      ensures Stands(t, h)
    {
      assert Stands(s, h);
      StandsStays(s, t, h);
    }
    forall w | w in t.dialogs
      ensures DialogInv(t, w)
    {
      assert DialogInv(s, w);
    }
    forall q: RequestId | q < t.nextRequest
      ensures RequestInv(t, q)
    {
      if q < s.nextRequest {
        assert RequestInv(s, q);
        if h :| StandingFor(s, h, q) {
          assert StandingFor(t, h, q);
        }
      }
    }
  }

  lemma PostingKeepsInv(s: State, request: Request)
    requires Inv(s) && (request.offer ==> request.kind == Can)
    ensures Inv(Posting(s, request))
  {
    var t := Posting(s, request);
    assert s.nextRequest !in s.replies && s.nextRequest !in s.requests;
    forall h | h in t.registry.entries
      ensures Stands(t, h)
    {
      assert Stands(s, h);
      StandsStays(s, t, h);
    }
    forall w | w in t.dialogs
      ensures DialogInv(t, w)
    {
      assert DialogInv(s, w);
    }
    forall q: RequestId | q < t.nextRequest
      ensures RequestInv(t, q)
    {
      if q < s.nextRequest {
        assert RequestInv(s, q);
        if h :| StandingFor(s, h, q) {
          assert StandingFor(t, h, q);
        }
      }
    }
  }

  lemma RaisingRegistry(s: State, r: RequestId)
    requires Inv(s) && r in s.raises
    ensures RegistryInv(Raising(s, r))
  {
    var t := Raising(s, r);
    var e := PromptRegistry.Entry(s.nextWindow, s.raises[r].owner, s.raises[r].promptId);
    PromptRegistry.ApplyKeepsWellFormed(s.registry, PromptRegistry.AddOp(e));
    assert Answerable(s, r);
    forall h | h in t.registry.entries
      ensures Stands(t, h)
    {
      if h in s.registry.entries {
        assert Stands(s, h);
        assert DialogInv(s, s.registry.entries[h].window);
        StandsStays(s, t, h);
      }
    }
  }

  lemma RaisingDialogs(s: State, r: RequestId)
    requires Inv(s) && r in s.raises
    ensures DialogsInv(Raising(s, r))
  {
    var t := Raising(s, r);
    assert s.registry.next !in s.registry.entries;
    assert Answerable(s, r);
    forall v | v in t.dialogs
      ensures DialogInv(t, v)
      ensures v in s.dialogs ==> t.dialogs[v] == s.dialogs[v] && s.dialogs[v].request != r
    {
      if v in s.dialogs {
        assert DialogInv(s, v);
      }
    }
  }

  lemma RaisingRequests(s: State, r: RequestId)
    requires Inv(s) && r in s.raises
    ensures RequestsInv(Raising(s, r))
  {
    var t := Raising(s, r);
    var w := s.nextWindow;
    assert Answerable(s, r);
    forall q: RequestId | q < t.nextRequest
      ensures RequestInv(t, q)
    {
      assert RequestInv(s, q);
      if h :| StandingFor(s, h, q) {
        assert DialogInv(s, s.registry.entries[h].window);
        assert StandingFor(t, h, q);
      }
      if q == r && w in t.dialogs {
        assert StandingFor(t, s.registry.next, r);
      }
    }
  }

  // Finishing from a state whose only departure from the invariant may be
  // that window w has just been marked expired.
  ghost function Unmarked(s: State, w: Window): State
    requires w in s.dialogs
  {
    s.(dialogs := s.dialogs[w := s.dialogs[w].(expired := false)])
  }

  lemma FinishedRegistry(s: State, w: Window, accepted: bool, entry: string, captured: bool)
    requires w in s.dialogs && Inv(Unmarked(s, w))
    ensures RegistryInv(Finished(s, w, accepted, entry, captured))
  {
    var t := Finished(s, w, accepted, entry, captured);
    var p := Unmarked(s, w);
    assert DialogInv(p, w);
    PromptRegistry.ApplyKeepsWellFormed(s.registry, PromptRegistry.TakeOp(s.dialogs[w].handle));
    forall h | h in t.registry.entries
      ensures Stands(t, h)
    {
      assert Stands(p, h);
      assert p.registry.entries[h].window != w;
      StandsStays(p, t, h);
    }
  }

  lemma FinishedDialog(s: State, w: Window, accepted: bool, entry: string, captured: bool, v: Window)
    requires w in s.dialogs && Inv(Unmarked(s, w)) && v in s.dialogs
    ensures DialogInv(Finished(s, w, accepted, entry, captured), v)
  {
    assert DialogInv(Unmarked(s, w), w) && DialogInv(Unmarked(s, w), v);
  }

  lemma FinishedDialogs(s: State, w: Window, accepted: bool, entry: string, captured: bool)
    requires w in s.dialogs && Inv(Unmarked(s, w))
    ensures DialogsInv(Finished(s, w, accepted, entry, captured))
  {
    var t := Finished(s, w, accepted, entry, captured);
    var p := Unmarked(s, w);
    forall v | v in t.dialogs
      ensures DialogInv(t, v) && v in p.dialogs && t.dialogs[v].request == p.dialogs[v].request
    {
      FinishedDialog(s, w, accepted, entry, captured, v);
    }
  }

  lemma FinishedRequests(s: State, w: Window, accepted: bool, entry: string, captured: bool)
    requires w in s.dialogs && Inv(Unmarked(s, w))
    ensures RequestsInv(Finished(s, w, accepted, entry, captured))
  {
    var t := Finished(s, w, accepted, entry, captured);
    var p := Unmarked(s, w);
    var d := s.dialogs[w];
    assert DialogInv(p, w);
    if d.handle in s.registry.entries {
      assert Stands(p, d.handle);
    }
    forall q: RequestId | q < t.nextRequest
      ensures RequestInv(t, q)
    {
      assert RequestInv(p, q);
      if h :| StandingFor(p, h, q) {
        assert Stands(p, h);
        assert h in t.registry.entries ==> StandingFor(t, h, q);
      }
    }
  }

  lemma FinishedKeepsInv(s: State, w: Window, accepted: bool, entry: string, captured: bool)
    requires w in s.dialogs && Inv(Unmarked(s, w))
    ensures Inv(Finished(s, w, accepted, entry, captured))
  {
    FinishedRegistry(s, w, accepted, entry, captured);
    FinishedDialogs(s, w, accepted, entry, captured);
    FinishedRequests(s, w, accepted, entry, captured);
  }

  // Changes that touch neither who stands where nor what was answered.
  lemma FrameKeepsInv(s: State, t: State)
    requires Inv(s)
    requires t.raises == s.raises && t.registry == s.registry && t.requests == s.requests && t.replies == s.replies
    requires t.nextRequest == s.nextRequest && t.nextWindow == s.nextWindow && t.dialogs.Keys == s.dialogs.Keys
    requires forall w :: w in s.dialogs ==>
               var d, e := s.dialogs[w], t.dialogs[w];
               && d.request == e.request && d.handle == e.handle && d.offer == e.offer
               && (e.expired ==> d.expired) && d.deleting == e.deleting
               && (Follows(d, s.requests[d.request]) ==> Follows(e, s.requests[d.request]))
    ensures Inv(t)
  {
    forall h | h in t.registry.entries
      ensures Stands(t, h)
    {
      assert Stands(s, h);
    }
    forall w | w in t.dialogs
      ensures DialogInv(t, w)
    {
      assert DialogInv(s, w);
    }
    forall q: RequestId | q < t.nextRequest
      ensures RequestInv(t, q)
    {
      assert RequestInv(s, q);
      if h :| StandingFor(s, h, q) {
        assert StandingFor(t, h, q);
      }
    }
  }

  lemma DialogUpdateKeepsInv(s: State, w: Window, kind: Kind, expired: bool, clock: EntryClock.Clock)
    requires Inv(s) && w in s.dialogs && (expired ==> s.dialogs[w].expired)
    requires kind == s.dialogs[w].kind || (s.dialogs[w].offer && (kind == Can || kind == Mrz))
    ensures Inv(s.(dialogs := s.dialogs[w := s.dialogs[w].(kind := kind, expired := expired, clock := clock)]))
  {
    FrameKeepsInv(
      s, s.(dialogs := s.dialogs[w := s.dialogs[w].(kind := kind, expired := expired, clock := clock)]));
  }

  lemma ExpiredMark(s: State, w: Window)
    requires Inv(s) && w in s.dialogs
    ensures Inv(Unmarked(s, w))
  {
    DialogUpdateKeepsInv(s, w, s.dialogs[w].kind, false, s.dialogs[w].clock);
  }

  lemma UpdateTwice(s: State, w: Window, d: Dialog, e: Dialog)
    ensures s.dialogs[w := d][w := e] == s.dialogs[w := e]
  {
  }

  lemma UnmarkedExpired(s: State, w: Window)
    requires Inv(s) && w in s.dialogs
    ensures Inv(Unmarked(Expired(s, w), w))
  {
    var d := Expired(s, w).dialogs[w];
    DialogUpdateKeepsInv(s, w, d.kind, false, d.clock);
    UpdateTwice(s, w, d, d.(expired := false));
  }

  lemma DeadlineKeepsInv(s: State, w: Window)
    requires Inv(s) && w in s.dialogs
    ensures Inv(Finished(Expired(s, w), w, false, "", false))
  {
    UnmarkedExpired(s, w);
    FinishedKeepsInv(Expired(s, w), w, false, "", false);
  }

  lemma QueuesKeepInv(s: State, dismissals: multiset<Dismissal>, rejects: multiset<Window>, now: int)
    requires Inv(s)
    ensures Inv(s.(dismissals := dismissals, rejects := rejects, now := now))
  {
    FrameKeepsInv(s, s.(dismissals := dismissals, rejects := rejects, now := now));
  }

  lemma DeletingKeepsInv(s: State, w: Window)
    requires Inv(s) && w in s.dialogs && s.dialogs[w].deleting
    ensures Inv(s.(dialogs := s.dialogs - {w}))
  {
    var t := s.(dialogs := s.dialogs - {w});
    assert DialogInv(s, w);
    forall h | h in t.registry.entries
      ensures Stands(t, h)
    {
      assert Stands(s, h);
    }
    forall v | v in t.dialogs
      ensures DialogInv(t, v)
    {
      assert DialogInv(s, v);
    }
    forall q: RequestId | q < t.nextRequest
      ensures RequestInv(t, q)
    {
      assert RequestInv(s, q);
      if h :| StandingFor(s, h, q) {
        assert Stands(s, h);
        assert StandingFor(t, h, q);
      }
    }
  }

  lemma FinishKeepsInv(s: State, w: Window, accepted: bool, entry: string, captured: bool)
    requires Inv(s) && w in s.dialogs
    ensures Inv(Finished(s, w, accepted, entry, captured))
  {
    ExpiredMark(s, w);
    FinishedKeepsInv(s, w, accepted, entry, captured);
  }

  lemma StepKeepsInv(s: State, a: Action)
    requires Inv(s)
    ensures Inv(Step(s, a))
  {
    var t := Step(s, a);
    match a
    case Arrive(multi, kind, options, pid, posted) =>
      if pid != 0 && Serves(multi, kind) && posted {
        PostingKeepsInv(s, RequestFrom(kind.value, options, pid));
      } else {
        RefusingKeepsInv(s, if pid == 0 then Unauthorized else Error);
      }
    case RunRaise(r) =>
      if r in s.raises {
        RaisingRegistry(s, r);
        RaisingDialogs(s, r);
        RaisingRequests(s, r);
      }
    case CancelCall(id, pid, posted) => QueuesKeepInv(s, t.dismissals, t.rejects, t.now);
    case ResetCall(pid, posted) => QueuesKeepInv(s, t.dismissals, t.rejects, t.now);
    case RunDismissal(task) => QueuesKeepInv(s, t.dismissals, t.rejects, t.now);
    case Advance(millis) => QueuesKeepInv(s, t.dismissals, t.rejects, t.now);
    case DeliverReject(w) =>
      if w in s.rejects {
        QueuesKeepInv(s, s.dismissals, s.rejects - multiset{w}, s.now);
        if w in s.dialogs {
          FinishKeepsInv(s.(rejects := s.rejects - multiset{w}), w, false, "", false);
        }
      }
    case UserReject(w) =>
      if w in s.dialogs {
        FinishKeepsInv(s, w, false, "", false);
      }
    case UserAccept(w, entry, matches, captured) =>
      if w in s.dialogs {
        FinishKeepsInv(s, w, true, entry, captured);
      }
    case DeadlineFires(w) =>
      if w in s.dialogs {
        DeadlineKeepsInv(s, w);
      }
    case SwitchForm(w) =>
      if w in s.dialogs && s.dialogs[w].offer {
        var d := s.dialogs[w];
        DialogUpdateKeepsInv(
          s, w, if d.kind == Mrz then Can else Mrz, d.expired, EntryClock.Switched(d.clock, s.now));
      }
    case DeleteWindow(w) =>
      if w in s.dialogs && s.dialogs[w].deleting {
        DeletingKeepsInv(s, w);
      }
  }

  lemma {:induction false} RunInv(acts: seq<Action>)
    ensures Inv(Run(acts))
  {
    if acts == [] {
      InitInv();
    } else {
      RunInv(acts[..|acts| - 1]);
      StepKeepsInv(Run(acts[..|acts| - 1]), acts[|acts| - 1]);
    }
  }

  // ---------------------------------------------------------------------
  // Over every run
  // ---------------------------------------------------------------------

  /** Every request that arrived has at most one answer. */
  lemma {:induction false} AnsweredAtMostOnce(acts: seq<Action>, r: RequestId)
    requires r < Run(acts).nextRequest
    ensures r in Run(acts).replies && |Run(acts).replies[r]| <= 1
  {
    RunInv(acts);
    assert RequestInv(Run(acts), r);
  }

  /** An unanswered request is in exactly one place: the post queue, or one
      registry entry whose window is built and not being deleted. */
  lemma {:induction false} UnansweredIsInOnePlace(acts: seq<Action>, r: RequestId)
    requires r < Run(acts).nextRequest && r in Run(acts).replies && Run(acts).replies[r] == []
    ensures var s := Run(acts);
      && (r in s.raises <==> !exists h :: StandingFor(s, h, r))
      && (forall h, k :: StandingFor(s, h, r) && StandingFor(s, k, r) ==> h == k)
      && (forall h :: StandingFor(s, h, r) ==> !s.dialogs[s.registry.entries[h].window].deleting)
  {
    RunInv(acts);
    var s := Run(acts);
    assert RequestInv(s, r);
    forall h, k | StandingFor(s, h, r) && StandingFor(s, k, r)
      ensures h == k && r !in s.raises && !s.dialogs[s.registry.entries[h].window].deleting
    {
      assert Stands(s, h) && Stands(s, k);
      assert DialogInv(s, s.registry.entries[h].window);
    }
  }

  // The action that answers r, if a does.
  ghost predicate Answers(s: State, a: Action, r: RequestId) {
    && r in Step(s, a).replies && Step(s, a).replies[r] != []
    && (r in s.replies ==> s.replies[r] == [])
  }

  // A completion answers the window's own request, or nobody.
  lemma FinishedAnswers(s: State, w: Window, accepted: bool, entry: string, captured: bool, r: RequestId)
    requires w in s.dialogs && Inv(Unmarked(s, w))
    requires r in Finished(s, w, accepted, entry, captured).replies
    requires Finished(s, w, accepted, entry, captured).replies[r] != []
    requires r in s.replies ==> s.replies[r] == []
    ensures s.dialogs[w].handle in s.registry.entries && r == s.dialogs[w].request
    ensures Finished(s, w, accepted, entry, captured).replies[r] == [Outcome(s.dialogs[w], accepted, entry, captured)]
  {
    assert DialogInv(Unmarked(s, w), w);
    if s.dialogs[w].handle in s.registry.entries {
      assert Stands(Unmarked(s, w), s.dialogs[w].handle);
    }
  }

  // A window that still stands has not expired.
  lemma StandingIsUnexpired(s: State, w: Window)
    requires Inv(s) && w in s.dialogs && s.dialogs[w].handle in s.registry.entries
    ensures !s.dialogs[w].expired
  {
    assert DialogInv(s, w);
    assert Stands(s, s.dialogs[w].handle);
  }

  lemma FinishIsNoTimeout(s: State, w: Window, accepted: bool, entry: string, captured: bool, r: RequestId)
    requires Inv(s) && w in s.dialogs
    requires r in Finished(s, w, accepted, entry, captured).replies
    requires Finished(s, w, accepted, entry, captured).replies[r] != []
    requires r in s.replies ==> s.replies[r] == []
    ensures Finished(s, w, accepted, entry, captured).replies[r][0].status != Timeout
  {
    ExpiredMark(s, w);
    FinishedAnswers(s, w, accepted, entry, captured, r);
    StandingIsUnexpired(s, w);
  }

  lemma DeadlineIsTimeout(s: State, w: Window, r: RequestId)
    requires Inv(s) && Answers(s, DeadlineFires(w), r)
    ensures Step(s, DeadlineFires(w)).replies[r][0].status == Timeout
    ensures w in s.dialogs && s.dialogs[w].request == r
  {
    UnmarkedExpired(s, w);
    FinishedAnswers(Expired(s, w), w, false, "", false, r);
  }

  lemma DeliveredIsNoTimeout(s: State, w: Window, r: RequestId)
    requires Inv(s) && Answers(s, DeliverReject(w), r)
    ensures Step(s, DeliverReject(w)).replies[r][0].status != Timeout
  {
    QueuesKeepInv(s, s.dismissals, s.rejects - multiset{w}, s.now);
    FinishIsNoTimeout(s.(rejects := s.rejects - multiset{w}), w, false, "", false, r);
  }

  lemma RefusalIsNoTimeout(s: State, a: Action, r: RequestId)
    requires Answers(s, a, r) && (a.Arrive? || a.RunRaise?)
    ensures Step(s, a).replies[r][0].status != Timeout
  {
  }

  // The deadline of the window raised for r fires.
  predicate OwnDeadlineFires(s: State, a: Action, r: RequestId) {
    a.DeadlineFires? && a.window in s.dialogs && s.dialogs[a.window].request == r
  }

  lemma AnsweringStatus(s: State, a: Action, r: RequestId)
    requires Inv(s) && Answers(s, a, r)
    ensures Step(s, a).replies[r][0].status == Timeout <==> OwnDeadlineFires(s, a, r)
  {
    match a
    case UserReject(w) => FinishIsNoTimeout(s, w, false, "", false, r);
    case UserAccept(w, entry, matches, captured) => FinishIsNoTimeout(s, w, true, entry, captured, r);
    case DeliverReject(w) => DeliveredIsNoTimeout(s, w, r);
    case DeadlineFires(w) => DeadlineIsTimeout(s, w, r);
    case Arrive(_, _, _, _, _) => RefusalIsNoTimeout(s, a, r);
    case RunRaise(_) => RefusalIsNoTimeout(s, a, r);
    case _ =>
  }

  /** The reply is Timeout exactly when the action that answers is the
      window's own deadline firing. */
  lemma {:induction false} TimeoutExactlyByDeadline(acts: seq<Action>, a: Action, r: RequestId)
    requires Answers(Run(acts), a, r)
    ensures Step(Run(acts), a).replies[r][0].status == Timeout <==> OwnDeadlineFires(Run(acts), a, r)
  {
    RunInv(acts);
    AnsweringStatus(Run(acts), a, r);
  }

  lemma ExpiryAnswersStanding(s: State, h: Handle)
    requires Inv(s) && h in s.registry.entries && Due(s, s.registry.entries[h].window)
    ensures var w := s.registry.entries[h].window;
      var t := Finished(Expired(s, w), w, false, "", false);
      s.dialogs[w].request in t.replies && t.replies[s.dialogs[w].request] == [Reply(Timeout, None)]
      && h !in t.registry.entries
  {
    assert Stands(s, h);
    assert [] + [Reply(Timeout, Nothing)] == [Reply(Timeout, Nothing)];
  }

  /** A deadline that fires on a standing window does answer it, answers
      Timeout, and takes the window off the registry. */
  lemma {:induction false} DeadlineAnswersTimeout(acts: seq<Action>, h: Handle)
    requires h in Run(acts).registry.entries && Due(Run(acts), Run(acts).registry.entries[h].window)
    ensures var s := Run(acts);
      var w := s.registry.entries[h].window;
      var t := Step(s, DeadlineFires(w));
      s.dialogs[w].request in t.replies && t.replies[s.dialogs[w].request] == [Reply(Timeout, None)]
      && h !in t.registry.entries
  {
    RunInv(acts);
    ExpiryAnswersStanding(Run(acts), h);
  }

  // The timer is a one-shot: it is not due again.
  lemma DeadlineFiresOnce(acts: seq<Action>, w: Window)
    requires Due(Run(acts), w)
    ensures var t := Step(Run(acts), DeadlineFires(w));
      w in t.dialogs && t.dialogs[w].expired && !Due(t, w)
  {
  }

  /** Running a Cancel touches nothing but the queued rejects, and those only
      by the one standing window with that id raised by that caller. */
  lemma {:induction false} CancelIsIsolated(acts: seq<Action>, promptId: string, caller: int)
    requires CancelTask(promptId, caller) in Run(acts).dismissals
    ensures var s := Run(acts);
      var t := Step(s, RunDismissal(CancelTask(promptId, caller)));
      && t == s.(dismissals := t.dismissals, rejects := t.rejects)
      && (t.rejects == s.rejects ||
          exists h :: h in s.registry.entries && s.registry.entries[h].promptId == promptId != ""
            && s.registry.entries[h].ownerPid == caller != 0
            && t.rejects == s.rejects + multiset{s.registry.entries[h].window})
      && (t.rejects == s.rejects ==>
          !exists h :: h in s.registry.entries && s.registry.entries[h].promptId == promptId != ""
            && s.registry.entries[h].ownerPid == caller != 0)
  {
    RunInv(acts);
    var s := Run(acts);
    var named := PromptRegistry.HandleNamed(s.registry, promptId);
    forall h | h in s.registry.entries && s.registry.entries[h].promptId == promptId != ""
      ensures named == Some(h)
    {
      assert PromptRegistry.Names(s.registry, h, promptId);
    }
    assert forall w: Window :: s.rejects + multiset{w} != s.rejects by {
      forall w: Window
        ensures s.rejects + multiset{w} != s.rejects
      {
        assert (s.rejects + multiset{w})[w] == s.rejects[w] + 1;
      }
    }
  }

  // The call that posts the task: made by a caller the gate let in.
  predicate Calls(a: Action, task: Dismissal) {
    match task
    case CancelTask(promptId, caller) => a == CancelCall(promptId, caller, true) && caller != 0
    case ResetTask => a.ResetCall? && a.pid != 0 && a.posted
  }

  lemma StepOfDismissals(s: State, a: Action, task: Dismissal)
    requires task in Step(s, a).dismissals
    ensures task in s.dismissals || Calls(a, task)
  {
  }

  lemma {:induction false} EveryDismissalWasCalled(acts: seq<Action>, task: Dismissal) returns (j: nat)
    requires task in Run(acts).dismissals
    ensures j < |acts| && Calls(acts[j], task)
  {
    var n := |acts| - 1;
    StepOfDismissals(Run(acts[..n]), acts[n], task);
    if Calls(acts[n], task) {
      j := n;
    } else {
      j := EveryDismissalWasCalled(acts[..n], task);
    }
  }

  // Running a dismissal queues the reject.
  ghost predicate QueuesReject(s: State, a: Action, w: Window) {
    a.RunDismissal? && a.task in s.dismissals && w in Dismissed(s.registry, a.task)
  }

  lemma StepOfRejects(s: State, a: Action, w: Window)
    requires w in Step(s, a).rejects
    ensures w in s.rejects || QueuesReject(s, a, w)
  {
    match a
    case RunDismissal(task) =>
    case _ => assert Step(s, a).rejects <= s.rejects;
  }

  lemma {:induction false} EveryRejectWasQueued(acts: seq<Action>, w: Window) returns (i: nat)
    requires w in Run(acts).rejects
    ensures i < |acts| && QueuesReject(Run(acts[..i]), acts[i], w)
  {
    var n := |acts| - 1;
    StepOfRejects(Run(acts[..n]), acts[n], w);
    if QueuesReject(Run(acts[..n]), acts[n], w) {
      i := n;
    } else {
      i := EveryRejectWasQueued(acts[..n], w);
      assert acts[..n][..i] == acts[..i];
    }
  }

  // The window stands for a request with this id, made by this caller.
  ghost predicate StandsFor(s: State, w: Window, promptId: string, caller: int) {
    && w in s.dialogs && !s.dialogs[w].deleting
    && s.dialogs[w].request in s.requests
    && s.requests[s.dialogs[w].request].promptId == promptId && s.requests[s.dialogs[w].request].owner == caller
  }

  lemma DismissedStands(s: State, task: Dismissal, w: Window)
    requires Inv(s) && w in Dismissed(s.registry, task)
    ensures match task
            case CancelTask(promptId, caller) => promptId != "" && caller != 0 && StandsFor(s, w, promptId, caller)
            case ResetTask => true
  {
    match task
    case CancelTask(promptId, caller) =>
      var h := PromptRegistry.HandleNamed(s.registry, promptId);
      assert Stands(s, h.value);
    case ResetTask =>
  }

  /** In every run, each reject on its way to a window stems from a Reset by a
      caller the gate let in, or from a Cancel by the very caller, and with the
      very non-empty id, of the request the window then stood for. */
  lemma {:induction false} EveryRejectHasItsCause(acts: seq<Action>, w: Window) returns (j: nat, i: nat)
    requires w in Run(acts).rejects
    ensures j < i < |acts| && acts[i].RunDismissal? && Calls(acts[j], acts[i].task)
    ensures acts[i].task.CancelTask? ==>
              acts[i].task.promptId != ""
              && StandsFor(Run(acts[..i]), w, acts[i].task.promptId, acts[i].task.caller)
  {
    i := EveryRejectWasQueued(acts, w);
    j := EveryDismissalWasCalled(acts[..i], acts[i].task);
    RunInv(acts[..i]);
    DismissedStands(Run(acts[..i]), acts[i].task, w);
  }

  /** A reject that reaches a window already answered changes no answer. */
  lemma {:induction false} LateRejectIsANoOp(acts: seq<Action>, w: Window)
    requires w !in Run(acts).dialogs || Run(acts).dialogs[w].deleting
    ensures var s := Run(acts);
      Step(s, DeliverReject(w)) == s.(rejects := Step(s, DeliverReject(w)).rejects)
  {
    RunInv(acts);
    if w in Run(acts).dialogs {
      assert DialogInv(Run(acts), w);
    }
  }

  lemma RejectAnswersStanding(s: State, h: Handle, r: RequestId)
    requires Inv(s) && StandingFor(s, h, r)
    ensures var t := Step(s, UserReject(s.registry.entries[h].window)); r in t.replies && |t.replies[r]| == 1
  {
    assert Stands(s, h);
  }

  lemma RaiseAnswersOrStands(s: State, r: RequestId)
    requires Inv(s) && r in s.raises
    ensures var t := Raising(s, r); r in t.replies && (|t.replies[r]| == 1 || exists h :: StandingFor(t, h, r))
  {
    RaisingRequests(s, r);
    assert Answerable(s, r);
    assert RequestInv(Raising(s, r), r);
  }

  ghost predicate AnsweredOnce(s: State, r: RequestId) {
    r in s.replies && |s.replies[r]| == 1
  }

  // Some actions, at most `steps` of them, answer r.
  ghost predicate SoonAnswered(s: State, r: RequestId, steps: nat)
    decreases steps
  {
    AnsweredOnce(s, r) || (steps > 0 && exists a :: SoonAnswered(Step(s, a), r, steps - 1))
  }

  lemma StandingIsSoonAnswered(s: State, h: Handle, r: RequestId)
    requires Inv(s) && StandingFor(s, h, r)
    ensures SoonAnswered(s, r, 1)
  {
    var reject := UserReject(s.registry.entries[h].window);
    RejectAnswersStanding(s, h, r);
    assert SoonAnswered(Step(s, reject), r, 0);
  }

  lemma PostedIsSoonAnswered(s: State, r: RequestId)
    requires Inv(s) && r in s.raises
    ensures SoonAnswered(s, r, 2)
  {
    var t := Step(s, RunRaise(r));
    RaiseAnswersOrStands(s, r);
    if !AnsweredOnce(t, r) {
      StepKeepsInv(s, RunRaise(r));
      var h :| StandingFor(t, h, r);
      StandingIsSoonAnswered(t, h, r);
    }
    assert SoonAnswered(t, r, 1);
  }

  /** No request is ever stuck: from every reachable state two more actions at
      most answer it. */
  lemma {:induction false} UnansweredCanBeAnswered(acts: seq<Action>, r: RequestId)
    requires r in Run(acts).replies && Run(acts).replies[r] == []
    ensures SoonAnswered(Run(acts), r, 2)
  {
    RunInv(acts);
    var s := Run(acts);
    assert RequestInv(s, r);
    if r in s.raises {
      PostedIsSoonAnswered(s, r);
    } else {
      var h :| StandingFor(s, h, r);
      StandingIsSoonAnswered(s, h, r);
      var reject :| SoonAnswered(Step(s, reject), r, 0);
      assert SoonAnswered(Step(s, reject), r, 1);
    }
  }

  // ---------------------------------------------------------------------
  // The windows' clocks
  // ---------------------------------------------------------------------

  // A window's clock counts from the moment it was shown: at least the entry
  // budget, at most the longer of the two, and nothing at all without one.
  ghost predicate Timed(c: EntryClock.Clock, request: Request, now: int) {
    && (c.armed <==> request.entryMs > 0)
    && c.altBudget == (if request.offer then request.altMs else 0)
    && (c.expiry.Some? ==> c.armed && c.expiry.value == c.shownAt + c.budget && c.shownAt <= now)
    && (c.armed ==> request.entryMs <= c.budget <= EntryClock.Max(request.entryMs, c.altBudget))
  }

  ghost predicate ClocksInv(s: State) {
    && (forall w :: w in s.dialogs ==>
          s.dialogs[w].request in s.requests && s.dialogs[w].request < s.nextRequest
          && Timed(s.dialogs[w].clock, s.requests[s.dialogs[w].request], s.now))
    && (forall r :: r in s.raises ==> r in s.requests && r < s.nextRequest && s.raises[r] == s.requests[r])
  }

  lemma FinishedKeepsClocks(s: State, w: Window, accepted: bool, entry: string, captured: bool)
    requires ClocksInv(s) && w in s.dialogs
    ensures ClocksInv(Finished(s, w, accepted, entry, captured))
  {
  }

  lemma ArrivingKeepsClocks(s: State, multi: bool, kind: Option<Kind>, options: Lifted, pid: int, posted: bool)
    requires ClocksInv(s)
    ensures ClocksInv(Arriving(s, multi, kind, options, pid, posted))
  {
  }

  lemma RaisingKeepsClocks(s: State, r: RequestId)
    requires ClocksInv(s) && r in s.raises
    ensures ClocksInv(Raising(s, r))
  {
    var request := s.raises[r];
    var clock := EntryClock.Raised(request.entryMs, if request.offer then request.altMs else 0, s.now);
    assert Timed(clock, request, s.now);
  }

  lemma SwitchKeepsClocks(s: State, w: Window)
    requires ClocksInv(s)
    ensures ClocksInv(Step(s, SwitchForm(w)))
  {
    if w in s.dialogs {
      var d := s.dialogs[w];
      assert Timed(EntryClock.Switched(d.clock, s.now), s.requests[d.request], s.now);
    }
  }

  lemma ExpiryKeepsClocks(s: State, w: Window)
    requires ClocksInv(s) && w in s.dialogs
    ensures ClocksInv(Expired(s, w))
  {
    var d := s.dialogs[w];
    assert Timed(EntryClock.Fired(d.clock), s.requests[d.request], s.now);
  }

  lemma StepKeepsClocks(s: State, a: Action)
    requires ClocksInv(s)
    ensures ClocksInv(Step(s, a))
  {
    match a
    case DeliverReject(w) =>
      if w in s.rejects && w in s.dialogs {
        FinishedKeepsClocks(s.(rejects := s.rejects - multiset{w}), w, false, "", false);
      }
    case UserReject(w) =>
      if w in s.dialogs {
        FinishedKeepsClocks(s, w, false, "", false);
      }
    case UserAccept(w, entry, matches, captured) =>
      if w in s.dialogs {
        FinishedKeepsClocks(s, w, true, entry, captured);
      }
    case DeadlineFires(w) =>
      if w in s.dialogs {
        ExpiryKeepsClocks(s, w);
        FinishedKeepsClocks(Expired(s, w), w, false, "", false);
      }
    case Arrive(multi, kind, options, pid, posted) => ArrivingKeepsClocks(s, multi, kind, options, pid, posted);
    case RunRaise(r) =>
      if r in s.raises {
        RaisingKeepsClocks(s, r);
      }
    case SwitchForm(w) => SwitchKeepsClocks(s, w);
    case _ =>
  }

  lemma {:induction false} RunClocks(acts: seq<Action>)
    ensures ClocksInv(Run(acts))
  {
    if acts != [] {
      RunClocks(acts[..|acts| - 1]);
      StepKeepsClocks(Run(acts[..|acts| - 1]), acts[|acts| - 1]);
    }
  }

  /** A window's deadline fires only for a request that set one, and never
      before the request's own budget has passed since the window was shown. */
  lemma {:induction false} NoEarlyTimeout(acts: seq<Action>, w: Window)
    requires Due(Run(acts), w)
    ensures var s := Run(acts);
      s.dialogs[w].request in s.requests
      && s.requests[s.dialogs[w].request].entryMs > 0
      && s.dialogs[w].clock.shownAt + s.requests[s.dialogs[w].request].entryMs <= s.now
  {
    RunClocks(acts);
  }

  // ---------------------------------------------------------------------
  // What each event does, said of its outcome
  // ---------------------------------------------------------------------

  /** A caller the gate refuses is told so and nothing is posted for it; nor is
      anything for a kind the method does not serve, or without a GUI thread,
      which is an Error. Every other request is posted with what it asked for,
      unanswered, and the switch is offered on a CAN request that names the MRZ. */
  lemma {:induction false} ArrivalIsRefusedOrPosted(acts: seq<Action>, multi: bool, kind: Option<Kind>,
                                                    options: Lifted, pid: int, posted: bool)
    ensures
      var s := Run(acts);
      var t := Step(s, Arrive(multi, kind, options, pid, posted));
      var r := s.nextRequest;
      && r !in s.replies && r in t.replies
      && (pid == 0 ==> t.replies[r] == [Reply(Unauthorized, None)] && t.raises == s.raises)
      && (pid != 0 && (kind == None || (multi <==> kind != Some(ChangePin)) || !posted) ==>
            t.replies[r] == [Reply(Error, None)] && t.raises == s.raises)
      && (pid != 0 && kind.Some? && (multi <==> kind == Some(ChangePin)) && posted ==>
            && t.replies[r] == []
            && t.raises == s.raises[r := Request(kind.value, options.promptId, pid, options.entryMs, options.altMs,
                                                 kind == Some(Can) && options.altMrz)])
  {
    RunInv(acts);
  }

  // The name is free: it is empty, or no window on screen has it.
  ghost predicate NameIsFree(s: State, promptId: string) {
    promptId == "" || forall h: Handle | h in s.registry.entries :: s.registry.entries[h].promptId != promptId
  }

  /** Raising puts a window of the kind asked for on screen, its clock running
      for the entry budget if there is one; only a request whose name another
      window has is answered with Error instead. */
  lemma {:induction false} RaisingShowsOrRefuses(acts: seq<Action>, r: RequestId)
    requires r in Run(acts).raises
    ensures
      var s := Run(acts);
      var t := Step(s, RunRaise(r));
      var request := s.raises[r];
      && r in t.replies
      && (NameIsFree(s, request.promptId) ==>
            && t.replies[r] == [] && StandingFor(t, s.registry.next, r)
            && var d := t.dialogs[t.registry.entries[s.registry.next].window];
               d.kind == request.kind && d.offer == request.offer && !d.expired && !d.deleting
               && d.clock.expiry == if request.entryMs > 0 then Some(s.now + request.entryMs) else None)
      && (!NameIsFree(s, request.promptId) ==>
            t.replies[r] == [Reply(Error, None)] && t.registry == s.registry && t.dialogs == s.dialogs)
  {
    RunInv(acts);
    var s := Run(acts);
    assert Answerable(s, r) && s.nextWindow >= 1;
    PromptRegistry.RegistersUnlessTaken(
      s.registry, PromptRegistry.Entry(s.nextWindow, s.raises[r].owner, s.raises[r].promptId));
  }

  // The request a window on screen was raised for.
  ghost function RequestOf(s: State, h: Handle): RequestId
    requires h in s.registry.entries && s.registry.entries[h].window in s.dialogs
  {
    s.dialogs[s.registry.entries[h].window].request
  }

  lemma {:induction false} RegisteredStands(acts: seq<Action>, h: Handle)
    requires h in Run(acts).registry.entries
    ensures var s := Run(acts); var w := s.registry.entries[h].window;
      && w in s.dialogs && s.dialogs[w].handle == h && !s.dialogs[w].expired && !s.dialogs[w].deleting
      && s.dialogs[w].request in s.replies && s.replies[s.dialogs[w].request] == []
      && s.dialogs[w].request in s.requests && Follows(s.dialogs[w], s.requests[s.dialogs[w].request])
      && s.dialogs[w].request < s.nextRequest
  {
    RunInv(acts);
    var s := Run(acts);
    assert Stands(s, h);
    assert DialogInv(s, s.registry.entries[h].window);
  }

  /** What the holder accepts is what is answered: in every run, an accept on a
      window on screen gives its request exactly one reply. It carries the entry
      and the form it was typed into - the MRZ word for an offered switch that
      was taken - or is an Error when the entry could not be captured. A new PIN
      that does not match its confirmation is not accepted, and nothing moves. */
  lemma {:induction false} AcceptAnswersTheEntry(acts: seq<Action>, h: Handle, entry: string, matches: bool,
                                                 captured: bool)
    requires h in Run(acts).registry.entries && Run(acts).registry.entries[h].window in Run(acts).dialogs
    ensures
      var s := Run(acts);
      var w := s.registry.entries[h].window;
      var d := s.dialogs[w];
      var t := Step(s, UserAccept(w, entry, matches, captured));
      if d.kind == ChangePin && !matches then t == s
      else
        && d.request in t.replies && h !in t.registry.entries
        && t.replies[d.request] ==
           [if !captured then Reply(Error, None)
            else if d.offer && d.kind == Mrz then Reply(OkMrz, Some(Secret(Mrz, entry)))
            else Reply(Ok, Some(Secret(d.kind, entry)))]
  {
    RegisteredStands(acts, h);
  }

  /** A window the holder closes, or a queued reject reaches, answers Cancelled. */
  lemma {:induction false} RejectAnswersCancelled(acts: seq<Action>, h: Handle)
    requires h in Run(acts).registry.entries && Run(acts).registry.entries[h].window in Run(acts).dialogs
    ensures
      var s := Run(acts);
      var w := s.registry.entries[h].window;
      var r := s.dialogs[w].request;
      var t := Step(s, UserReject(w));
      r in t.replies && t.replies[r] == [Reply(Cancelled, None)] && h !in t.registry.entries
    ensures
      var s := Run(acts);
      var w := s.registry.entries[h].window;
      var r := s.dialogs[w].request;
      var t := Step(s, DeliverReject(w));
      w in s.rejects ==>
        r in t.replies && t.replies[r] == [Reply(Cancelled, None)] && h !in t.registry.entries
  {
    RegisteredStands(acts, h);
  }

  /** A switch that was offered swaps the CAN form and the MRZ form, and one that
      was not changes nothing. */
  lemma {:induction false} SwitchSwapsTheForms(acts: seq<Action>, w: Window)
    requires w in Run(acts).dialogs
    ensures
      var s := Run(acts);
      var d := s.dialogs[w];
      var t := Step(s, SwitchForm(w));
      && w in t.dialogs && t.replies == s.replies && t.registry == s.registry
      && (!d.offer ==> t == s)
      && (d.offer ==> (d.kind == Can && t.dialogs[w].kind == Mrz) || (d.kind == Mrz && t.dialogs[w].kind == Can))
      && t.dialogs[w].request == d.request && t.dialogs[w].offer == d.offer
  {
    RunInv(acts);
    assert DialogInv(Run(acts), w);
  }

  /** A Cancel or a Reset of a caller the gate lets in is posted as it was called,
      and of any other caller it is not. */
  lemma DismissalsArePosted(acts: seq<Action>, promptId: string, pid: int, posted: bool)
    ensures
      var s := Run(acts);
      && Step(s, CancelCall(promptId, pid, posted)) ==
         s.(dismissals := s.dismissals + if pid != 0 && posted then multiset{CancelTask(promptId, pid)} else multiset{})
      && Step(s, ResetCall(pid, posted)) ==
         s.(dismissals := s.dismissals + if pid != 0 && posted then multiset{ResetTask} else multiset{})
  {
    assert Run(acts).dismissals + multiset{} == Run(acts).dismissals;
  }

  /** Running a Reset queues one reject for each window on screen and for no
      other, and changes nothing else. */
  lemma {:induction false} ResetRejectsEveryWindow(acts: seq<Action>, w: Window)
    requires ResetTask in Run(acts).dismissals
    ensures
      var s := Run(acts);
      var t := Step(s, RunDismissal(ResetTask));
      && t == s.(dismissals := t.dismissals, rejects := t.rejects)
      && t.rejects[w] == s.rejects[w] +
           if exists h: Handle :: h in s.registry.entries && s.registry.entries[h].window == w then 1 else 0
  {
    var s := Run(acts);
    var windows := set h | h in s.registry.entries :: s.registry.entries[h].window;
    assert w in windows <==> exists h: Handle :: h in s.registry.entries && s.registry.entries[h].window == w;
  }
}
