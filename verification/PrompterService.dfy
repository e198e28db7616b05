/**
 The service's GUI-thread methods over the registry it really keeps. Each one
 refines the matching step of the lifecycle.
 */
module PrompterService {
  import opened Wrappers
  import opened PromptWire
  import PromptLifecycle
  import PromptRegistry
  import EntryClock

  type State = PromptLifecycle.State
  type Window = PromptLifecycle.Window
  type RequestId = PromptLifecycle.RequestId

  class Service {
    const registry: PromptRegistry.Registry
    var raises: map<RequestId, PromptLifecycle.Request>
    var dismissals: multiset<PromptLifecycle.Dismissal>
    var rejects: multiset<Window>
    var dialogs: map<Window, PromptLifecycle.Dialog>
    var requests: map<RequestId, PromptLifecycle.Request>
    var replies: map<RequestId, seq<Reply>>
    var nextRequest: RequestId
    var nextWindow: Window
    var now: int

    ghost predicate Valid()
      reads this, registry
    {
      registry.Valid()
    }

    ghost function Abs(): State
      requires Valid()
      reads this, registry
    {
      PromptLifecycle.State(raises, dismissals, rejects, registry.Abs(), dialogs, requests, replies,
                            nextRequest, nextWindow, now)
    }

    constructor ()
      ensures Valid() && fresh(registry) && Abs() == PromptLifecycle.Init
    {
      registry := new PromptRegistry.Registry();
      raises, dismissals, rejects := map[], multiset{}, multiset{};
      dialogs, requests, replies := map[], map[], map[];
      nextRequest, nextWindow, now := 0, 1, 0;
    }

    method Answer(r: RequestId, reply: Reply)
      requires Valid()
      modifies this
      ensures Valid() && Abs() == PromptLifecycle.Answered(old(Abs()), r, reply)
      ensures replies == old(replies)[r := old(RepliesTo(r)) + [reply]]
    {
      var sent := if r in replies then replies[r] else [];
      replies := replies[r := sent + [reply]];
    }

    // The posted functor of RequestSecret and RequestSecrets.
    method RaiseWindow(r: RequestId)
      requires Valid() && r in raises
      modifies this, registry
      ensures Valid() && Abs() == PromptLifecycle.Raising(old(Abs()), r)
    {
      var request := raises[r];
      var w := nextWindow;
      raises := raises - {r};
      nextWindow := w + 1;
      var handle := registry.Add(w, request.owner, request.promptId);
      if handle.None? {
        Answer(r, Reply(Error, None));
        return;
      }
      var clock := ArmedAndShown(request);
      dialogs := dialogs[w := PromptLifecycle.Dialog(r, handle.value, request.kind, request.offer, clock, false,
              false)];
    }

    // The budgets are armed before show() starts the clock.
    method ArmedAndShown(request: PromptLifecycle.Request) returns (clock: EntryClock.Clock)
      ensures clock == EntryClock.Raised(request.entryMs, if request.offer then request.altMs else 0, now)
    {
      clock := EntryClock.WithEntryDeadline(EntryClock.Unset, request.entryMs);
      if request.offer {
        clock := EntryClock.WithAlternative(clock, request.altMs);
      }
      clock := EntryClock.Shown(clock, now);
    }

    function RepliesTo(r: RequestId): seq<Reply>
      reads this
    {
      if r in replies then replies[r] else []
    }

    // The completion connected to QDialog::finished: whoever takes the entry
    // answers, with what was typed or with why there is nothing.
    method OnFinished(w: Window, accepted: bool, entry: string, captured: bool)
      requires Valid() && w in dialogs
      modifies this, registry
      ensures Valid() && Abs() == PromptLifecycle.Finished(old(Abs()), w, accepted, entry, captured)
      ensures dialogs.Keys == old(dialogs.Keys)
      ensures var d := old(dialogs)[w];
        if d.handle !in old(registry.Abs()).entries then replies == old(replies)
        else
          && d.handle !in registry.Abs().entries && dialogs[w].deleting
          && replies == old(replies)[d.request := old(RepliesTo(d.request)) + [
               if !accepted then Reply(if d.expired then Timeout else Cancelled, None)
               else if !captured then Reply(Error, None)
               else Reply(if d.offer && d.kind == Mrz then OkMrz else Ok, Some(Secret(d.kind, entry)))]]
    {
      var d := dialogs[w];
      var taken := registry.Take(d.handle);
      if taken.None? {
        assert registry.Abs() == old(registry.Abs());
        return;
      }
      var reply;
      if !accepted {
        reply := Reply(if d.expired then Timeout else Cancelled, None);
      } else if !captured {
        reply := Reply(Error, None);
      } else {
        var switched := d.offer && d.kind == Mrz;
        reply := Reply(if switched then OkMrz else Ok, Some(Secret(d.kind, entry)));
      }
      Answer(d.request, reply);
      dialogs := dialogs[w := d.(deleting := true)];
    }

    // The lookup of a dismissal by name: the one window it may close.
    method WindowNamed(promptId: string, caller: int) returns (found: multiset<Window>)
      requires Valid()
      ensures found == PromptLifecycle.Dismissed(registry.Abs(), PromptLifecycle.CancelTask(promptId, caller))
    {
      found := multiset{};
      var handle := registry.FindByPromptId(promptId);
      if handle.Some? {
        var entry := registry.Find(handle.value);
        if entry.Some? && PromptLifecycle.OwnsPrompt(entry.value.ownerPid, caller) {
          found := multiset{entry.value.window};
        }
      }
    }

    method DismissOnGuiThread(promptId: string, caller: int)
      requires Valid() && PromptLifecycle.CancelTask(promptId, caller) in dismissals
      modifies `dismissals, `rejects
      ensures Valid()
      ensures Abs() == PromptLifecycle.Dismissing(old(Abs()), PromptLifecycle.CancelTask(promptId, caller))
    {
      dismissals := dismissals - multiset{PromptLifecycle.CancelTask(promptId, caller)};
      var found := WindowNamed(promptId, caller);
      rejects := rejects + found;
    }

    // The windows on screen, in the order they were raised.
    method EveryWindow() returns (windows: multiset<Window>)
      requires Valid() && PromptLifecycle.RegistryInv(Abs())
      ensures windows == PromptLifecycle.Dismissed(registry.Abs(), PromptLifecycle.ResetTask)
    {
      windows := multiset{};
      ghost var live := registry.Abs().entries;
      PromptRegistry.PairsHolds(registry.handles, registry.entries);
      var handles := registry.handles;
      ghost var swept: set<Window> := {};
      for i := 0 to |handles|
        invariant swept == set k | 0 <= k < i :: live[handles[k]].window
        invariant windows == multiset(swept)
      {
        var entry := registry.Find(handles[i]);
        DistinctWindows(Abs(), handles, i);
        Swept(swept, entry.value.window);
        windows := windows + multiset{entry.value.window};
        swept := swept + {entry.value.window};
      }
      assert swept == set h | h in live :: live[h].window;
    }

    method DismissEveryWindowOnGuiThread()
      requires PromptLifecycle.ResetTask in dismissals
      requires Valid() && PromptLifecycle.RegistryInv(Abs())
      modifies `dismissals, `rejects
      ensures Valid()
      ensures Abs() == PromptLifecycle.Dismissing(old(Abs()), PromptLifecycle.ResetTask)
    {
      var windows := EveryWindow();
      dismissals := dismissals - multiset{PromptLifecycle.ResetTask};
      rejects := rejects + windows;
    }

    lemma Swept(swept: set<Window>, w: Window)
      requires w !in swept
      ensures multiset(swept + {w}) == multiset(swept) + multiset{w}
    {
    }

    // Two live entries never share a window, so no window is swept twice.
    lemma DistinctWindows(s: State, handles: seq<PromptRegistry.Handle>, i: nat)
      requires PromptLifecycle.RegistryInv(s) && PromptRegistry.Increasing(handles) && i < |handles|
      requires forall k :: 0 <= k < |handles| ==> handles[k] in s.registry.entries
      ensures s.registry.entries[handles[i]].window
         !in set k | 0 <= k < i :: s.registry.entries[handles[k]].window
    {
      forall k | 0 <= k < i
        ensures s.registry.entries[handles[k]].window != s.registry.entries[handles[i]].window
      {
        assert PromptLifecycle.Stands(s, handles[k]) && PromptLifecycle.Stands(s, handles[i]);
      }
    }
  }
}
