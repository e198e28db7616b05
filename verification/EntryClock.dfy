/**
 The entry clock of one credential window, in whole milliseconds: a budget that
 starts when the window is shown and is re-based, never extended, when the
 holder switches to the alternative form.
 */
module EntryClock {
  import opened Wrappers

  type Millis = int

  // `armed` says that the deadline timer exists; `expiry` is the absolute time
  // it fires at while it is active.
  datatype Clock = Clock(budget: Millis, altBudget: Millis, armed: bool, shownAt: Millis, expiry: Option<Millis>)

  const Unset := Clock(0, 0, false, 0, None)

  function Max(a: int, b: int): (m: int)
    ensures m >= a && m >= b && (m == a || m == b)
  {
    if a < b then b else a
  }

  function WithEntryDeadline(c: Clock, budget: Millis): Clock {
    c.(budget := budget, armed := c.armed || budget > 0)
  }

  function WithAlternative(c: Clock, budget: Millis): Clock {
    c.(altBudget := budget)
  }

  function Shown(c: Clock, now: Millis): Clock {
    if !c.armed || c.expiry.Some? then c
    else c.(shownAt := now, expiry := Some(now + c.budget))
  }

  /** What a switch leaves on the clock, or zero to leave the clock alone. */
  function RebasedRemaining(current: Millis, alternative: Millis, elapsed: Millis): (remaining: Millis)
    ensures remaining > 0 ==> elapsed + remaining > current
    ensures remaining == 0 <==> alternative <= current || alternative <= elapsed
    ensures remaining >= 0
  {
    if alternative <= current then 0
    else if alternative - elapsed > 0 then alternative - elapsed else 0
  }

  function Switched(c: Clock, now: Millis): Clock {
    if !c.armed || c.expiry.None? then c
    else
      var remaining := RebasedRemaining(c.budget, c.altBudget, now - c.shownAt);
      if remaining <= 0 then c
      else c.(budget := c.altBudget, expiry := Some(now + remaining))
  }

  function Fired(c: Clock): Clock {
    c.(expiry := None)
  }

  function SwitchedAll(c: Clock, times: seq<Millis>): Clock {
    if times == [] then c
    else Switched(SwitchedAll(c, times[..|times| - 1]), times[|times| - 1])
  }

  // A window whose deadline was armed with `entry` and `alternative` and that
  // came on screen at `shown`.
  function Raised(entry: Millis, alternative: Millis, shown: Millis): Clock {
    Shown(WithAlternative(WithEntryDeadline(Unset, entry), alternative), shown)
  }

  // Each switch of `times` happened while the clock had not run out.
  predicate BeforeExpiry(c: Clock, times: seq<Millis>) {
    forall i :: 0 <= i < |times| ==>
      var at := SwitchedAll(c, times[..i]);
      at.expiry.Some? ==> times[i] < at.expiry.value
  }

  predicate SomeSwitchWithin(times: seq<Millis>, limit: Millis) {
    exists i :: 0 <= i < |times| && times[i] < limit
  }

  /** The expiry after any switches at any times, late ones included: the
      alternative counts from the moment the window was shown, and is granted
      by a switch that comes before it would itself have run out. */
  lemma {:induction false} ExpiryExactly(entry: Millis, alternative: Millis, shown: Millis, times: seq<Millis>)
    requires entry > 0
    ensures
      var c := SwitchedAll(Raised(entry, alternative, shown), times);
      && c.armed && c.shownAt == shown && c.altBudget == alternative
      && c.expiry == Some(shown + c.budget)
      && c.budget == if SomeSwitchWithin(times, shown + alternative) then Max(entry, alternative) else entry
  {
    if times != [] {
      var n := |times| - 1;
      ExpiryExactly(entry, alternative, shown, times[..n]);
      if i :| 0 <= i < n && times[i] < shown + alternative {
        assert times[..n][i] < shown + alternative;
        assert SomeSwitchWithin(times[..n], shown + alternative);
      } else {
        assert !SomeSwitchWithin(times[..n], shown + alternative);
      }
    }
  }

  /** With every switch before expiry: the entry budget without a switch, the
      longer of the two budgets after one or more. */
  lemma ExpiryIsTheLongerBudget(entry: Millis, alternative: Millis, shown: Millis, times: seq<Millis>)
    requires entry > 0 && BeforeExpiry(Raised(entry, alternative, shown), times)
    ensures SwitchedAll(Raised(entry, alternative, shown), times).expiry
         == Some(shown + if times == [] then entry else Max(entry, alternative))
  {
    ExpiryExactly(entry, alternative, shown, times);
    if times != [] {
      assert times[..0] == [];
      assert times[0] < shown + entry;
      if alternative > entry {
        assert SomeSwitchWithin(times, shown + alternative);
      }
    }
  }

  /** No switch ever brings the expiry forward, and none takes the clock away. */
  lemma ExpiryNeverDecreases(entry: Millis, alternative: Millis, shown: Millis, times: seq<Millis>, now: Millis)
    requires entry > 0
    ensures
      var before := SwitchedAll(Raised(entry, alternative, shown), times);
      var after := SwitchedAll(Raised(entry, alternative, shown), times + [now]);
      before.expiry.Some? && after.expiry.Some? && before.expiry.value <= after.expiry.value
  {
    assert (times + [now])[..|times|] == times;
    ExpiryExactly(entry, alternative, shown, times);
  }

  /** A switched window stays short of the two budgets together exactly when
      the alternative was given a budget at all. */
  lemma ShortOfTheSum(entry: Millis, alternative: Millis, shown: Millis, times: seq<Millis>)
    requires entry > 0 && alternative >= 0
    ensures SwitchedAll(Raised(entry, alternative, shown), times).expiry.Some?
    ensures SwitchedAll(Raised(entry, alternative, shown), times).expiry.value < shown + entry + alternative
       <==> alternative > 0
  {
    ExpiryExactly(entry, alternative, shown, times);
  }

  /** A window given no deadline is never given one by showing or switching. */
  lemma {:induction false} ZeroNeverExpires(entry: Millis, alternative: Millis, shown: Millis, times: seq<Millis>)
    requires entry <= 0
    ensures var c := SwitchedAll(Raised(entry, alternative, shown), times); !c.armed && c.expiry.None?
  {
    if times != [] {
      ZeroNeverExpires(entry, alternative, shown, times[..|times| - 1]);
    }
  }

  /** What the countdown label is computed from is what the timer has left. */
  lemma CountdownIsTheTimer(entry: Millis, alternative: Millis, shown: Millis, times: seq<Millis>, now: Millis)
    requires entry > 0
    ensures
      var c := SwitchedAll(Raised(entry, alternative, shown), times);
      c.expiry.Some? && c.budget - (now - c.shownAt) == c.expiry.value - now
  {
    ExpiryExactly(entry, alternative, shown, times);
  }

  /** A one-shot timer: what it was started with, and when. */
  class Timer {
    var active: bool
    var startedAt: Millis
    var interval: Millis

    constructor ()
      ensures !active
    {
      active, startedAt, interval := false, 0, 0;
    }

    method Start(interval: Millis, now: Millis)
      modifies this
      ensures active && startedAt == now && this.interval == interval
    {
      active, startedAt, this.interval := true, now, interval;
    }
  }

  // The budget the switches so far have earned the holder.
  function Granted(entry: Millis, alternative: Millis, shown: Millis, times: seq<Millis>): Millis {
    if SomeSwitchWithin(times, shown + alternative) then Max(entry, alternative) else entry
  }

  /** The clock of a dialog: its fields, its timer, and the handlers that change
      them. Whatever was called, the timer fires at the moment the switches so
      far have earned, counted from the moment the window was shown. */
  class DialogClock {
    var entryBudget: Millis
    var altEntryBudget: Millis
    var deadlineTimer: Timer?
    var shownAt: Millis
    var expired: bool

    ghost var entry: Millis          // the budget the deadline was set with
    ghost var switches: seq<Millis>  // when the form was switched, since it was shown

    ghost predicate Running()
      reads this, deadlineTimer
    {
      deadlineTimer != null && deadlineTimer.active
    }

    // When the timer fires.
    ghost function Deadline(): Option<Millis>
      reads this, deadlineTimer
    {
      if Running() then Some(deadlineTimer.startedAt + deadlineTimer.interval) else None
    }

    ghost predicate Valid()
      reads this, deadlineTimer
    {
      && (deadlineTimer != null <==> entry > 0)
      && (Running() ==>
            Clock(entryBudget, altEntryBudget, true, shownAt, Deadline())
            == SwitchedAll(Raised(entry, altEntryBudget, shownAt), switches))
      && (!Running() && !expired ==> entryBudget == entry && switches == [])
    }

    constructor ()
      ensures Valid() && entry == 0 && Deadline() == None && !expired
    {
      entryBudget, altEntryBudget, deadlineTimer, shownAt, expired := 0, 0, null, 0, false;
      entry, switches := 0, [];
    }

    // Before the window is shown; without a budget there is never a timer.
    method SetEntryDeadline(budget: Millis)
      requires Valid() && deadlineTimer == null && !expired
      modifies this
      ensures Valid() && entry == budget && Deadline() == None && !expired
      ensures fresh(deadlineTimer) || deadlineTimer == null
    {
      entryBudget, entry := budget, budget;
      if budget <= 0 {
        return;
      }
      deadlineTimer := new Timer();
    }

    method SetAlternateEntryDeadline(budget: Millis)
      requires Valid() && Deadline() == None && !expired
      modifies `altEntryBudget
      ensures Valid() && altEntryBudget == budget && Deadline() == None
    {
      altEntryBudget := budget;
    }

    // The first show starts the holder's time and no later one restarts it.
    method ShowEvent(now: Millis)
      requires Valid() && !expired
      modifies this, deadlineTimer
      ensures Valid() && !expired && entry == old(entry)
      ensures old(Deadline()) == None && entry > 0 ==> Deadline() == Some(now + entry) && shownAt == now
      ensures old(Deadline()).Some? || entry <= 0 ==> Deadline() == old(Deadline()) && shownAt == old(shownAt)
    {
      if deadlineTimer == null || deadlineTimer.active {
        return;
      }
      shownAt := now;
      deadlineTimer.Start(entryBudget, now);
      assert SwitchedAll(Raised(entry, altEntryBudget, shownAt), []) == Raised(entry, altEntryBudget, shownAt);
    }

    // A switch leaves the timer at what all switches so far have earned: never
    // earlier than before it, and never without a timer if there was one.
    method RebaseOnAlternative(now: Millis)
      requires Valid() && !expired
      modifies this, deadlineTimer
      ensures Valid() && !expired && entry == old(entry) && shownAt == old(shownAt)
      ensures old(Deadline()) == None ==> Deadline() == None
      ensures old(Deadline()).Some? ==>
                && switches == old(switches) + [now]
                && Deadline() == Some(shownAt + Granted(entry, altEntryBudget, shownAt, switches))
                && old(Deadline()).value <= Deadline().value
    {
      if deadlineTimer == null || !deadlineTimer.active {
        return;
      }
      ghost var before := switches;
      switches := switches + [now];
      assert switches[..|before|] == before;
      var elapsed := now - shownAt;
      var remaining := RebasedRemaining(entryBudget, altEntryBudget, elapsed);
      if remaining > 0 {
        entryBudget := altEntryBudget;
        deadlineTimer.Start(remaining, now);
      }
      ExpiryExactly(entry, altEntryBudget, shownAt, switches);
      ExpiryNeverDecreases(entry, altEntryBudget, shownAt, before, now);
    }

    // The deadline timer's timeout, up to the reject() it ends in: never before
    // the holder has had the entry budget.
    method OnTimeout(now: Millis)
      requires Valid() && Running() && Deadline().value <= now
      modifies this, deadlineTimer
      ensures Valid() && expired && Deadline() == None && shownAt + entry <= now
    {
      ExpiryExactly(entry, altEntryBudget, shownAt, switches);
      deadlineTimer.active := false;
      expired := true;
    }

    // What the countdown label shows is what the timer has left.
    method Countdown(now: Millis) returns (remaining: Millis)
      requires Valid() && Running()
      ensures remaining == Deadline().value - now
    {
      ExpiryExactly(entry, altEntryBudget, shownAt, switches);
      remaining := entryBudget - (now - shownAt);
    }
  }
}
