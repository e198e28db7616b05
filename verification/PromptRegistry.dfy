/**
 The prompter's registry of windows on screen: two parallel vectors and a
 counter, proved to represent one handle-to-entry map whose handles are never
 used twice and whose non-empty prompt ids are unique.
 */
module PromptRegistry {
  import opened Wrappers

  type Handle = nat

  // A window pointer; 0 is the null pointer.
  type Window = nat

  datatype Entry = Entry(window: Window, ownerPid: int, promptId: string)

  // What the registry means: the live windows by handle, and the handle the
  // next window gets.
  datatype LiveWindows = LiveWindows(entries: map<Handle, Entry>, next: Handle)

  const Empty := LiveWindows(map[], 1)

  ghost predicate Names(r: LiveWindows, h: Handle, promptId: string) {
    promptId != "" && h in r.entries && r.entries[h].promptId == promptId
  }

  ghost predicate WellFormed(r: LiveWindows) {
    && 1 <= r.next
    && (forall h :: h in r.entries ==> 1 <= h < r.next && r.entries[h].window != 0)
    && (forall h, k, id :: Names(r, h, id) && Names(r, k, id) ==> h == k)
  }

  ghost predicate IdTaken(r: LiveWindows, promptId: string) {
    exists h :: Names(r, h, promptId)
  }

  ghost function Registering(r: LiveWindows, e: Entry): (LiveWindows, Option<Handle>) {
    if e.window == 0 || IdTaken(r, e.promptId) then (r, None)
    else (LiveWindows(r.entries[r.next := e], r.next + 1), Some(r.next))
  }

  ghost function EntryOf(r: LiveWindows, h: Handle): Option<Entry> {
    if h in r.entries then Some(r.entries[h]) else None
  }

  ghost function Taking(r: LiveWindows, h: Handle): LiveWindows {
    r.(entries := r.entries - {h})
  }

  ghost function HandleNamed(r: LiveWindows, promptId: string): (found: Option<Handle>)
    ensures found.None? <==> !IdTaken(r, promptId)
    ensures found.Some? ==> Names(r, found.value, promptId)
  {
    if h :| Names(r, h, promptId) then Some(h) else None
  }

  // ---------------------------------------------------------------------
  // Every sequence of operations
  // ---------------------------------------------------------------------

  datatype Op = AddOp(entry: Entry) | TakeOp(handle: Handle) | TakeAllOp

  ghost function Apply(r: LiveWindows, op: Op): LiveWindows {
    match op
    case AddOp(e) => Registering(r, e).0
    case TakeOp(h) => Taking(r, h)
    case TakeAllOp => r.(entries := map[])
  }

  ghost function Run(ops: seq<Op>): LiveWindows {
    if ops == [] then Empty else Apply(Run(ops[..|ops| - 1]), ops[|ops| - 1])
  }

  // The handle the i-th operation hands out, if it is an accepted add.
  ghost function Issued(ops: seq<Op>, i: nat): Option<Handle>
    requires i < |ops|
  {
    if ops[i].AddOp? then Registering(Run(ops[..i]), ops[i].entry).1 else None
  }

  /** A window is registered, under the next handle, unless there is none or
      another has its non-empty id; then nothing changes. */
  lemma RegistersUnlessTaken(r: LiveWindows, e: Entry)
    ensures
      var (t, h) := Registering(r, e);
      if e.window != 0 && (e.promptId == "" || forall k: Handle | k in r.entries :: r.entries[k].promptId != e.promptId)
      then t == LiveWindows(r.entries[r.next := e], r.next + 1) && h == Some(r.next)
      else t == r && h == None
  {
    if e.promptId != "" {
      if k: Handle :| k in r.entries && r.entries[k].promptId == e.promptId {
        assert Names(r, k, e.promptId);
      }
    }
  }

  lemma ApplyKeepsWellFormed(r: LiveWindows, op: Op)
    requires WellFormed(r)
    ensures WellFormed(Apply(r, op)) && r.next <= Apply(r, op).next
  {
    var t := Apply(r, op);
    forall h, k, id | Names(t, h, id) && Names(t, k, id)
      ensures h == k
    {
      assert h in r.entries ==> Names(r, h, id);
      assert k in r.entries ==> Names(r, k, id);
    }
  }

  lemma {:induction false} RunIsWellFormed(ops: seq<Op>)
    ensures WellFormed(Run(ops))
  {
    if ops != [] {
      RunIsWellFormed(ops[..|ops| - 1]);
      ApplyKeepsWellFormed(Run(ops[..|ops| - 1]), ops[|ops| - 1]);
    }
  }

  lemma {:induction false} NextNeverFalls(ops: seq<Op>, i: nat)
    requires i <= |ops|
    ensures Run(ops[..i]).next <= Run(ops).next
    decreases |ops| - i
  {
    if i < |ops| {
      var more := ops[..i + 1];
      assert more[..|more| - 1] == ops[..i];
      RunIsWellFormed(ops[..i]);
      ApplyKeepsWellFormed(Run(ops[..i]), ops[i]);
      NextNeverFalls(ops, i + 1);
    } else {
      assert ops[..i] == ops;
    }
  }

  /** Handles are handed out in strictly increasing order, whatever is taken
      in between: none is ever used for a second window. */
  lemma HandlesAreNeverReused(ops: seq<Op>, i: nat, j: nat)
    requires i < j < |ops| && Issued(ops, i).Some? && Issued(ops, j).Some?
    ensures Issued(ops, i).value < Issued(ops, j).value
  {
    assert ops[..j][..i + 1] == ops[..i + 1];
    assert ops[..i + 1][..i] == ops[..i];
    NextNeverFalls(ops[..j], i + 1);
  }

  // ---------------------------------------------------------------------
  // The registry as it is kept
  // ---------------------------------------------------------------------

  predicate Increasing(hs: seq<Handle>) {
    forall i, j :: 0 <= i < j < |hs| ==> hs[i] < hs[j]
  }

  // The map two parallel vectors stand for.
  ghost function Pairs(hs: seq<Handle>, es: seq<Entry>): map<Handle, Entry>
    requires |hs| == |es|
  {
    if hs == [] then map[] else
    var n := |hs| - 1;
    Pairs(hs[..n], es[..n])[hs[n] := es[n]]
  }

  lemma {:induction false} PairsHolds(hs: seq<Handle>, es: seq<Entry>)
    requires |hs| == |es| && Increasing(hs)
    ensures forall h :: h in Pairs(hs, es) <==> h in hs
    ensures forall i :: 0 <= i < |hs| ==> Pairs(hs, es)[hs[i]] == es[i]
  {
    if hs != [] {
      var n := |hs| - 1;
      PairsHolds(hs[..n], es[..n]);
      assert hs == hs[..n] + [hs[n]];
      forall i | 0 <= i < |hs|
        ensures Pairs(hs, es)[hs[i]] == es[i]
      {
        if i < n {
          assert hs[..n][i] == hs[i] && es[..n][i] == es[i];
        }
      }
    }
  }

  lemma PairsSnoc(hs: seq<Handle>, h: Handle, es: seq<Entry>, e: Entry)
    requires |hs| == |es|
    ensures Pairs(hs + [h], es + [e]) == Pairs(hs, es)[h := e]
  {
    assert (hs + [h])[..|hs|] == hs && (es + [e])[..|es|] == es;
  }

  function Erase<T>(s: seq<T>, i: nat): seq<T>
    requires i < |s|
  {
    s[..i] + s[i + 1..]
  }

  lemma EraseKeepsLast<T>(s: seq<T>, i: nat)
    requires i < |s| - 1
    ensures Erase(s, i) == Erase(s[..|s| - 1], i) + [s[|s| - 1]]
  {
  }

  lemma RemovalCommutes(m: map<Handle, Entry>, h: Handle, k: Handle, e: Entry)
    requires h != k
    ensures (m - {h})[k := e] == m[k := e] - {h}
  {
  }

  lemma EraseLastIsRemoval(hs: seq<Handle>, es: seq<Entry>)
    requires |hs| == |es| > 0 && Increasing(hs)
    ensures Pairs(Erase(hs, |hs| - 1), Erase(es, |es| - 1)) == Pairs(hs, es) - {hs[|hs| - 1]}
  {
    var n := |hs| - 1;
    assert Erase(hs, n) == hs[..n] && Erase(es, n) == es[..n];
    PairsHolds(hs[..n], es[..n]);
    var rest := Pairs(hs[..n], es[..n]);
    assert hs[n] !in rest;
    assert rest[hs[n] := es[n]] - {hs[n]} == rest;
  }

  // Erasing one index of both vectors removes exactly that handle.
  lemma {:induction false} EraseIsRemoval(hs: seq<Handle>, es: seq<Entry>, i: nat)
    requires |hs| == |es| && i < |hs| && Increasing(hs)
    ensures Pairs(Erase(hs, i), Erase(es, i)) == Pairs(hs, es) - {hs[i]}
  {
    var n := |hs| - 1;
    if i == n {
      EraseLastIsRemoval(hs, es);
    } else {
      var front, frontEs := hs[..n], es[..n];
      EraseIsRemoval(front, frontEs, i);
      EraseKeepsLast(hs, i);
      EraseKeepsLast(es, i);
      PairsSnoc(Erase(front, i), hs[n], Erase(frontEs, i), es[n]);
      RemovalCommutes(Pairs(front, frontEs), hs[i], hs[n], es[n]);
    }
  }

  class Registry {
    var entries: seq<Entry>
    var handles: seq<Handle>
    var nextHandle: Handle

    ghost function Abs(): LiveWindows
      requires |entries| == |handles|
      reads this
    {
      LiveWindows(Pairs(handles, entries), nextHandle)
    }

    ghost predicate Valid()
      reads this
    {
      |entries| == |handles| && Increasing(handles) && WellFormed(Abs())
    }

    constructor ()
      ensures Valid() && Abs() == Empty
    {
      entries, handles, nextHandle := [], [], 1;
    }

    method IndexOfPromptId(promptId: string) returns (index: Option<nat>)
      requires Valid()
      ensures index.Some? <==> IdTaken(Abs(), promptId)
      ensures index.Some? ==> index.value < |handles| && Names(Abs(), handles[index.value], promptId)
      ensures index.Some? ==> promptId != "" && entries[index.value].promptId == promptId
      ensures index.None? ==> promptId == "" || forall i :: 0 <= i < |entries| ==> entries[i].promptId != promptId
    {
      if promptId == "" {
        return None;
      }
      PairsHolds(handles, entries);
      for i := 0 to |entries|
        invariant forall k :: 0 <= k < i ==> entries[k].promptId != promptId
      {
        if entries[i].promptId == promptId {
          assert Names(Abs(), handles[i], promptId);
          return Some(i);
        }
      }
      return None;
    }

    method IndexOfHandle(h: Handle) returns (index: Option<nat>)
      requires Valid()
      ensures index.Some? <==> h in Abs().entries
      ensures index.Some? ==> index.value < |handles| && handles[index.value] == h
      ensures index.None? ==> h !in handles
    {
      PairsHolds(handles, entries);
      for i := 0 to |handles|
        invariant h !in handles[..i]
      {
        if handles[i] == h {
          return Some(i);
        }
      }
      return None;
    }

    method Add(window: Window, ownerPid: int, promptId: string) returns (handle: Option<Handle>)
      requires Valid()
      modifies this
      ensures Valid()
      ensures Abs() == Registering(old(Abs()), Entry(window, ownerPid, promptId)).0
      ensures handle == Registering(old(Abs()), Entry(window, ownerPid, promptId)).1
      ensures handle.Some? <==>
                window != 0 &&
                (promptId == "" || forall i :: 0 <= i < |old(entries)| ==> old(entries[i].promptId) != promptId)
      ensures handle.Some? ==>
                && handle.value == old(nextHandle) && nextHandle == old(nextHandle) + 1
                && entries == old(entries) + [Entry(window, ownerPid, promptId)]
                && handles == old(handles) + [handle.value]
      ensures handle.None? ==> entries == old(entries) && handles == old(handles) && nextHandle == old(nextHandle)
    {
      if window == 0 {
        return None;
      }
      var index := IndexOfPromptId(promptId);
      if promptId != "" && index.Some? {
        return None;
      }
      handle := Some(nextHandle);
      Append(Entry(window, ownerPid, promptId));
    }

    // The two push_backs.
    method Append(e: Entry)
      requires Valid() && e.window != 0 && !IdTaken(Abs(), e.promptId)
      modifies this
      ensures Valid() && Abs() == Registering(old(Abs()), e).0
      ensures entries == old(entries) + [e] && handles == old(handles) + [old(nextHandle)]
      ensures nextHandle == old(nextHandle) + 1
    {
      ghost var before := Abs();
      PairsHolds(handles, entries);
      entries := entries + [e];
      handles := handles + [nextHandle];
      nextHandle := nextHandle + 1;
      assert handles[..|handles| - 1] == old(handles) && entries[..|entries| - 1] == old(entries);
      assert forall i :: 0 <= i < |old(handles)| ==> old(handles)[i] in before.entries;
      assert Abs() == Apply(before, AddOp(e));
      ApplyKeepsWellFormed(before, AddOp(e));
    }

    method FindByPromptId(promptId: string) returns (handle: Option<Handle>)
      requires Valid()
      ensures handle == HandleNamed(Abs(), promptId)
      ensures handle.Some? ==>
                promptId != "" &&
                exists i :: 0 <= i < |handles| && handles[i] == handle.value && entries[i].promptId == promptId
      ensures handle.None? ==> promptId == "" || forall i :: 0 <= i < |entries| ==> entries[i].promptId != promptId
    {
      var index := IndexOfPromptId(promptId);
      return if index.Some? then Some(handles[index.value]) else None;
    }

    method Find(h: Handle) returns (entry: Option<Entry>)
      requires Valid()
      ensures entry == EntryOf(Abs(), h)
      ensures entry.None? <==> h !in handles
      ensures entry.Some? ==> exists i :: 0 <= i < |handles| && handles[i] == h && entries[i] == entry.value
    {
      var index := IndexOfHandle(h);
      PairsHolds(handles, entries);
      return if index.Some? then Some(entries[index.value]) else None;
    }

    method Take(h: Handle) returns (entry: Option<Entry>)
      requires Valid()
      modifies this
      ensures Valid()
      ensures entry == EntryOf(old(Abs()), h)
      ensures Abs() == Taking(old(Abs()), h)
      ensures entry.None? ==> h !in old(handles) && entries == old(entries) && handles == old(handles)
      ensures entry.Some? ==> exists i: nat ::
                && i < |old(handles)| && old(handles[i]) == h && entry.value == old(entries[i])
                && entries == old(entries[..i]) + old(entries[i + 1..])
                && handles == old(handles[..i]) + old(handles[i + 1..])
    {
      var index := IndexOfHandle(h);
      if index.None? {
        assert Abs().entries - {h} == Abs().entries;
        return None;
      }
      PairsHolds(handles, entries);
      entry := Some(entries[index.value]);
      EraseAt(index.value);
    }

    // The two erases.
    method EraseAt(i: nat)
      requires Valid() && i < |handles|
      modifies `entries, `handles
      ensures Valid() && Abs() == Taking(old(Abs()), old(handles)[i])
      ensures entries == old(entries[..i]) + old(entries[i + 1..])
      ensures handles == old(handles[..i]) + old(handles[i + 1..])
    {
      ApplyKeepsWellFormed(Abs(), TakeOp(handles[i]));
      EraseIsRemoval(handles, entries, i);
      entries := Erase(entries, i);
      handles := Erase(handles, i);
    }

    method TakeAll() returns (taken: seq<Entry>)
      requires Valid()
      modifies this
      ensures Valid() && taken == old(entries)
      ensures Abs() == Apply(old(Abs()), TakeAllOp)
      ensures entries == [] && handles == [] && nextHandle == old(nextHandle)
    {
      taken := entries;
      entries, handles := [], [];
    }
  }
}
