/**
 The PKCS#11 module's snapshot of the agent: a dirty flag, the cards not worth
 asking again, and an enumeration that signals may interrupt at every step.
 */
module SnapshotCache {
  import opened Wrappers

  type Path = string

  // A property of a managed object, which may be missing or of another type.
  datatype Prop<T> = Absent | Typed(value: T) | Mistyped

  datatype ReaderObject = ReaderObject(path: Path, hasCard: Prop<bool>, card: Prop<Path>)

  // The reader objects in the order of their paths.
  type Objects = seq<ReaderObject>

  // One certificate of a read: `usable` when certEntryFrom keeps it.
  datatype CertRow = CertRow(id: string, cn: Prop<string>, usable: bool)

  datatype ReadResult = Certs(rows: seq<CertRow>) | Failed(settles: bool)

  datatype Slot = Slot(reader: Path, hasCard: bool, certs: seq<string>)

  // Where a slot's certificates come from; `call` is an index in the calls made.
  datatype Source = NoCard | WasSettled | FromCall(call: nat) | Refused(call: nat)

  // What one enumeration has gathered so far.
  datatype Gathered = Gathered(objects: Objects, slots: seq<Slot>, sources: seq<Source>, complete: bool)

  // A snapshot with what it is a snapshot of: the signals handled when it was
  // begun, and the agent's changes when its objects were fetched.
  datatype Snapshot = Snapshot(begun: nat, fetched: nat, what: Gathered)

  datatype Stage = NextReader | Reading(call: nat) | Recording(result: Source)

  datatype Phase =
    | Idle
    | Begun(begun: nat)
    | Fetching(begun: nat, readGeneration: nat)
    | Enumerating(snap: Snapshot, readGeneration: nat, stage: Stage)
    | Storing(snap: Snapshot)
    | Marking(complete: bool)

  // A ReadCertificates call, and its result once it has ended.
  datatype Call = Call(card: Path, generation: nat, result: Option<ReadResult>)

  datatype State = State(
    // the agent, and how many signals it has emitted
    agent: Objects,
    emitted: nat,
    // the signal handlers: how many ran, and whether one is between its two steps
    handled: nat,
    forgot: bool,
    // the client
    dirty: bool,
    cached: Snapshot,
    settled: map<Path, nat>,   // the generation of the enumeration that recorded it
    generation: nat,
    phase: Phase,
    threw: bool,               // the last enumeration left by an exception
    calls: seq<Call>)

  const NothingGathered := Gathered([], [], [], false)
  const Init := State([], 0, 0, false, true, Snapshot(0, 0, NothingGathered), map[], 0, Idle, false, [])

  // An object that comes or goes is announced by InterfacesAdded or
  // InterfacesRemoved, which the module handles; a reader whose HasCard or Card
  // changes announces it by PropertiesChanged alone, which it does not.
  datatype Action =
    | AgentChanges(objects: Objects)
    | PropertiesChange(objects: Objects)
    | HandlerForgets
    | HandlerMarks
    | BeginSnapshot
    | TakeGeneration
    | GetManagedObjects(answered: bool)
    | TakeReader
    | ReadEnds(result: ReadResult)
    | RecordSettled
    | ReturnSnapshot
    | Store
    | MarkIncomplete

  // The readers to visit are those beyond the slots already made.
  predicate HasNext(p: Phase) {
    p.Enumerating? && p.stage == NextReader && |p.snap.what.slots| < |p.snap.what.objects|
  }

  function Next(p: Phase): ReaderObject
    requires HasNext(p)
  {
    p.snap.what.objects[|p.snap.what.slots|]
  }

  function CardOf(r: ReaderObject): Option<Path> {
    if r.hasCard == Typed(true) && r.card.Typed? && r.card.value != "" then Some(r.card.value) else None
  }

  function HeadOf(r: ReaderObject): (Path, bool) {
    (r.path, r.hasCard == Typed(true))
  }

  predicate ReaderTyped(r: ReaderObject) {
    !r.hasCard.Mistyped? && !r.card.Mistyped?
  }

  predicate RowsTyped(rows: seq<CertRow>) {
    forall i :: 0 <= i < |rows| ==> !rows[i].cn.Mistyped?
  }

  function Usable(rows: seq<CertRow>): seq<string> {
    if rows == [] then []
    else
      var last := rows[|rows| - 1];
      Usable(rows[..|rows| - 1]) + if last.usable then [last.id] else []
  }

  // certs names the rows at these places, which are all the usable ones in
  // their order.
  predicate Picks(rows: seq<CertRow>, certs: seq<string>, at: seq<nat>) {
    && |at| == |certs|
    && (forall j :: 0 <= j < |at| ==> at[j] < |rows| && rows[at[j]].usable && certs[j] == rows[at[j]].id)
    && (forall i, j :: 0 <= i < j < |at| ==> at[i] < at[j])
    && (forall i :: 0 <= i < |rows| && rows[i].usable ==> i in at)
  }

  ghost predicate KeptRows(rows: seq<CertRow>, certs: seq<string>) {
    exists at: seq<nat> :: Picks(rows, certs, at)
  }

  lemma {:induction false} UsableIsKept(rows: seq<CertRow>)
    ensures KeptRows(rows, Usable(rows))
  {
    if rows == [] {
      assert Picks(rows, [], []);
    } else {
      var front, last := rows[..|rows| - 1], rows[|rows| - 1];
      UsableIsKept(front);
      var at: seq<nat> :| Picks(front, Usable(front), at);
      assert rows == front + [last];
      if last.usable {
        PicksOneMore(front, last, Usable(front), at);
      } else {
        PicksNoMore(front, last, Usable(front), at);
        assert Usable(front) + [] == Usable(front);
      }
    }
  }

  lemma PicksOneMore(rows: seq<CertRow>, last: CertRow, certs: seq<string>, at: seq<nat>)
    requires Picks(rows, certs, at) && last.usable
    ensures Picks(rows + [last], certs + [last.id], at + [|rows|])
  {
    forall i | 0 <= i < |rows| + 1 && (rows + [last])[i].usable
      ensures i in at + [|rows|]
    {
      assert i < |rows| ==> rows[i].usable;
    }
  }

  lemma PicksNoMore(rows: seq<CertRow>, last: CertRow, certs: seq<string>, at: seq<nat>)
    requires Picks(rows, certs, at) && !last.usable
    ensures Picks(rows + [last], certs, at)
  {
  }

  function WithSlot(g: Gathered, certs: seq<string>, source: Source): Gathered
    requires |g.slots| < |g.objects|
  {
    var (reader, hasCard) := HeadOf(g.objects[|g.slots|]);
    g.(slots := g.slots + [Slot(reader, hasCard, certs)], sources := g.sources + [source],
       complete := g.complete && !source.Refused?)
  }

  function Slotted(p: Phase, certs: seq<string>, source: Source): Phase
    requires p.Enumerating? && |p.snap.what.slots| < |p.snap.what.objects|
  {
    p.(snap := p.snap.(what := WithSlot(p.snap.what, certs, source)), stage := NextReader)
  }

  // An exception out of enumerate: dirty stays as it is and nothing is stored.
  function Thrown(s: State): State {
    s.(phase := Idle, threw := true)
  }

  function Take(s: State): State
    requires HasNext(s.phase)
  {
    var r := Next(s.phase);
    if !ReaderTyped(r) then Thrown(s)
    else match CardOf(r)
      case None => s.(phase := Slotted(s.phase, [], NoCard))
      case Some(card) =>
        if card in s.settled then s.(phase := s.phase.(stage := Recording(WasSettled)))
        else s.(phase := s.phase.(stage := Reading(|s.calls|)), calls := s.calls + [Call(card, s.generation, None)])
  }

  predicate IsReading(s: State) {
    s.phase.Enumerating? && s.phase.stage.Reading? && s.phase.stage.call < |s.calls|
    && |s.phase.snap.what.slots| < |s.phase.snap.what.objects|
  }

  function Ended(s: State, result: ReadResult): State
    requires IsReading(s)
  {
    var k := s.phase.stage.call;
    var s' := s.(calls := s.calls[k := s.calls[k].(result := Some(result))]);
    match result
    case Certs(rows) =>
      if RowsTyped(rows) then s'.(phase := Slotted(s.phase, Usable(rows), FromCall(k))) else Thrown(s')
    case Failed(settles) =>
      if settles then s'.(phase := s.phase.(stage := Recording(FromCall(k))))
      else s'.(phase := Slotted(s.phase, [], Refused(k)))
  }

  predicate IsRecording(s: State) {
    s.phase.Enumerating? && s.phase.stage.Recording? && |s.phase.snap.what.slots| < |s.phase.snap.what.objects|
    && CardOf(s.phase.snap.what.objects[|s.phase.snap.what.slots|]).Some?
  }

  // settle, then the slot without certificates.
  function Recorded(s: State): State
    requires IsRecording(s)
  {
    var p := s.phase;
    var card := CardOf(p.snap.what.objects[|p.snap.what.slots|]).value;
    s.(settled := if p.readGeneration == s.generation then s.settled[card := p.readGeneration] else s.settled,
       phase := Slotted(p, [], p.stage.result))
  }

  function Step(s: State, a: Action): State {
    match a
    case AgentChanges(objects) => s.(agent := objects, emitted := s.emitted + 1)
    case PropertiesChange(objects) => s.(agent := objects)
    case HandlerForgets =>
      if s.forgot || s.handled == s.emitted then s
      else s.(settled := map[], generation := s.generation + 1, forgot := true)
    case HandlerMarks => if s.forgot then s.(dirty := true, handled := s.handled + 1, forgot := false) else s
    case BeginSnapshot =>
      if s.phase == Idle && s.dirty then s.(dirty := false, phase := Begun(s.handled)) else s
    case TakeGeneration => if s.phase.Begun? then s.(phase := Fetching(s.phase.begun, s.generation)) else s
    case GetManagedObjects(answered) =>
      if !s.phase.Fetching? then s
      else if answered then
        s.(phase := Enumerating(Snapshot(s.phase.begun, s.emitted, Gathered(s.agent, [], [], true)),
                                s.phase.readGeneration, NextReader))
      else s.(threw := false, phase := Storing(Snapshot(s.phase.begun, s.emitted, NothingGathered)))
    case TakeReader => if HasNext(s.phase) then Take(s) else s
    case ReadEnds(result) => if IsReading(s) then Ended(s, result) else s
    case RecordSettled => if IsRecording(s) then Recorded(s) else s
    case ReturnSnapshot =>
      if s.phase.Enumerating? && s.phase.stage == NextReader && !HasNext(s.phase) then
        s.(threw := false, phase := Storing(s.phase.snap))
      else s
    case Store =>
      if s.phase.Storing? then s.(cached := s.phase.snap, phase := Marking(s.phase.snap.what.complete)) else s
    case MarkIncomplete =>
      if s.phase.Marking? then s.(dirty := s.dirty || !s.phase.complete, phase := Idle) else s
  }

  function RunFrom(s: State, acts: seq<Action>): State {
    if acts == [] then s else Step(RunFrom(s, acts[..|acts| - 1]), acts[|acts| - 1])
  }

  function Run(acts: seq<Action>): State {
    RunFrom(Init, acts)
  }

  // -- What every step keeps --

  // A call for the card ended in a way asking again would repeat.
  predicate HasSettled(calls: seq<Call>, card: Path) {
    exists k: nat | k < |calls| :: calls[k].card == card && calls[k].result == Some(Failed(true))
  }

  // Slot i is what a read, or a settled card, makes of object i.
  predicate SlotExplained(g: Gathered, calls: seq<Call>, i: nat)
    requires i < |g.slots| <= |g.objects| && |g.sources| == |g.slots|
  {
    var card := CardOf(g.objects[i]);
    && ReaderTyped(g.objects[i]) && (g.slots[i].reader, g.slots[i].hasCard) == HeadOf(g.objects[i])
    && match g.sources[i]
       case NoCard => card == None && g.slots[i].certs == []
       case WasSettled => card.Some? && HasSettled(calls, card.value) && g.slots[i].certs == []
       case Refused(k) =>
         && card.Some? && g.slots[i].certs == []
         && k < |calls| && calls[k].card == card.value && calls[k].result == Some(Failed(false))
       case FromCall(k) =>
         && card.Some? && k < |calls| && calls[k].card == card.value && calls[k].result.Some?
         && match calls[k].result.value
            case Certs(rows) => RowsTyped(rows) && g.slots[i].certs == Usable(rows)
            case Failed(settles) => settles && g.slots[i].certs == []
  }

  predicate Explained(g: Gathered, calls: seq<Call>) {
    && |g.slots| == |g.sources| <= |g.objects|
    && (forall i: nat | i < |g.slots| :: SlotExplained(g, calls, i))
    && (g != NothingGathered ==> (g.complete <==> forall i: nat | i < |g.sources| :: !g.sources[i].Refused?))
  }

  predicate SnapshotIn(s: State, snap: Snapshot) {
    && snap.begun <= s.handled && snap.begun <= snap.fetched <= s.emitted
    && Explained(snap.what, s.calls)
  }

  predicate Whole(snap: Snapshot) {
    |snap.what.slots| == |snap.what.objects|
  }

  predicate Fresh(s: State) {
    s.cached.what.complete && s.cached.begun == s.handled
  }

  // A signal handled since the enumeration began has marked the cache.
  predicate MarkedSince(s: State, begun: nat) {
    begun <= s.handled && (s.dirty <==> begun < s.handled)
  }

  predicate PhaseIn(s: State) {
    match s.phase
    case Idle => !s.dirty ==> (Fresh(s) <==> !s.threw)
    case Begun(begun) => MarkedSince(s, begun)
    case Fetching(begun, gen) => MarkedSince(s, begun) && gen <= s.generation
    case Enumerating(snap, gen, _) => MarkedSince(s, snap.begun) && gen <= s.generation && EnumeratingIn(s, snap)
    case Storing(snap) => !s.threw && MarkedSince(s, snap.begun) && SnapshotIn(s, snap) && Whole(snap)
    case Marking(complete) => !s.threw && MarkedSince(s, s.cached.begun) && complete == s.cached.what.complete
  }

  predicate EnumeratingIn(s: State, snap: Snapshot)
    requires s.phase.Enumerating?
  {
    SnapshotIn(s, snap) && StageIn(s)
  }

  // A settled card was called for since the last signal, and that call settled it.
  predicate SettledIn(s: State, card: Path)
    requires card in s.settled
  {
    s.settled[card] == s.generation && WasCalled(s, card)
  }

  predicate WasCalled(s: State, card: Path) {
    exists k: nat | k < |s.calls| :: s.calls[k] == Call(card, s.generation, Some(Failed(true)))
  }

  predicate StageIn(s: State)
    requires s.phase.Enumerating?
  {
    var p := s.phase;
    match p.stage
    case NextReader => true
    case Reading(k) =>
      k < |s.calls| && |p.snap.what.slots| < |p.snap.what.objects|
      && ReaderTyped(p.snap.what.objects[|p.snap.what.slots|])
      && CardOf(p.snap.what.objects[|p.snap.what.slots|]) == Some(s.calls[k].card)
      && s.calls[k].result == None && p.readGeneration <= s.calls[k].generation <= s.generation
    case Recording(source) =>
      |p.snap.what.slots| < |p.snap.what.objects|
      && ReaderTyped(p.snap.what.objects[|p.snap.what.slots|])
      && CardOf(p.snap.what.objects[|p.snap.what.slots|]).Some?
      && RecordingIn(s, source, CardOf(p.snap.what.objects[|p.snap.what.slots|]).value)
  }

  predicate RecordingIn(s: State, source: Source, card: Path)
    requires s.phase.Enumerating?
  {
    && (s.phase.readGeneration == s.generation ==> WasCalled(s, card))
    && match source
       case WasSettled => HasSettled(s.calls, card)
       case FromCall(k) => k < |s.calls| && s.calls[k].card == card && s.calls[k].result == Some(Failed(true))
       case _ => false
  }

  predicate CallsDated(s: State) {
    forall k: nat | k < |s.calls| :: s.calls[k].generation <= s.generation
  }

  predicate ClientIn(s: State) {
    && (if s.phase.Idle? then s.dirty ==> !Fresh(s) else !s.phase.Marking? ==> !Fresh(s))
    && (forall card: Path | card in s.settled :: SettledIn(s, card))
    && CallsDated(s)
  }

  predicate Inv(s: State) {
    && s.generation == s.handled + (if s.forgot then 1 else 0) <= s.emitted
    && SnapshotIn(s, s.cached) && Whole(s.cached)
    && PhaseIn(s)
    && ClientIn(s)
  }


  lemma SettledGrows(calls: seq<Call>, calls': seq<Call>, card: Path)
    requires HasSettled(calls, card) && |calls| <= |calls'|
    requires forall k: nat | k < |calls| && calls[k].result.Some? :: calls'[k] == calls[k]
    ensures HasSettled(calls', card)
  {
    var k: nat :| k < |calls| && calls[k].card == card && calls[k].result == Some(Failed(true));
    assert calls'[k] == calls[k];
  }

  lemma ExplainedGrows(g: Gathered, calls: seq<Call>, calls': seq<Call>)
    requires Explained(g, calls) && |calls| <= |calls'|
    requires forall k: nat | k < |calls| && calls[k].result.Some? :: calls'[k] == calls[k]
    ensures Explained(g, calls')
  {
    forall i: nat | i < |g.slots|
      ensures SlotExplained(g, calls', i)
    {
      assert SlotExplained(g, calls, i);
      if g.sources[i] == WasSettled {
        SettledGrows(calls, calls', CardOf(g.objects[i]).value);
      }
    }
  }

  lemma WithSlotExplained(g: Gathered, calls: seq<Call>, certs: seq<string>, source: Source)
    requires Explained(g, calls) && |g.slots| < |g.objects|
    requires SlotExplained(WithSlot(g, certs, source), calls, |g.slots|)
    ensures Explained(WithSlot(g, certs, source), calls)
  {
    var g' := WithSlot(g, certs, source);
    forall i: nat | i < |g'.slots|
      ensures SlotExplained(g', calls, i)
    {
      if i < |g.slots| {
        assert SlotExplained(g, calls, i);
      }
    }
    assert g'.sources[|g.slots|] == source;
    assert forall i: nat | i < |g.slots| :: g'.sources[i] == g.sources[i];
  }

  lemma AnnouncedKeepsInv(s: State, objects: Objects)
    requires Inv(s)
    ensures Inv(Step(s, AgentChanges(objects)))
  {
  }

  lemma SilentKeepsInv(s: State, objects: Objects)
    requires Inv(s)
    ensures Inv(Step(s, PropertiesChange(objects)))
  {
  }

  lemma HandlersKeepInv(s: State, a: Action)
    requires Inv(s) && (a.HandlerForgets? || a.HandlerMarks?)
    ensures Inv(Step(s, a))
  {
  }

  lemma BeginKeepsInv(s: State, a: Action)
    requires Inv(s) && (a.BeginSnapshot? || a.TakeGeneration?)
    ensures Inv(Step(s, a))
  {
  }

  lemma FetchKeepsInv(s: State, answered: bool)
    requires Inv(s)
    ensures Inv(Step(s, GetManagedObjects(answered)))
  {
  }

  lemma EndKeepsInv(s: State, a: Action)
    requires Inv(s) && (a.ReturnSnapshot? || a.Store? || a.MarkIncomplete?)
    ensures Inv(Step(s, a))
  {
  }

  lemma CallsKept(s: State, s': State, card: Path)
    requires WasCalled(s, card) && s'.generation == s.generation && |s.calls| <= |s'.calls|
    requires forall k: nat | k < |s.calls| && s.calls[k].result.Some? :: s'.calls[k] == s.calls[k]
    ensures WasCalled(s', card)
  {
    var k: nat :| k < |s.calls| && s.calls[k] == Call(card, s.generation, Some(Failed(true)));
    assert s'.calls[k] == s.calls[k];
  }

  // Calls are only ever added, or given their result.
  predicate CallsGrow(s: State, s': State) {
    && |s.calls| <= |s'.calls| && s'.generation == s.generation
    && (forall k: nat | k < |s.calls| && s.calls[k].result.Some? :: s'.calls[k] == s.calls[k])
    && CallsDated(s')
  }

  // What the steps of an enumeration leave alone.
  predicate Aside(s: State, s': State) {
    s' == s.(phase := s'.phase, threw := s'.threw, calls := s'.calls)
  }

  lemma CallsGrowKeepsRest(s: State, s': State)
    requires Inv(s) && CallsGrow(s, s') && Aside(s, s')
    ensures SnapshotIn(s', s.cached)
    ensures forall card: Path | card in s'.settled :: SettledIn(s', card)
  {
    ExplainedGrows(s.cached.what, s.calls, s'.calls);
    forall card: Path | card in s'.settled
      ensures SettledIn(s', card)
    {
      assert SettledIn(s, card);
      CallsKept(s, s', card);
    }
  }

  // The step that only moves an enumeration on.
  lemma MovedKeepsInv(s: State, s': State)
    requires Inv(s) && s.phase.Enumerating? && CallsGrow(s, s') && Aside(s, s')
    requires s'.threw == s.threw && s'.phase.Enumerating?
    requires s'.phase.readGeneration == s.phase.readGeneration
    requires s'.phase.snap == s.phase.snap.(what := s'.phase.snap.what)
    requires s'.phase.snap.what.objects == s.phase.snap.what.objects
    requires s'.phase.snap.what.complete ==> s.phase.snap.what.complete
    requires Explained(s'.phase.snap.what, s'.calls) && StageIn(s')
    ensures Inv(s')
  {
    CallsGrowKeepsRest(s, s');
  }

  lemma ThrownKeepsInv(s: State, s': State)
    requires Inv(s) && s.phase.Enumerating? && CallsGrow(s, s') && Aside(s, s')
    requires s'.threw && s'.phase == Idle
    ensures Inv(s')
  {
    CallsGrowKeepsRest(s, s');
  }

  lemma TakeGrows(s: State)
    requires CallsDated(s) && HasNext(s.phase)
    ensures CallsGrow(s, Take(s)) && Aside(s, Take(s))
  {
  }

  lemma TakeMoves(s: State)
    requires Inv(s) && HasNext(s.phase) && ReaderTyped(Next(s.phase))
    ensures Take(s).phase.Enumerating?
    ensures Explained(Take(s).phase.snap.what, Take(s).calls) && StageIn(Take(s))
  {
    var s' := Take(s);
    var g := s.phase.snap.what;
    ExplainedGrows(g, s.calls, s'.calls);
    if CardOf(Next(s.phase)) == None {
      WithSlotExplained(g, s.calls, [], NoCard);
    } else if CardOf(Next(s.phase)).value in s.settled {
      assert SettledIn(s, CardOf(Next(s.phase)).value);
      CallsKept(s, s', CardOf(Next(s.phase)).value);
    }
  }

  lemma TakeKeepsInv(s: State)
    requires Inv(s) && HasNext(s.phase)
    ensures Inv(Take(s))
  {
    TakeGrows(s);
    if ReaderTyped(Next(s.phase)) {
      TakeMoves(s);
      MovedKeepsInv(s, Take(s));
    } else {
      ThrownKeepsInv(s, Take(s));
    }
  }

  lemma EndedGrows(s: State, result: ReadResult)
    requires CallsDated(s) && IsReading(s) && s.calls[s.phase.stage.call].result == None
    ensures CallsGrow(s, Ended(s, result)) && Aside(s, Ended(s, result))
  {
  }

  lemma EndedMoves(s: State, result: ReadResult)
    requires Inv(s) && IsReading(s) && (result.Certs? ==> RowsTyped(result.rows))
    ensures Ended(s, result).phase.Enumerating?
    ensures Explained(Ended(s, result).phase.snap.what, Ended(s, result).calls)
  {
    var s' := Ended(s, result);
    var g := s.phase.snap.what;
    ExplainedGrows(g, s.calls, s'.calls);
    if result.Certs? {
      WithSlotExplained(g, s'.calls, Usable(result.rows), FromCall(s.phase.stage.call));
    } else if !result.settles {
      WithSlotExplained(g, s'.calls, [], Refused(s.phase.stage.call));
    }
  }

  lemma EndedStage(s: State, result: ReadResult)
    requires Inv(s) && IsReading(s) && (result.Certs? ==> RowsTyped(result.rows))
    ensures StageIn(Ended(s, result))
  {
    var s' := Ended(s, result);
    var k := s.phase.stage.call;
    if result == Failed(true) && s.phase.readGeneration == s.generation {
      assert s'.calls[k] == Call(s.calls[k].card, s.generation, Some(Failed(true)));
    }
  }

  lemma EndedKeepsInv(s: State, result: ReadResult)
    requires Inv(s) && IsReading(s)
    ensures Inv(Ended(s, result))
  {
    EndedGrows(s, result);
    if result.Certs? && !RowsTyped(result.rows) {
      ThrownKeepsInv(s, Ended(s, result));
    } else {
      EndedMoves(s, result);
      EndedStage(s, result);
      MovedKeepsInv(s, Ended(s, result));
    }
  }

  lemma RecordedKeepsInv(s: State)
    requires Inv(s) && IsRecording(s)
    ensures Inv(Recorded(s))
  {
    var s' := Recorded(s);
    var g := s.phase.snap.what;
    WithSlotExplained(g, s.calls, [], s.phase.stage.result);
    forall card: Path | card in s'.settled
      ensures SettledIn(s', card)
    {
      if card in s.settled {
        assert SettledIn(s, card);
      }
      assert WasCalled(s, card);
      CallsKept(s, s', card);
    }
  }

  lemma StepKeepsInv(s: State, a: Action)
    requires Inv(s)
    ensures Inv(Step(s, a))
  {
    match a
    case AgentChanges(objects) => AnnouncedKeepsInv(s, objects);
    case PropertiesChange(objects) => SilentKeepsInv(s, objects);
    case HandlerForgets => HandlersKeepInv(s, a);
    case HandlerMarks => HandlersKeepInv(s, a);
    case TakeReader => if HasNext(s.phase) { TakeKeepsInv(s); }
    case ReadEnds(result) => if IsReading(s) { EndedKeepsInv(s, result); }
    case RecordSettled => if IsRecording(s) { RecordedKeepsInv(s); }
    case BeginSnapshot => BeginKeepsInv(s, a);
    case TakeGeneration => BeginKeepsInv(s, a);
    case GetManagedObjects(answered) => FetchKeepsInv(s, answered);
    case _ => EndKeepsInv(s, a);
  }

  lemma {:induction false} RunInv(acts: seq<Action>)
    ensures Inv(Run(acts))
  {
    if acts != [] {
      RunInv(acts[..|acts| - 1]);
      StepKeepsInv(Run(acts[..|acts| - 1]), acts[|acts| - 1]);
    }
  }

  // -- Main results --

  // The step meets a HasCard, a Card or a certificate name of another type.
  predicate MeetsMistyped(s: State, a: Action) {
    || (a.TakeReader? && HasNext(s.phase) && (Next(s.phase).hasCard.Mistyped? || Next(s.phase).card.Mistyped?))
    || (a.ReadEnds? && IsReading(s) && a.result.Certs?
        && exists i :: 0 <= i < |a.result.rows| && a.result.rows[i].cn.Mistyped?)
  }

  // The step ends the enumeration that is running.
  predicate Ends(s: State, a: Action) {
    || MeetsMistyped(s, a)
    || (a == GetManagedObjects(false) && s.phase.Fetching?)
    || (a.ReturnSnapshot? && s.phase.Enumerating? && s.phase.stage == NextReader && !HasNext(s.phase))
  }

  // Where the last enumeration that has ended did.
  function LastEnd(acts: seq<Action>): (end: Option<nat>)
    ensures end.Some? ==> end.value < |acts|
  {
    if acts == [] then None
    else
      var n := |acts| - 1;
      if Ends(Run(acts[..n]), acts[n]) then Some(n) else LastEnd(acts[..n])
  }

  // Whether it ended because it met one.
  predicate EndedMistyped(acts: seq<Action>) {
    var end := LastEnd(acts);
    end.Some? && MeetsMistyped(Run(acts[..end.value]), acts[end.value])
  }

  lemma StepEnds(s: State, a: Action)
    ensures Step(s, a).threw == if Ends(s, a) then MeetsMistyped(s, a) else s.threw
  {
  }

  lemma {:induction false} ThrewIsEndedMistyped(acts: seq<Action>)
    ensures Run(acts).threw <==> EndedMistyped(acts)
  {
    if acts != [] {
      var n := |acts| - 1;
      ThrewIsEndedMistyped(acts[..n]);
      StepEnds(Run(acts[..n]), acts[n]);
      var end := LastEnd(acts[..n]);
      if end.Some? {
        assert acts[..n][..end.value] == acts[..end.value];
      }
    }
  }

  // No enumeration has ended yet.
  predicate Unended(s: State) {
    match s.phase
    case Idle => s.dirty
    case Storing(_) => false
    case Marking(_) => false
    case _ => true
  }

  lemma StepStaysUnended(s: State, a: Action)
    requires Unended(s) && !Ends(s, a)
    ensures Unended(Step(s, a))
  {
  }

  lemma {:induction false} SomethingEnded(acts: seq<Action>)
    ensures LastEnd(acts) == None ==> Unended(Run(acts))
  {
    if acts != [] {
      var n := |acts| - 1;
      SomethingEnded(acts[..n]);
      if LastEnd(acts) == None {
        StepStaysUnended(Run(acts[..n]), acts[n]);
      }
    }
  }

  /** With no enumeration running and nothing marked, an enumeration has ended,
      and the cache is a complete one begun after the last handled signal if and
      only if the last that ended met nothing mistyped: no HasCard, no Card and
      no certificate name of another type. For every run, with any number of
      enumerations that threw before. */
  lemma {:induction false} FreshExactlyUnlessMistyped(acts: seq<Action>)
    requires Run(acts).phase == Idle && !Run(acts).dirty
    ensures LastEnd(acts).Some?
    ensures (Run(acts).cached.what.complete && Run(acts).cached.begun == Run(acts).handled) <==> !EndedMistyped(acts)
  {
    RunInv(acts);
    SomethingEnded(acts);
    ThrewIsEndedMistyped(acts);
  }

  predicate AgentTyped(objects: Objects) {
    forall i :: 0 <= i < |objects| ==> ReaderTyped(objects[i])
  }

  predicate ActionTyped(a: Action) {
    match a
    case AgentChanges(objects) => AgentTyped(objects)
    case PropertiesChange(objects) => AgentTyped(objects)
    case ReadEnds(Certs(rows)) => RowsTyped(rows)
    case _ => true
  }

  predicate AllTyped(acts: seq<Action>) {
    forall i :: 0 <= i < |acts| ==> ActionTyped(acts[i])
  }

  predicate TypedIn(s: State) {
    && AgentTyped(s.agent) && !s.threw
    && (s.phase.Enumerating? ==> AgentTyped(s.phase.snap.what.objects))
  }

  lemma StepKeepsTyped(s: State, a: Action)
    requires TypedIn(s) && ActionTyped(a)
    ensures TypedIn(Step(s, a))
  {
    match a
    case TakeReader =>
      if HasNext(s.phase) {
        assert ReaderTyped(Next(s.phase));
      }
    case _ =>
  }

  /** As long as the agent's replies carry the types it publishes, the cache is
      never kept stale, whenever signals arrive. */
  lemma {:induction false} TypedRunsAreFresh(acts: seq<Action>)
    requires AllTyped(acts)
    ensures TypedIn(Run(acts))
    ensures Run(acts).phase == Idle && !Run(acts).dirty ==> Fresh(Run(acts))
  {
    RunInv(acts);
    if acts != [] {
      TypedRunsAreFresh(acts[..|acts| - 1]);
      StepKeepsTyped(Run(acts[..|acts| - 1]), acts[|acts| - 1]);
    }
  }

  // Action j fetched the objects of the snapshot.
  predicate FetchOf(acts: seq<Action>, j: nat, snap: Snapshot) {
    && j < |acts| && acts[j] == GetManagedObjects(true) && Run(acts[..j]).phase.Fetching?
    && snap.what.objects == Run(acts[..j]).agent && snap.fetched == Run(acts[..j]).emitted
  }

  ghost predicate WasFetched(acts: seq<Action>, snap: Snapshot) {
    exists j: nat :: FetchOf(acts, j, snap)
  }

  lemma FetchedBefore(acts: seq<Action>, snap: Snapshot, snap': Snapshot)
    requires acts != [] && WasFetched(acts[..|acts| - 1], snap)
    requires snap'.what.objects == snap.what.objects && snap'.fetched == snap.fetched
    ensures WasFetched(acts, snap')
  {
    var most := acts[..|acts| - 1];
    var j: nat :| FetchOf(most, j, snap);
    assert most[..j] == acts[..j];
    assert FetchOf(acts, j, snap');
  }

  predicate SameFetch(snap: Snapshot, snap': Snapshot) {
    snap'.what.objects == snap.what.objects && snap'.fetched == snap.fetched
  }

  lemma TakeKeepsFetch(s: State)
    requires HasNext(s.phase) && Take(s).phase.Enumerating?
    ensures SameFetch(s.phase.snap, Take(s).phase.snap)
  {
  }

  lemma EnumeratingCameFrom(s: State, a: Action)
    requires Step(s, a).phase.Enumerating?
    ensures if s.phase.Enumerating? then SameFetch(s.phase.snap, Step(s, a).phase.snap)
            else a == GetManagedObjects(true) && s.phase.Fetching?
                 && Step(s, a).phase.snap.what.objects == s.agent && Step(s, a).phase.snap.fetched == s.emitted
  {
    if a.TakeReader? {
      if HasNext(s.phase) {
        TakeKeepsFetch(s);
      }
    } else if a.ReadEnds? {
      if IsReading(s) {
        assert SameFetch(s.phase.snap, Ended(s, a.result).phase.snap);
      }
    }
  }

  lemma StoringCameFrom(s: State, a: Action)
    requires Step(s, a).phase.Storing? && Step(s, a).phase.snap.what.complete
    ensures (s.phase.Enumerating? || s.phase.Storing?) && Step(s, a).phase.snap == s.phase.snap
  {
    match a
    case TakeReader =>
    case ReadEnds(_) =>
    case RecordSettled =>
    case _ =>
  }

  lemma CachedCameFrom(s: State, a: Action)
    ensures Step(s, a).cached == if a == Store && s.phase.Storing? then s.phase.snap else s.cached
  {
    match a
    case TakeReader =>
    case ReadEnds(_) =>
    case RecordSettled =>
    case _ =>
  }

  // What an enumeration works on, and what a complete cache shows, was fetched.
  lemma {:induction false} SnapshotsAreFetched(acts: seq<Action>)
    ensures Run(acts).phase.Enumerating? ==> WasFetched(acts, Run(acts).phase.snap)
    ensures Run(acts).phase.Storing? && Run(acts).phase.snap.what.complete ==> WasFetched(acts, Run(acts).phase.snap)
    ensures Run(acts).cached.what.complete ==> WasFetched(acts, Run(acts).cached)
  {
    if acts != [] {
      var n := |acts| - 1;
      var s, a := Run(acts[..n]), acts[n];
      var t := Step(s, a);
      assert Run(acts) == t;
      SnapshotsAreFetched(acts[..n]);
      CachedCameFrom(s, a);
      if t.cached.what.complete {
        FetchedBefore(acts, t.cached, t.cached);
      }
      if t.phase.Enumerating? {
        EnumeratingCameFrom(s, a);
        if s.phase.Enumerating? {
          FetchedBefore(acts, s.phase.snap, t.phase.snap);
        } else {
          assert FetchOf(acts, n, t.phase.snap);
        }
      } else if t.phase.Storing? && t.phase.snap.what.complete {
        StoringCameFrom(s, a);
        FetchedBefore(acts, s.phase.snap, t.phase.snap);
      }
    }
  }

  lemma StepOfAgent(s: State, a: Action)
    ensures Step(s, a).emitted == s.emitted + if a.AgentChanges? then 1 else 0
    ensures Step(s, a).agent == if a.AgentChanges? || a.PropertiesChange? then a.objects else s.agent
  {
    match a
    case TakeReader =>
    case ReadEnds(_) =>
    case RecordSettled =>
    case _ =>
  }

  lemma {:induction false} EmissionsSince(acts: seq<Action>, j: nat)
    requires j <= |acts|
    ensures Run(acts[..j]).emitted <= Run(acts).emitted
    ensures Run(acts[..j]).emitted == Run(acts).emitted ==> forall i :: j <= i < |acts| ==> !acts[i].AgentChanges?
    decreases |acts|
  {
    if j == |acts| {
      assert acts[..j] == acts;
    } else {
      var most := acts[..|acts| - 1];
      assert most[..j] == acts[..j];
      EmissionsSince(most, j);
      StepOfAgent(Run(most), acts[|acts| - 1]);
    }
  }

  // The objects the last unannounced change since action j left, if there was one.
  function SilentSince(acts: seq<Action>, j: nat): Option<Objects>
    requires j <= |acts|
    decreases |acts|
  {
    if j == |acts| then None
    else if acts[|acts| - 1].PropertiesChange? then Some(acts[|acts| - 1].objects)
    else SilentSince(acts[..|acts| - 1], j)
  }

  lemma {:induction false} AgentSince(acts: seq<Action>, j: nat)
    requires j <= |acts| && forall i :: j <= i < |acts| ==> !acts[i].AgentChanges?
    ensures Run(acts).agent ==
            if SilentSince(acts, j).Some? then SilentSince(acts, j).value else Run(acts[..j]).agent
    decreases |acts|
  {
    if j == |acts| {
      assert acts[..j] == acts;
    } else {
      var most := acts[..|acts| - 1];
      assert most[..j] == acts[..j];
      AgentSince(most, j);
      StepOfAgent(Run(most), acts[|acts| - 1]);
    }
  }

  // What a slot shows of its reader, from which call: the ids of the usable
  // certificates in their order, or none for a reader without a card, for a
  // card not worth asking again and for one whose read failed on the way.
  ghost predicate SlotShows(slot: Slot, found: ReaderObject, source: Source, calls: seq<Call>) {
    && !found.hasCard.Mistyped? && !found.card.Mistyped?
    && slot.reader == found.path && (slot.hasCard <==> found.hasCard == Typed(true))
    && (source == NoCard <==> found.hasCard != Typed(true) || found.card == Absent || found.card == Typed(""))
    && match source
       case NoCard => slot.certs == []
       case WasSettled =>
         slot.certs == [] &&
         exists k: nat | k < |calls| :: found.card == Typed(calls[k].card) && calls[k].result == Some(Failed(true))
       case Refused(k) =>
         slot.certs == [] && k < |calls| && found.card == Typed(calls[k].card)
         && calls[k].result == Some(Failed(false))
       case FromCall(k) =>
         && k < |calls| && found.card == Typed(calls[k].card) && calls[k].result.Some?
         && match calls[k].result.value
            case Failed(settles) => settles && slot.certs == []
            case Certs(rows) =>
              (forall i :: 0 <= i < |rows| ==> !rows[i].cn.Mistyped?) && KeptRows(rows, slot.certs)
  }

  // Every slot shows its reader, and the whole is complete if and only if no
  // read failed on the way.
  ghost predicate Shows(g: Gathered, calls: seq<Call>) {
    && |g.slots| == |g.sources| == |g.objects|
    && (forall i: nat | i < |g.objects| :: SlotShows(g.slots[i], g.objects[i], g.sources[i], calls))
    && (g.complete <==> forall i: nat | i < |g.sources| :: !g.sources[i].Refused?)
  }

  lemma ExplainedShows(g: Gathered, calls: seq<Call>, i: nat)
    requires Explained(g, calls) && i < |g.slots|
    ensures SlotShows(g.slots[i], g.objects[i], g.sources[i], calls)
  {
    assert SlotExplained(g, calls, i);
    match g.sources[i]
    case WasSettled =>
      var k: nat :| k < |calls| && calls[k].card == CardOf(g.objects[i]).value && calls[k].result == Some(Failed(true));
      assert g.objects[i].card == Typed(calls[k].card);
    case FromCall(k) =>
      if calls[k].result.value.Certs? {
        UsableIsKept(calls[k].result.value.rows);
      }
    case _ =>
  }

  /** Whatever is about to be stored, and whatever is stored, dirty or not,
      shows the readers it was fetched with; only an agent that is gone leaves
      an empty and incomplete one. */
  lemma {:induction false} CacheShowsItsReads(acts: seq<Action>)
    ensures var s := Run(acts); s.cached.what == Gathered([], [], [], false) || Shows(s.cached.what, s.calls)
    ensures var s := Run(acts);
      s.phase.Storing? ==> s.phase.snap.what == Gathered([], [], [], false) || Shows(s.phase.snap.what, s.calls)
  {
    RunInv(acts);
    var s := Run(acts);
    forall i: nat | i < |s.cached.what.slots| {
      ExplainedShows(s.cached.what, s.calls, i);
    }
    if s.phase.Storing? {
      forall i: nat | i < |s.phase.snap.what.slots| {
        ExplainedShows(s.phase.snap.what, s.calls, i);
      }
    }
  }

  /** A cache that is complete and begun after the last handled signal is never
      enumerated again: between enumerations it is not marked. */
  lemma {:induction false} FreshIsNotMarked(acts: seq<Action>)
    requires var s := Run(acts); s.phase == Idle && s.cached.what.complete && s.cached.begun == s.handled
    ensures !Run(acts).dirty
  {
    RunInv(acts);
  }

  /** A read that ends for good leaves an empty slot and is recorded unless a
      signal has been handled since its enumeration began. */
  lemma {:induction false} SettlingReadIsRecorded(acts: seq<Action>)
    requires IsReading(Run(acts))
    ensures var s, t := Run(acts), Run(acts + [ReadEnds(Failed(true))] + [RecordSettled]);
      var card, gen := s.calls[s.phase.stage.call].card, s.phase.readGeneration;
      var found := s.phase.snap.what.objects[|s.phase.snap.what.slots|];
      && t.settled == (if gen == s.generation then s.settled[card := gen] else s.settled)
      && t.phase.Enumerating? && t.phase.stage == NextReader
      && t.phase.snap.what.slots == s.phase.snap.what.slots + [Slot(found.path, true, [])]
      && t.phase.snap.what.complete == s.phase.snap.what.complete
  {
    RunInv(acts);
    OneMore(acts, ReadEnds(Failed(true)));
    OneMore(acts + [ReadEnds(Failed(true))], RecordSettled);
    EndedStage(Run(acts), Failed(true));
  }

  /** A fresh cache with every signal handled shows the agent's readers as one
      GetManagedObjects gave them, and nothing was announced since: its readers
      in order, each with the certificates one of the calls returned, or with
      none for a card that settled; a refused read is never kept. It shows the
      agent's readers as they are now if and only if no reader has changed
      unannounced since, or the last that did changed back. */
  lemma {:induction false} QuietCacheIsWhatWasFetched(acts: seq<Action>) returns (j: nat)
    requires var s := Run(acts); s.phase == Idle && !s.dirty && !EndedMistyped(acts) && s.handled == s.emitted
    ensures FetchOf(acts, j, Run(acts).cached)
    ensures forall i :: j <= i < |acts| ==> !acts[i].AgentChanges?
    ensures var s := Run(acts);
      && |s.cached.what.slots| == |s.cached.what.sources| == |s.cached.what.objects|
      && forall i: nat | i < |s.cached.what.objects| ::
           !s.cached.what.sources[i].Refused?
           && SlotShows(s.cached.what.slots[i], s.cached.what.objects[i], s.cached.what.sources[i], s.calls)
    ensures Run(acts).cached.what.objects == Run(acts).agent <==>
              SilentSince(acts, j) == None || SilentSince(acts, j) == Some(Run(acts).cached.what.objects)
  {
    RunInv(acts);
    ThrewIsEndedMistyped(acts);
    var s := Run(acts);
    assert Fresh(s);
    SnapshotsAreFetched(acts);
    j :| FetchOf(acts, j, s.cached);
    EmissionsSince(acts, j);
    AgentSince(acts, j);
    CacheShowsItsReads(acts);
  }

  /** Every settled card was recorded by an enumeration of the current
      generation, after a call of that generation ended in a way asking again
      would repeat. */
  lemma SettledIsOfThisGeneration(acts: seq<Action>, card: Path)
    requires card in Run(acts).settled
    ensures Run(acts).settled[card] == Run(acts).generation
    ensures exists k: nat | k < |Run(acts).calls| ::
              Run(acts).calls[k] == Call(card, Run(acts).generation, Some(Failed(true)))
  {
    RunInv(acts);
    assert SettledIn(Run(acts), card);
  }

  predicate NoSignal(acts: seq<Action>) {
    forall i :: 0 <= i < |acts| ==> !acts[i].HandlerForgets?
  }

  predicate NotCalledSince(before: State, s: State, card: Path) {
    && |before.calls| <= |s.calls|
    && forall k: nat | |before.calls| <= k < |s.calls| :: s.calls[k].card != card
  }

  /** No call reads a settled card before the next signal is handled. */
  lemma {:induction false} SettledIsNotReadAgain(acts: seq<Action>, more: seq<Action>, card: Path)
    requires card in Run(acts).settled && NoSignal(more)
    ensures card in RunFrom(Run(acts), more).settled
    ensures NotCalledSince(Run(acts), RunFrom(Run(acts), more), card)
  {
    if more != [] {
      var last := more[|more| - 1];
      SettledIsNotReadAgain(acts, more[..|more| - 1], card);
      assert !last.HandlerForgets?;
      var s := RunFrom(Run(acts), more[..|more| - 1]);
      SettledCallsNothing(s, last, card);
      assert RunFrom(Run(acts), more) == Step(s, last);
    }
  }

  lemma SettledCallsNothing(s: State, a: Action, card: Path)
    requires card in s.settled && !a.HandlerForgets?
    ensures card in Step(s, a).settled
    ensures |s.calls| <= |Step(s, a).calls|
    ensures forall k: nat | k < |s.calls| :: Step(s, a).calls[k].card == s.calls[k].card
    ensures forall k: nat | |s.calls| <= k < |Step(s, a).calls| :: Step(s, a).calls[k].card != card
  {
    if a.TakeReader? || a.ReadEnds? || a.RecordSettled? {
    } else {
      assert Step(s, a).calls == s.calls && Step(s, a).settled == s.settled;
    }
  }

  const Unread := ReaderObject("/r", Mistyped, Absent)

  lemma OneMoreFrom(s: State, acts: seq<Action>, a: Action)
    ensures RunFrom(s, acts + [a]) == Step(RunFrom(s, acts), a)
  {
    assert (acts + [a])[..|acts|] == acts;
  }

  lemma OneMore(acts: seq<Action>, a: Action)
    ensures Run(acts + [a]) == Step(Run(acts), a)
  {
    OneMoreFrom(Init, acts, a);
  }

  const Fetched := [BeginSnapshot] + [TakeGeneration] + [GetManagedObjects(true)]

  // The first snapshot, of an agent without readers.
  const FirstRun := Fetched + [ReturnSnapshot] + [Store] + [MarkIncomplete]

  // Then one reader appears whose HasCard is not a boolean.
  const MistypedRun :=
    FirstRun + [AgentChanges([Unread])] + [HandlerForgets] + [HandlerMarks]
    + [BeginSnapshot] + [TakeGeneration] + [GetManagedObjects(true)] + [TakeReader]

  lemma FetchedRun()
    ensures Run(Fetched) ==
            Init.(dirty := false, phase := Enumerating(Snapshot(0, 0, Gathered([], [], [], true)), 0, NextReader))
  {
    OneMore([], BeginSnapshot);
    OneMore([BeginSnapshot], TakeGeneration);
    OneMore([BeginSnapshot] + [TakeGeneration], GetManagedObjects(true));
    assert [] + [BeginSnapshot] == [BeginSnapshot];
  }

  lemma FirstRunCaches()
    ensures Run(FirstRun) == Init.(dirty := false, cached := Snapshot(0, 0, Gathered([], [], [], true)))
  {
    FetchedRun();
    OneMore(Fetched, ReturnSnapshot);
    OneMore(Fetched + [ReturnSnapshot], Store);
    OneMore(Fetched + [ReturnSnapshot] + [Store], MarkIncomplete);
  }

  /** The exception leaves the mark cleared: with every signal handled, the
      cache still shows no reader, and serving it again changes nothing. */
  lemma MistypedReplyKeepsAStaleCache()
    ensures var s := Run(MistypedRun);
      && s.phase == Idle && !s.dirty && s.handled == s.emitted
      && s.agent == [Unread] && s.cached.what.objects == []
      && !Fresh(s) && Step(s, BeginSnapshot) == s
  {
    FirstRunCaches();
    var a := FirstRun;
    OneMore(a, AgentChanges([Unread]));
    a := a + [AgentChanges([Unread])];
    OneMore(a, HandlerForgets);
    OneMore(a + [HandlerForgets], HandlerMarks);
    a := a + [HandlerForgets] + [HandlerMarks];
    OneMore(a, BeginSnapshot);
    OneMore(a + [BeginSnapshot], TakeGeneration);
    a := a + [BeginSnapshot] + [TakeGeneration];
    OneMore(a, GetManagedObjects(true));
    OneMore(a + [GetManagedObjects(true)], TakeReader);
  }

  const EmptyReader := ReaderObject("/r", Typed(false), Typed("/"))
  const FullReader := ReaderObject("/r", Typed(true), Typed("/c"))

  // A card is announced and handled, and the reader is read, before its own
  // two properties change.
  const SilentRun :=
    [AgentChanges([EmptyReader])] + [HandlerForgets] + [HandlerMarks]
    + [BeginSnapshot] + [TakeGeneration] + [GetManagedObjects(true)] + [TakeReader] + [ReturnSnapshot]
    + [Store] + [MarkIncomplete] + [PropertiesChange([FullReader])]

  lemma SilentRunBegins()
    ensures Run([AgentChanges([EmptyReader])] + [HandlerForgets] + [HandlerMarks]
                + [BeginSnapshot] + [TakeGeneration]) ==
            Init.(agent := [EmptyReader], emitted := 1, handled := 1, generation := 1, dirty := false,
                  phase := Fetching(1, 1))
  {
    var a := [AgentChanges([EmptyReader])];
    OneMore([], AgentChanges([EmptyReader]));
    assert [] + a == a;
    OneMore(a, HandlerForgets);
    OneMore(a + [HandlerForgets], HandlerMarks);
    a := a + [HandlerForgets] + [HandlerMarks];
    OneMore(a, BeginSnapshot);
    OneMore(a + [BeginSnapshot], TakeGeneration);
  }

  lemma SilentRunReads()
    ensures Run(SilentRun[..8]) ==
            Init.(agent := [EmptyReader], emitted := 1, handled := 1, generation := 1, dirty := false,
                  phase := Storing(Snapshot(1, 1, Gathered([EmptyReader], [Slot("/r", false, [])], [NoCard], true))))
  {
    SilentRunBegins();
    var a := [AgentChanges([EmptyReader])] + [HandlerForgets] + [HandlerMarks] + [BeginSnapshot] + [TakeGeneration];
    OneMore(a, GetManagedObjects(true));
    OneMore(a + [GetManagedObjects(true)], TakeReader);
    a := a + [GetManagedObjects(true)] + [TakeReader];
    OneMore(a, ReturnSnapshot);
    assert [] + [Slot("/r", false, [])] == [Slot("/r", false, [])] && [] + [NoCard] == [NoCard];
    assert SilentRun[..8] == a + [ReturnSnapshot];
  }

  /** Nothing is marked, every signal is handled, nothing threw - and the cache
      shows an empty reader where there is a card, for as long as no signal
      comes. */
  lemma SilentChangeLeavesAStaleSlot()
    ensures var s := Run(SilentRun);
      && s.phase == Idle && !s.dirty && s.handled == s.emitted && !EndedMistyped(SilentRun) && Fresh(s)
      && s.cached.what.objects == [EmptyReader] && s.agent == [FullReader]
      && Step(s, BeginSnapshot) == s
  {
    SilentRunReads();
    ThrewIsEndedMistyped(SilentRun);
    var a := SilentRun[..8];
    OneMore(a, Store);
    OneMore(a + [Store], MarkIncomplete);
    OneMore(a + [Store] + [MarkIncomplete], PropertiesChange([FullReader]));
    assert SilentRun == a + [Store] + [MarkIncomplete] + [PropertiesChange([FullReader])];
  }

  predicate ClientAction(a: Action) {
    !a.AgentChanges? && !a.PropertiesChange? && !a.HandlerForgets? && !a.HandlerMarks?
  }

  // Only the client moved in between.
  predicate ClientMoved(before: seq<Action>, after: seq<Action>) {
    before <= after && forall i :: |before| <= i < |after| ==> ClientAction(after[i])
  }

  // What the module keeps between calls, as a state has it.
  predicate Holds(s: State, dirty: bool, cached: seq<Slot>, settled: set<Path>, generation: nat) {
    dirty == s.dirty && cached == s.cached.what.slots && settled == s.settled.Keys && generation == s.generation
  }

  // The enumeration left by an exception.
  predicate Left(s: State) {
    s.phase == Idle && s.threw
  }

  // The enumeration stands at the card of its next reader.
  predicate AtCard(s: State, objects: Objects, readGeneration: nat, slots: seq<Slot>, complete: bool) {
    && s.phase.Enumerating? && s.phase.readGeneration == readGeneration
    && s.phase.snap.what.objects == objects
    && s.phase.snap.what.slots == slots && s.phase.snap.what.complete == complete
    && |slots| < |objects| && CardOf(objects[|slots|]).Some?
  }

  lemma TakenReader(s: State, objects: Objects, readGeneration: nat, slots: seq<Slot>, complete: bool)
    requires AtReader(s, objects, readGeneration, slots, complete) && |slots| < |objects|
    ensures var r := objects[|slots|]; var s' := Step(s, TakeReader);
      && (!ReaderTyped(r) ==> Left(s'))
      && (ReaderTyped(r) && CardOf(r).None? ==>
            AtReader(s', objects, readGeneration, slots + [Slot(r.path, r.hasCard == Typed(true), [])], complete))
      && (ReaderTyped(r) && CardOf(r).Some? ==>
            AtCard(s', objects, readGeneration, slots, complete)
            && if CardOf(r).value in s.settled then IsRecording(s') else IsReading(s'))
  {
  }

  lemma EndedRead(s: State, result: ReadResult, objects: Objects, readGeneration: nat, slots: seq<Slot>, complete: bool)
    requires AtCard(s, objects, readGeneration, slots, complete) && IsReading(s)
    ensures var r := objects[|slots|]; var s' := Step(s, ReadEnds(result));
      match result
      case Certs(rows) =>
        if RowsTyped(rows) then
          AtReader(s', objects, readGeneration, slots + [Slot(r.path, r.hasCard == Typed(true), Usable(rows))],
                  complete)
        else Left(s')
      case Failed(settles) =>
        if settles then AtCard(s', objects, readGeneration, slots, complete) && IsRecording(s')
        else AtReader(s', objects, readGeneration, slots + [Slot(r.path, r.hasCard == Typed(true), [])], false)
  {
  }

  lemma RecordedReader(s: State, objects: Objects, readGeneration: nat, slots: seq<Slot>, complete: bool)
    requires AtCard(s, objects, readGeneration, slots, complete) && IsRecording(s) && !s.phase.stage.result.Refused?
    ensures var r := objects[|slots|];
      AtReader(Step(s, RecordSettled), objects, readGeneration, slots + [Slot(r.path, r.hasCard == Typed(true), [])],
              complete)
  {
  }

  // The enumeration stands before its next reader.
  predicate AtReader(s: State, objects: Objects, readGeneration: nat, slots: seq<Slot>, complete: bool) {
    && s.phase.Enumerating? && s.phase.stage == NextReader && s.phase.readGeneration == readGeneration
    && s.phase.snap.what.objects == objects
    && s.phase.snap.what.slots == slots && s.phase.snap.what.complete == complete
  }

  /** What the module keeps between calls (DBusAgentClient::Impl). */
  class Client {
    var dirty: bool
    var cached: seq<Slot>
    var settledCards: set<Path>
    var generation: nat

    ghost var trail: seq<Action>   // the steps taken so far, by the agent and the handlers too

    ghost function View(): State
      reads this
    {
      Run(trail)
    }

    ghost predicate Valid()
      reads this
    {
      Holds(View(), dirty, cached, settledCards, generation)
    }

    constructor ()
      ensures Valid() && trail == []
    {
      dirty, cached, settledCards, generation, trail := true, [], {}, 0, [];
    }

    ghost method Took(a: Action)
      requires Holds(Step(View(), a), dirty, cached, settledCards, generation)
      modifies `trail
      ensures Valid() && trail == old(trail) + [a] && View() == Step(old(View()), a)
      ensures ClientAction(a) ==> ClientMoved(old(trail), trail)
    {
      OneMore(trail, a);
      trail := trail + [a];
    }

    method ForgetSettled()
      requires Valid() && !View().forgot && View().handled < View().emitted
      modifies this
      ensures Valid() && trail == old(trail) + [HandlerForgets]
    {
      settledCards := {};
      generation := generation + 1;
      Took(HandlerForgets);
    }

    method MarkDirty()
      requires Valid() && View().forgot
      modifies this
      ensures Valid() && trail == old(trail) + [HandlerMarks]
    {
      dirty := true;
      Took(HandlerMarks);
    }

    method Settle(card: Path, readGeneration: nat)
      requires Valid() && IsRecording(View()) && readGeneration == View().phase.readGeneration
      requires CardOf(View().phase.snap.what.objects[|View().phase.snap.what.slots|]) == Some(card)
      modifies `settledCards, `trail
      ensures Valid() && trail == old(trail) + [RecordSettled] && View() == Step(old(View()), RecordSettled)
      ensures settledCards == old(settledCards) + if readGeneration == generation then {card} else {}
    {
      if readGeneration == generation {
        settledCards := settledCards + {card};
      }
      Took(RecordSettled);
    }

    // The certificates certEntryFrom keeps; a name of another type throws.
    method KeepUsable(rows: seq<CertRow>) returns (certs: seq<string>, failed: bool)
      ensures failed <==> exists i :: 0 <= i < |rows| && rows[i].cn.Mistyped?
      ensures !failed ==> certs == Usable(rows) && KeptRows(rows, certs)
    {
      certs, failed := [], false;
      for i := 0 to |rows|
        invariant certs == Usable(rows[..i])
        invariant forall j :: 0 <= j < i ==> !rows[j].cn.Mistyped?
      {
        if rows[i].cn.Mistyped? {
          return certs, true;
        }
        if rows[i].usable {
          certs := certs + [rows[i].id];
        }
        assert rows[..i + 1][..i] == rows[..i];
      }
      assert rows[..|rows|] == rows;
      UsableIsKept(rows);
    }

    // readCerts, and what the loop makes of its three outcomes.
    method ReadCerts(r: ReaderObject, ghost objects: Objects, readGeneration: nat, ghost slots: seq<Slot>,
                     ghost complete: bool, read: Path -> ReadResult)
      returns (askAgain: bool, failed: bool, slot: Slot)
      requires Valid() && AtCard(View(), objects, readGeneration, slots, complete) && IsReading(View())
      requires r == objects[|slots|]
      modifies `settledCards, `trail
      ensures Valid() && ClientMoved(old(trail), trail)
      ensures failed ==> Left(View())
      ensures !failed ==>
                AtReader(View(), objects, readGeneration, slots + [slot], complete && !askAgain)
      ensures slot.reader == r.path && slot.hasCard && r.card.Typed?
      ensures match read(r.card.value)
              case Certs(rows) =>
                !askAgain && (failed <==> exists i :: 0 <= i < |rows| && rows[i].cn.Mistyped?)
                && (!failed ==> KeptRows(rows, slot.certs))
              case Failed(settles) => !failed && askAgain == !settles && slot.certs == []
    {
      askAgain, failed, slot := false, false, Slot(r.path, r.hasCard == Typed(true), []);
      var result := read(CardOf(r).value);
      EndedRead(View(), result, objects, readGeneration, slots, complete);
      Took(ReadEnds(result));
      match result {
        case Certs(rows) =>
          var certs;
          certs, failed := KeepUsable(rows);
          slot := slot.(certs := certs);
        case Failed(settles) =>
          if settles {
            RecordedReader(View(), objects, readGeneration, slots, complete);
            Settle(CardOf(r).value, readGeneration);
          } else {
            askAgain := true;
          }
      }
    }

    // One turn of the first pass; `askAgain` when the read failed on the way.
    method Visit(r: ReaderObject, ghost objects: Objects, readGeneration: nat, ghost slots: seq<Slot>,
                 ghost complete: bool, read: Path -> ReadResult)
      returns (askAgain: bool, failed: bool, slot: Slot)
      requires Valid() && AtReader(View(), objects, readGeneration, slots, complete)
      requires |slots| < |objects| && r == objects[|slots|]
      modifies `settledCards, `trail
      ensures Valid() && ClientMoved(old(trail), trail)
      ensures failed ==> Left(View())
      ensures !failed ==>
                AtReader(View(), objects, readGeneration, slots + [slot], complete && !askAgain)
    {
      askAgain, failed, slot := false, false, Slot(r.path, r.hasCard == Typed(true), []);
      var known := CardOf(r).Some? && CardOf(r).value in settledCards;
      TakenReader(View(), objects, readGeneration, slots, complete);
      Took(TakeReader);
      if !ReaderTyped(r) {
        failed := true;
      } else if CardOf(r).Some? {
        if known {
          RecordedReader(View(), objects, readGeneration, slots, complete);
          Settle(CardOf(r).value, readGeneration);
        } else {
          askAgain, failed, slot := ReadCerts(r, objects, readGeneration, slots, complete, read);
        }
      }
    }

    // enumerate, with no signal handled meanwhile: the agent answers `objects`,
    // a card's read ends as `read` says.
    method Enumerate(objects: Option<Objects>, read: Path -> ReadResult)
      returns (slots: seq<Slot>, complete: bool, failed: bool)
      requires Valid() && View().phase.Begun? && (objects.Some? ==> objects.value == View().agent)
      modifies `settledCards, `trail
      ensures Valid() && ClientMoved(old(trail), trail)
      ensures failed ==> Left(View())
      ensures !failed ==> View().phase.Storing? && slots == View().phase.snap.what.slots
                          && complete == View().phase.snap.what.complete && !View().threw
      ensures !failed && objects.Some? ==>
                View().phase.snap.what.objects == objects.value && (slots == [] ==> complete)
      ensures objects.None? ==> !failed && slots == [] && !complete
    {
      slots, complete, failed := [], false, false;
      var readGeneration := generation;
      Took(TakeGeneration);
      Took(GetManagedObjects(objects.Some?));
      if objects.None? {
        return;
      }
      complete := true;
      while |slots| < |objects.value|
        invariant |slots| <= |objects.value| && (slots == [] ==> complete)
        invariant Valid() && ClientMoved(old(trail), trail)
        invariant AtReader(View(), objects.value, readGeneration, slots, complete)
      {
        var askAgain, slot;
        askAgain, failed, slot :=
          Visit(objects.value[|slots|], objects.value, readGeneration, slots, complete, read);
        if failed {
          return;
        }
        complete := complete && !askAgain;
        slots := slots + [slot];
      }
      Took(ReturnSnapshot);
    }

    // snapshot(): None when the enumeration threw.
    method TakeSnapshot(objects: Option<Objects>, read: Path -> ReadResult) returns (result: Option<seq<Slot>>)
      requires Valid() && View().phase == Idle && (objects.Some? ==> objects.value == View().agent)
      modifies this
      ensures Valid() && ClientMoved(old(trail), trail) && View().phase == Idle
      ensures !old(dirty) ==> result == Some(old(cached)) && trail == old(trail)
      ensures old(dirty) ==> (result == None <==> EndedMistyped(trail))
      ensures old(dirty) && result.Some? ==> result.value == cached && dirty == !View().cached.what.complete
      ensures old(dirty) && result.Some? && objects.Some? ==>
                Shows(View().cached.what, View().calls) && View().cached.what.objects == objects.value
      ensures old(dirty) && objects.None? ==> result == Some([]) && dirty
      ensures old(dirty) && result == None ==> !dirty && cached == old(cached)
    {
      if !dirty {
        return Some(cached);
      }
      dirty := false;
      Took(BeginSnapshot);
      var slots, complete, failed := Enumerate(objects, read);
      if failed {
        ThrewIsEndedMistyped(trail);
        return None;
      }
      Keep(slots, complete);
      ThrewIsEndedMistyped(trail);
      CacheShowsItsReads(trail);
      result := Some(slots);
    }

    // The end of snapshot(): an incomplete cache is asked for again.
    method Keep(slots: seq<Slot>, complete: bool)
      requires Valid() && View().phase.Storing?
      requires slots == View().phase.snap.what.slots && complete == View().phase.snap.what.complete
      modifies `cached, `dirty, `trail
      ensures Valid() && trail == old(trail) + [Store] + [MarkIncomplete]
      ensures View().phase == Idle && View().threw == old(View().threw)
      ensures cached == slots && dirty == (old(dirty) || !complete) && View().cached == old(View()).phase.snap
      ensures View().cached.what.complete == complete && View().calls == old(View()).calls
    {
      cached := slots;
      Took(Store);
      if !complete {
        dirty := true;
      }
      Took(MarkIncomplete);
    }
  }
}
