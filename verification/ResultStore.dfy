/**
 Delivery of operation results: sealing every artifact into a file of its own,
 publishing the recovery store, signalling, and serving the store again.
 */
module ResultStore {
  import opened Wrappers

  type Bytes = seq<bv8>
  type Files = map<int, Bytes>

  // -- The process's file descriptors --

  predicate Holds(fds: seq<int>, fd: int) {
    exists i :: 0 <= i < |fds| && fds[i] == fd
  }

  predicate Distinct(fds: seq<int>) {
    forall i, j :: 0 <= i < j < |fds| ==> fds[i] != fds[j]
  }

  // `after` is `before` and then one more file for each of fds.
  ghost predicate Opened(before: Files, after: Files, fds: seq<int>)
    decreases |fds|
  {
    if fds == [] then after == before
    else
      var last := fds[|fds| - 1];
      last >= 0 && last in after && Opened(before, after - {last}, fds[..|fds| - 1])
  }

  /** Said at once: fds are different descriptors, none of them open before, and
      nothing else was opened, closed or changed. */
  lemma {:induction false} OpenedMeans(before: Files, after: Files, fds: seq<int>)
    requires Opened(before, after, fds)
    ensures Distinct(fds)
    ensures forall i :: 0 <= i < |fds| ==> fds[i] >= 0 && fds[i] !in before
    ensures forall fd: int :: fd in after <==> fd in before || Holds(fds, fd)
    ensures forall fd: int | fd in before :: after[fd] == before[fd]
    decreases |fds|
  {
    if fds != [] {
      var most, last := fds[..|fds| - 1], fds[|fds| - 1];
      OpenedMeans(before, after - {last}, most);
      assert fds == most + [last];
      forall fd: int
        ensures Holds(fds, fd) <==> Holds(most, fd) || fd == last
      {
        HoldsOneMore(most, last, fd);
      }
      forall i | 0 <= i < |most|
        ensures most[i] != last
      {
        assert Holds(most, most[i]);
      }
    }
  }

  function Without(files: Files, fds: seq<int>): Files {
    map fd: int | fd in files && !Holds(fds, fd) :: files[fd]
  }

  lemma ClosingUndoesOpening(before: Files, after: Files, fds: seq<int>)
    requires Opened(before, after, fds)
    ensures Without(after, fds) == before
  {
    OpenedMeans(before, after, fds);
    forall fd: int | fd in before
      ensures fd in Without(after, fds)
    {
      assert fd in after;
    }
    assert Without(after, fds).Keys == before.Keys;
  }

  lemma HoldsOneMore(fds: seq<int>, last: int, fd: int)
    ensures Holds(fds + [last], fd) <==> Holds(fds, fd) || fd == last
  {
    var longer := fds + [last];
    if Holds(fds, fd) {
      var i :| 0 <= i < |fds| && fds[i] == fd;
      assert longer[i] == fd;
    }
    assert longer[|fds|] == last;
  }

  lemma OpenedOneMore(before: Files, after: Files, fds: seq<int>, fd: int, bytes: Bytes)
    requires Opened(before, after, fds) && fd >= 0 && fd !in after
    ensures Opened(before, after[fd := bytes], fds + [fd])
  {
    assert (fds + [fd])[..|fds|] == fds && after[fd := bytes] - {fd} == after;
  }

  lemma WithoutOneMore(files: Files, fds: seq<int>, fd: int)
    ensures Without(files, fds + [fd]) == Without(files, fds) - {fd}
  {
    var longer := fds + [fd];
    forall f: int
      ensures Holds(longer, f) <==> Holds(fds, f) || f == fd
    {
      HoldsOneMore(fds, fd, f);
    }
  }

  class Kernel {
    var files: Files

    constructor ()
      ensures files == map[]
    {
      files := map[];
    }

    // The seal primitive: a fresh sealed memfd with the lowest free number, or -1.
    method Seal(bytes: Bytes, ok: bool) returns (fd: int)
      modifies this
      ensures ok ==> fd >= 0 && fd !in old(files) && files == old(files)[fd := bytes]
      ensures !ok ==> fd == -1 && files == old(files)
    {
      if !ok {
        return -1;
      }
      fd := 0;
      ghost var taken := files.Keys;
      while fd in files
        invariant fd >= 0 && taken == set f | f in files && (f < 0 || f >= fd)
        invariant files == old(files)
        decreases taken
      {
        taken := taken - {fd};
        fd := fd + 1;
      }
      files := files[fd := bytes];
    }

    method Close(fd: int)
      modifies this
      ensures files == old(files) - {fd}
    {
      files := files - {fd};
    }

    // closeAll, and the destructors of a container of owned descriptors.
    method CloseAll(fds: seq<int>)
      modifies this
      ensures files == Without(old(files), fds)
    {
      var i := 0;
      while i < |fds|
        invariant 0 <= i <= |fds|
        invariant files == Without(old(files), fds[..i])
      {
        assert fds[..i + 1] == fds[..i] + [fds[i]];
        WithoutOneMore(old(files), fds[..i], fds[i]);
        Close(fds[i]);
        i := i + 1;
      }
      assert fds[..i] == fds;
    }
  }

  // -- Payloads and their stores --

  datatype SignMeta = SignMeta(format: string, level: string, tsaUsed: bool, chainComplete: bool)
  datatype SignedArtifact = SignedArtifact(bytes: Bytes, meta: SignMeta)
  datatype BatchRow = BatchRow(displayName: string, bytes: Bytes, meta: SignMeta, code: nat)
  datatype Photo = Photo(key: string, bytes: Bytes)

  // A signalled or returned row: the artifact is what its descriptor reads as.
  datatype SealedBatchRow = SealedBatchRow(displayName: string, fd: int, meta: SignMeta, code: nat)

  // What GetResult and the Result signal of each kind carry.
  datatype ResultPayload =
    | SignPayload(artifact: SignedArtifact)
    | BatchPayload(rows: seq<BatchRow>)
    | PhotoPayload(photos: seq<Photo>)
    | OtherPayload

  // How the copy of a payload into the store ends; one that runs out of memory
  // may leave something in between there.
  datatype Copy<T> = Copied | CopyFailed(left: T)

  class Store<Payload(0)> {
    var ready: bool
    var payload: Payload

    constructor ()
      ensures !ready
    {
      ready := false;
      payload := *;
    }

    // What a reader is served.
    function Served(): Option<Payload>
      reads this
    {
      if ready then Some(payload) else None
    }

    // publishResult: readiness comes last, so a copy that failed makes nothing
    // ready. What was served before is still served, and the same, if and only
    // if nothing was, or the copy left the stored payload as it found it.
    method Publish(value: Payload, copy: Copy<Payload>) returns (published: bool)
      modifies this
      ensures published == copy.Copied? && ready == (old(ready) || published)
      ensures payload == if published then value else copy.left
      ensures !published ==> (Served() == old(Served()) <==> !old(ready) || copy.left == old(payload))
    {
      if copy.CopyFailed? {
        payload := copy.left;
        return false;
      }
      payload := value;
      ready := true;
      published := true;
    }

    // readStoredResult
    method Read() returns (value: Option<Payload>)
      ensures value == Served()
    {
      value := if ready then Some(payload) else None;
    }
  }

  // -- The batch of signed documents --

  function Fds(sealed: seq<SealedBatchRow>): (fds: seq<int>)
    ensures |fds| == |sealed| && forall i :: 0 <= i < |fds| ==> fds[i] == sealed[i].fd
  {
    seq(|sealed|, i requires 0 <= i < |sealed| => sealed[i].fd)
  }

  // Row by row, in order: the same name, meta and code, and a descriptor that
  // reads as the row's bytes.
  predicate Carries(files: Files, sealed: seq<SealedBatchRow>, rows: seq<BatchRow>) {
    && |sealed| == |rows|
    && forall i :: 0 <= i < |rows| ==>
         && sealed[i].displayName == rows[i].displayName
         && sealed[i].meta == rows[i].meta && sealed[i].code == rows[i].code
         && sealed[i].fd in files && files[sealed[i].fd] == rows[i].bytes
  }

  lemma CarriesOneMore(before: Files, sealed: seq<SealedBatchRow>, rows: seq<BatchRow>, row: BatchRow, fd: int)
    requires Carries(before, sealed, rows) && fd !in before
    ensures Fds(sealed + [Sealed(row, fd)]) == Fds(sealed) + [fd]
    ensures Carries(before[fd := row.bytes], sealed + [Sealed(row, fd)], rows + [row])
  {
  }

  function Sealed(row: BatchRow, fd: int): SealedBatchRow {
    SealedBatchRow(row.displayName, fd, row.meta, row.code)
  }

  // One open descriptor for each of these rows.
  ghost predicate RowsSoFar(start: Files, files: Files, sealed: seq<SealedBatchRow>, rows: seq<BatchRow>) {
    Opened(start, files, Fds(sealed)) && Carries(files, sealed, rows)
  }

  lemma RowSealed(start: Files, before: Files, sealed: seq<SealedBatchRow>, rows: seq<BatchRow>, i: nat, fd: int)
    requires i < |rows| && RowsSoFar(start, before, sealed, rows[..i]) && fd >= 0 && fd !in before
    ensures RowsSoFar(start, before[fd := rows[i].bytes], sealed + [Sealed(rows[i], fd)], rows[..i + 1])
  {
    OpenedOneMore(start, before, Fds(sealed), fd, rows[i].bytes);
    CarriesOneMore(before, sealed, rows[..i], rows[i], fd);
    assert rows[..i + 1] == rows[..i] + [rows[i]];
  }

  // The loop both batch functions run: every row sealed, or nothing left open.
  method SealRows(k: Kernel, rows: seq<BatchRow>, seals: int -> bool) returns (sealed: Option<seq<SealedBatchRow>>)
    modifies k
    ensures sealed.Some? <==> forall i :: 0 <= i < |rows| ==> seals(i)
    ensures sealed.Some? ==> Opened(old(k.files), k.files, Fds(sealed.value)) && Carries(k.files, sealed.value, rows)
    ensures sealed.None? ==> k.files == old(k.files)
  {
    var done: seq<SealedBatchRow> := [];
    for i := 0 to |rows|
      invariant RowsSoFar(old(k.files), k.files, done, rows[..i])
      invariant forall j :: 0 <= j < i ==> seals(j)
    {
      ghost var before := k.files;
      var fd := k.Seal(rows[i].bytes, seals(i));
      if fd < 0 {
        ClosingUndoesOpening(old(k.files), k.files, Fds(done));
        k.CloseAll(Fds(done));
        return None;
      }
      RowSealed(old(k.files), before, done, rows, i, fd);
      done := done + [Sealed(rows[i], fd)];
    }
    assert rows[..|rows|] == rows;
    sealed := Some(done);
  }

  // Seal first, publish after: one open descriptor per row and a ready store,
  // or no descriptor and no store made ready.
  method PublishSealedSignBatchResult(k: Kernel, state: Store<seq<BatchRow>>, rows: seq<BatchRow>, seals: int -> bool,
                                      copy: Copy<seq<BatchRow>>)
    returns (sealed: Option<seq<SealedBatchRow>>)
    modifies k, state
    ensures sealed.Some? <==> copy.Copied? && forall i :: 0 <= i < |rows| ==> seals(i)
    ensures sealed.Some? ==>
              && Opened(old(k.files), k.files, Fds(sealed.value)) && Carries(k.files, sealed.value, rows)
              && state.ready && state.payload == rows
    ensures sealed.None? ==> k.files == old(k.files) && state.ready == old(state.ready)
    ensures sealed.None? ==>
              (state.Served() == old(state.Served()) <==>
                 || !old(state.ready) || !(forall i :: 0 <= i < |rows| ==> seals(i)) || copy.left == old(state.payload))
  {
    sealed := SealRows(k, rows, seals);
    if sealed.None? {
      return;
    }
    var published := state.Publish(rows, copy);
    if !published {
      ClosingUndoesOpening(old(k.files), k.files, Fds(sealed.value));
      k.CloseAll(Fds(sealed.value));
      sealed := None;
    }
  }

  // Fresh descriptors with the stored contents, or none; the store stays.
  method SealStoredSignBatchResult(k: Kernel, state: Store<seq<BatchRow>>, seals: int -> bool)
    returns (sealed: Option<seq<SealedBatchRow>>)
    modifies k
    ensures sealed.Some? <==> state.ready && forall i :: 0 <= i < |state.payload| ==> seals(i)
    ensures sealed.Some? ==>
              Opened(old(k.files), k.files, Fds(sealed.value)) && Carries(k.files, sealed.value, state.payload)
    ensures sealed.None? ==> k.files == old(k.files)
  {
    if !state.ready {
      return None;
    }
    sealed := SealRows(k, state.payload, seals);
  }

  // Moving every descriptor into the wire rows failed at row i: its own, those
  // still parked behind it and those already moved are all of them.
  lemma EveryFdIsSomewhere(fds: seq<int>, rest: seq<int>, i: nat, fd: int)
    requires i < |fds| == |rest| && (forall j :: 0 <= j < |fds| ==> fds[j] >= 0)
    requires forall j :: 0 <= j < |fds| ==> rest[j] == if j <= i then -1 else fds[j]
    ensures Holds(fds, fd) <==> fd == fds[i] || Holds(fds[..i], fd) || (fd >= 0 && Holds(rest, fd))
  {
    if Holds(fds, fd) {
      var j :| 0 <= j < |fds| && fds[j] == fd;
      if j < i {
        assert fds[..i][j] == fd;
      } else if j > i {
        assert rest[j] == fd;
      }
    }
    if Holds(fds[..i], fd) {
      var j :| 0 <= j < |fds[..i]| && fds[..i][j] == fd;
      assert fds[j] == fd;
    }
    if fd >= 0 && Holds(rest, fd) {
      var j :| 0 <= j < |rest| && rest[j] == fd;
      assert fds[j] == fd;
    }
  }

  // Without the descriptors not handed over yet: the others are marked -1.
  function WithoutParked(files: Files, rest: seq<int>): Files {
    map fd: int | fd in files && !(fd >= 0 && Holds(rest, fd)) :: files[fd]
  }

  method CloseRest(k: Kernel, rest: seq<int>)
    modifies k
    ensures k.files == WithoutParked(old(k.files), rest)
  {
    for j := 0 to |rest|
      invariant k.files == map fd: int | fd in old(k.files) && !(fd >= 0 && Holds(rest[..j], fd)) :: old(k.files)[fd]
    {
      assert rest[..j + 1] == rest[..j] + [rest[j]];
      WithoutOneMore(old(k.files), rest[..j], rest[j]);
      forall fd: int
        ensures Holds(rest[..j + 1], fd) <==> Holds(rest[..j], fd) || fd == rest[j]
      {
        HoldsOneMore(rest[..j], rest[j], fd);
      }
      if rest[j] >= 0 {
        k.Close(rest[j]);
      }
    }
    assert rest[..|rest|] == rest;
  }

  // The wire rows of a message: each descriptor adopted in turn; when building
  // one fails, nothing stays open.
  method BuildWire(k: Kernel, sealed: seq<SealedBatchRow>, marshals: int -> bool)
    returns (wire: Option<seq<SealedBatchRow>>)
    requires forall i :: 0 <= i < |sealed| ==> sealed[i].fd >= 0
    modifies k
    ensures wire.Some? <==> forall i :: 0 <= i < |sealed| ==> marshals(i)
    ensures wire.Some? ==> wire.value == sealed && k.files == old(k.files)
    ensures wire.None? ==> k.files == Without(old(k.files), Fds(sealed))
  {
    var fds := Fds(sealed);
    var rest := fds;
    var built: seq<SealedBatchRow> := [];
    for i := 0 to |sealed|
      invariant k.files == old(k.files) && built == sealed[..i] && |rest| == |sealed|
      invariant forall j :: 0 <= j < |sealed| ==> rest[j] == if j < i then -1 else fds[j]
      invariant forall j :: 0 <= j < i ==> marshals(j)
    {
      var owned := rest[i];
      rest := rest[i := -1];
      if !marshals(i) {
        k.Close(owned);
        CloseRest(k, rest);
        assert Fds(built) == fds[..i];
        k.CloseAll(Fds(built));
        forall fd: int
          ensures Holds(fds, fd) <==> fd == fds[i] || Holds(fds[..i], fd) || (fd >= 0 && Holds(rest, fd))
        {
          EveryFdIsSomewhere(fds, rest, i, fd);
        }
        return None;
      }
      built := built + [sealed[i].(fd := owned)];
    }
    wire := Some(built);
  }

  // What the receiver of a message reads.
  function ReadRows(files: Files, wire: seq<SealedBatchRow>): seq<BatchRow>
    requires forall i :: 0 <= i < |wire| ==> wire[i].fd in files
  {
    seq(|wire|, i requires 0 <= i < |wire| =>
      BatchRow(wire[i].displayName, files[wire[i].fd], wire[i].meta, wire[i].code))
  }

  class SignBatchChannel {
    const state: Store<seq<BatchRow>>
    var signals: seq<seq<BatchRow>>   // as the bus delivered them

    constructor ()
      ensures fresh(state) && !state.ready && signals == []
    {
      state := new Store();
      signals := [];
    }

    // Sealed and published, the operation ends Ok whatever becomes of the
    // signal; nothing stays open here either way. It returns true exactly when
    // the store is ready afterwards, if and only if a batch was published or
    // found the store unready, or another payload found it ready.
    method EmitResult(k: Kernel, r: ResultPayload, seals: int -> bool, copy: Copy<seq<BatchRow>>, marshals: int -> bool,
                      sends: bool)
      returns (ok: bool)
      modifies this, k, state
      ensures k.files == old(k.files)
      ensures !r.BatchPayload? ==> ok && state.ready == old(state.ready) && state.payload == old(state.payload)
      ensures r.BatchPayload? ==> (ok <==> copy.Copied? && forall i :: 0 <= i < |r.rows| ==> seals(i))
      ensures r.BatchPayload? && ok ==>
                && state.ready && state.payload == r.rows
                && signals == if sends && (forall i :: 0 <= i < |r.rows| ==> marshals(i)) then old(signals) + [r.rows]
                              else old(signals)
      ensures !(r.BatchPayload? && ok) ==> signals == old(signals) && state.ready == old(state.ready)
      ensures (ok <==> state.ready) <==>
              if r.BatchPayload? then (copy.Copied? && forall i :: 0 <= i < |r.rows| ==> seals(i)) || !old(state.ready)
              else old(state.ready)
      ensures !ok ==>
                (state.Served() == old(state.Served()) <==>
                   || !old(state.ready) || !(forall i :: 0 <= i < |r.rows| ==>
                           seals(i)) || copy.left == old(state.payload))
    {
      if !r.BatchPayload? {
        return true;
      }
      var sealed := PublishSealedSignBatchResult(k, state, r.rows, seals, copy);
      if sealed.None? {
        return false;
      }
      OpenedMeans(old(k.files), k.files, Fds(sealed.value));
      ClosingUndoesOpening(old(k.files), k.files, Fds(sealed.value));
      var wire := BuildWire(k, sealed.value, marshals);
      if wire.Some? {
        if sends {
          assert ReadRows(k.files, wire.value) == r.rows;
          signals := signals + [ReadRows(k.files, wire.value)];
        }
        k.CloseAll(Fds(wire.value));
      }
      ok := true;
    }

    // One fresh descriptor for every row of the published batch, or NoResult.
    method GetResult(k: Kernel, seals: int -> bool, marshals: int -> bool) returns (reply: Option<seq<SealedBatchRow>>)
      modifies k
      ensures reply.Some? ==> state.ready
      ensures state.ready ==>
                (reply.Some? <==> forall i :: 0 <= i < |state.payload| ==> seals(i) && marshals(i))
      ensures reply.Some? ==>
                Opened(old(k.files), k.files, Fds(reply.value)) && Carries(k.files, reply.value, state.payload)
      ensures reply.None? ==> k.files == old(k.files)
    {
      var sealed := SealStoredSignBatchResult(k, state, seals);
      if sealed.None? {
        return None;
      }
      OpenedMeans(old(k.files), k.files, Fds(sealed.value));
      ClosingUndoesOpening(old(k.files), k.files, Fds(sealed.value));
      reply := BuildWire(k, sealed.value, marshals);
    }
  }

  // -- The signed document --

  // The artifact is copied in two assignments, the bytes before the metadata.
  datatype SignCopy = AllCopied | BytesFailed(leftBytes: Bytes) | MetaFailed(leftMeta: SignMeta)

  // A failed copy leaves the stored artifact alone.
  predicate LeavesAlone(before: SignedArtifact, artifact: SignedArtifact, copy: SignCopy) {
    match copy
    case AllCopied => false
    case BytesFailed(left) => left == before.bytes
    case MetaFailed(left) => artifact.bytes == before.bytes && left == before.meta
  }

  // Seal first; a copy that ran out of memory closes what was sealed and makes
  // nothing ready.
  method PublishSealedResult(k: Kernel, state: Store<SignedArtifact>, artifact: SignedArtifact, seals: bool,
          copy: SignCopy)
    returns (fd: int)
    modifies k, state
    ensures fd >= 0 <==> seals && copy.AllCopied?
    ensures fd >= 0 ==>
              && fd !in old(k.files) && k.files == old(k.files)[fd := artifact.bytes]
              && state.ready && state.payload == artifact
    ensures fd < 0 ==> k.files == old(k.files) && state.ready == old(state.ready)
    ensures !seals ==> state.payload == old(state.payload)
    ensures seals && copy.BytesFailed? ==>
              state.payload.bytes == copy.leftBytes && state.payload.meta == old(state.payload.meta)
    ensures seals && copy.MetaFailed? ==>
              state.payload.bytes == artifact.bytes && state.payload.meta == copy.leftMeta
    ensures fd < 0 ==>
              (state.Served() == old(state.Served()) <==>
                 !old(state.ready) || !seals || LeavesAlone(old(state.payload), artifact, copy))
  {
    fd := k.Seal(artifact.bytes, seals);
    if fd < 0 {
      return -1;
    }
    match copy {
      case BytesFailed(left) =>
        state.payload := state.payload.(bytes := left);
        k.Close(fd);
        return -1;
      case MetaFailed(left) =>
        state.payload := state.payload.(bytes := artifact.bytes);
        state.payload := state.payload.(meta := left);
        k.Close(fd);
        return -1;
      case AllCopied =>
        state.payload := state.payload.(bytes := artifact.bytes);
        state.payload := state.payload.(meta := artifact.meta);
        state.ready := true;
    }
  }

  // A fresh descriptor of the stored artifact, or -1.
  method SealStoredResult(k: Kernel, state: Store<SignedArtifact>, seals: bool) returns (fd: int)
    modifies k
    ensures fd >= 0 <==> state.ready && seals
    ensures fd >= 0 ==> fd !in old(k.files) && k.files == old(k.files)[fd := state.payload.bytes]
    ensures fd < 0 ==> k.files == old(k.files)
  {
    if !state.ready {
      return -1;
    }
    fd := k.Seal(state.payload.bytes, seals);
  }

  class SignChannel {
    const state: Store<SignedArtifact>
    var signals: seq<SignedArtifact>

    constructor ()
      ensures fresh(state) && !state.ready && signals == []
    {
      state := new Store();
      signals := [];
    }

    // sealPublishAndEmitSignResult: closed while unsealed, open once sealed,
    // even if sending the signal throws. It returns true exactly when the store
    // is ready afterwards, if and only if an artifact was published or found the
    // store unready, or another payload found it ready.
    method EmitResult(k: Kernel, r: ResultPayload, seals: bool, copy: SignCopy, sends: bool) returns (ok: bool)
      modifies this, k, state
      ensures k.files == old(k.files)
      ensures ok <==> !r.SignPayload? || (seals && copy.AllCopied?)
      ensures r.SignPayload? && ok ==>
                state.ready && state.payload == r.artifact
                && signals == if sends then old(signals) + [r.artifact] else old(signals)
      ensures !(r.SignPayload? && ok) ==> signals == old(signals) && state.ready == old(state.ready)
      ensures !r.SignPayload? || !seals ==> state.payload == old(state.payload)
      ensures r.SignPayload? && seals && copy.BytesFailed? ==>
                state.payload.bytes == copy.leftBytes && state.payload.meta == old(state.payload.meta)
      ensures r.SignPayload? && seals && copy.MetaFailed? ==>
                state.payload.bytes == r.artifact.bytes && state.payload.meta == copy.leftMeta
      ensures (ok <==> state.ready) <==>
              if r.SignPayload? then (seals && copy.AllCopied?) || !old(state.ready) else old(state.ready)
      ensures !(r.SignPayload? && ok) ==>
                (state.Served() == old(state.Served()) <==>
                   || !r.SignPayload? || !old(state.ready) || !seals
                   || LeavesAlone(old(state.payload), r.artifact, copy))
    {
      if !r.SignPayload? {
        return true;
      }
      var fd := PublishSealedResult(k, state, r.artifact, seals, copy);
      if fd < 0 {
        return false;
      }
      if sends {
        signals := signals + [SignedArtifact(k.files[fd], r.artifact.meta)];
      }
      k.Close(fd);
      ok := true;
    }

    // The published artifact behind a fresh descriptor, or NoResult.
    method GetResult(k: Kernel, seals: bool) returns (reply: Option<(int, SignMeta)>)
      modifies k
      ensures reply.Some? <==> state.ready && seals
      ensures reply.Some? ==>
                && reply.value.0 !in old(k.files)
                && k.files == old(k.files)[reply.value.0 := state.payload.bytes]
                && reply.value.1 == state.payload.meta
      ensures reply.None? ==> k.files == old(k.files)
    {
      var fd := SealStoredResult(k, state, seals);
      reply := if fd < 0 then None else Some((fd, state.payload.meta));
    }
  }

  // A second publication whose metadata could not be copied reports failure,
  // and GetResult serves the new bytes with the old metadata: a document nobody
  // signed that way.
  method FailedCopyServesAMix(k: Kernel, first: SignedArtifact, second: SignedArtifact)
    returns (ok: bool, reply: Option<(int, SignMeta)>)
    modifies k
    ensures !ok && reply.Some? && reply.value.0 in k.files
    ensures k.files[reply.value.0] == second.bytes && reply.value.1 == first.meta
  {
    var channel := new SignChannel();
    ok := channel.EmitResult(k, SignPayload(first), true, AllCopied, true);
    ok := channel.EmitResult(k, SignPayload(second), true, MetaFailed(first.meta), true);
    reply := channel.GetResult(k, true);
  }

  // -- Photos --

  datatype SealedPhoto = SealedPhoto(key: string, fd: int)

  // The photos with bytes, in order.
  function Taken(photos: seq<Photo>): seq<Photo> {
    if photos == [] then []
    else Taken(photos[..|photos| - 1]) + (if photos[|photos| - 1].bytes == [] then [] else [photos[|photos| - 1]])
  }

  // taken are the photos at these places, which are all that have bytes, in
  // their order.
  predicate TakesThoseWithBytes(photos: seq<Photo>, taken: seq<Photo>, at: seq<nat>) {
    && |at| == |taken|
    && (forall j :: 0 <= j < |at| ==> at[j] < |photos| && photos[at[j]].bytes != [] && taken[j] == photos[at[j]])
    && (forall i, j :: 0 <= i < j < |at| ==> at[i] < at[j])
    && (forall i :: 0 <= i < |photos| && photos[i].bytes != [] ==> i in at)
  }

  /** Exactly the photos with bytes are sealed for a reply, in their order. */
  lemma {:induction false} TakenHaveBytes(photos: seq<Photo>) returns (at: seq<nat>)
    ensures TakesThoseWithBytes(photos, Taken(photos), at)
  {
    at := [];
    if photos != [] {
      var most, last := photos[..|photos| - 1], photos[|photos| - 1];
      at := TakenHaveBytes(most);
      assert photos == most + [last];
      if last.bytes != [] {
        OneMoreTaken(most, last, Taken(most), at);
        at := at + [|most|];
      } else {
        assert Taken(photos) == Taken(most);
      }
    }
  }

  lemma OneMoreTaken(photos: seq<Photo>, last: Photo, taken: seq<Photo>, at: seq<nat>)
    requires TakesThoseWithBytes(photos, taken, at) && last.bytes != []
    ensures TakesThoseWithBytes(photos + [last], taken + [last], at + [|photos|])
  {
    forall i | 0 <= i < |photos| + 1 && (photos + [last])[i].bytes != []
      ensures i in at + [|photos|]
    {
      assert i < |photos| ==> photos[i].bytes != [];
    }
  }

  // What emplacing them in order makes: the first of a key stays.
  function Emplaced(photos: seq<Photo>): map<string, Bytes> {
    if photos == [] then map[]
    else
      var m := Emplaced(photos[..|photos| - 1]);
      var last := photos[|photos| - 1];
      if last.key in m then m else m[last.key := last.bytes]
  }

  function PhotoMap(photos: seq<Photo>): map<string, Bytes> {
    Emplaced(Taken(photos))
  }

  // Photo i is the first with its key that has bytes.
  predicate FirstOfItsKey(photos: seq<Photo>, i: nat)
    requires i < |photos|
  {
    photos[i].bytes != [] && forall j :: 0 <= j < i ==> photos[j].key != photos[i].key || photos[j].bytes == []
  }

  /** The delivered map, said without building it: the first photo of a key that
      has bytes is shown ... */
  lemma {:induction false} FirstIsShown(photos: seq<Photo>, i: nat)
    requires i < |photos| && FirstOfItsKey(photos, i)
    ensures photos[i].key in PhotoMap(photos) && PhotoMap(photos)[photos[i].key] == photos[i].bytes
  {
    var most := photos[..|photos| - 1];
    assert photos == most + [photos[|photos| - 1]];
    TakenOneMore(most, photos[|photos| - 1]);
    if i < |most| {
      assert FirstOfItsKey(most, i);
      FirstIsShown(most, i);
    } else if photos[i].key in PhotoMap(most) {
      var j := ShownIsFirst(most, photos[i].key);
    }
  }

  /** ... and nothing else is. */
  lemma {:induction false} ShownIsFirst(photos: seq<Photo>, key: string) returns (i: nat)
    requires key in PhotoMap(photos)
    ensures i < |photos| && FirstOfItsKey(photos, i) && photos[i].key == key
  {
    var most := photos[..|photos| - 1];
    var last := photos[|photos| - 1];
    assert photos == most + [last];
    TakenOneMore(most, last);
    if key in PhotoMap(most) {
      i := ShownIsFirst(most, key);
    } else {
      FirstIfNew(most, last);
      i := |most|;
    }
  }

  lemma TakenOneMore(photos: seq<Photo>, last: Photo)
    ensures Taken(photos + [last]) == Taken(photos) + (if last.bytes == [] then [] else [last])
    ensures PhotoMap(photos + [last]) ==
            if last.bytes == [] || last.key in PhotoMap(photos) then PhotoMap(photos)
            else PhotoMap(photos)[last.key := last.bytes]
  {
    assert (photos + [last])[..|photos|] == photos;
    if last.bytes != [] {
      assert (Taken(photos) + [last])[..|Taken(photos)|] == Taken(photos);
    } else {
      assert Taken(photos) + [] == Taken(photos);
    }
  }

  // A photo with bytes whose key is not yet shown is the first of its key.
  lemma {:induction false} FirstIfNew(photos: seq<Photo>, last: Photo)
    requires last.key !in PhotoMap(photos)
    ensures forall j :: 0 <= j < |photos| ==> photos[j].key != last.key || photos[j].bytes == []
  {
    if photos != [] {
      var most := photos[..|photos| - 1];
      assert photos == most + [photos[|photos| - 1]];
      TakenOneMore(most, photos[|photos| - 1]);
      FirstIfNew(most, last);
      forall j | 0 <= j < |photos|
        ensures photos[j].key != last.key || photos[j].bytes == []
      {
        if j < |most| {
          assert photos[j] == most[j];
        }
      }
    }
  }

  function PhotoFds(sealed: seq<SealedPhoto>): (fds: seq<int>)
    ensures |fds| == |sealed| && forall i :: 0 <= i < |fds| ==> fds[i] == sealed[i].fd
  {
    seq(|sealed|, i requires 0 <= i < |sealed| => sealed[i].fd)
  }

  // Photo by photo, in order: the key, and a descriptor that reads as the bytes.
  predicate PhotosSealed(files: Files, sealed: seq<SealedPhoto>, photos: seq<Photo>) {
    && |sealed| == |photos|
    && forall i :: 0 <= i < |photos| ==>
         sealed[i].key == photos[i].key && sealed[i].fd in files && files[sealed[i].fd] == photos[i].bytes
  }

  // One open descriptor for each of these photos that has bytes.
  ghost predicate SealedSoFar(start: Files, files: Files, sealed: seq<SealedPhoto>, photos: seq<Photo>) {
    Opened(start, files, PhotoFds(sealed)) && PhotosSealed(files, sealed, Taken(photos))
  }

  lemma PhotoSkipped(start: Files, files: Files, sealed: seq<SealedPhoto>, photos: seq<Photo>, photo: Photo)
    requires SealedSoFar(start, files, sealed, photos) && photo.bytes == []
    ensures SealedSoFar(start, files, sealed, photos + [photo])
  {
    TakenOneMore(photos, photo);
    assert Taken(photos) + [] == Taken(photos);
  }

  lemma PhotoSealed(start: Files, before: Files, sealed: seq<SealedPhoto>, photos: seq<Photo>, photo: Photo, fd: int)
    requires SealedSoFar(start, before, sealed, photos) && photo.bytes != [] && fd >= 0 && fd !in before
    ensures SealedSoFar(start, before[fd := photo.bytes], sealed + [SealedPhoto(photo.key, fd)], photos + [photo])
  {
    OpenedOneMore(start, before, PhotoFds(sealed), fd, photo.bytes);
    PhotosSealedOneMore(before, sealed, Taken(photos), photo, fd);
    TakenOneMore(photos, photo);
  }

  lemma PhotosSealedOneMore(before: Files, sealed: seq<SealedPhoto>, photos: seq<Photo>, photo: Photo, fd: int)
    requires PhotosSealed(before, sealed, photos) && fd !in before
    ensures PhotoFds(sealed + [SealedPhoto(photo.key, fd)]) == PhotoFds(sealed) + [fd]
    ensures PhotosSealed(before[fd := photo.bytes], sealed + [SealedPhoto(photo.key, fd)], photos + [photo])
  {
  }

  // Every photo that has bytes sealed, or nothing left open.
  method SealStoredPhotos(k: Kernel, state: Store<seq<Photo>>, seals: int -> bool)
    returns (sealed: Option<seq<SealedPhoto>>)
    modifies k
    ensures sealed.Some? <==>
              state.ready && forall i :: 0 <= i < |state.payload| && state.payload[i].bytes != [] ==> seals(i)
    ensures sealed.Some? ==>
              && Opened(old(k.files), k.files, PhotoFds(sealed.value))
              && PhotosSealed(k.files, sealed.value, Taken(state.payload))
    ensures sealed.None? ==> k.files == old(k.files)
  {
    if !state.ready {
      return None;
    }
    var done: seq<SealedPhoto> := [];
    var photos := state.payload;
    for i := 0 to |photos|
      invariant SealedSoFar(old(k.files), k.files, done, photos[..i])
      invariant forall j :: 0 <= j < i && photos[j].bytes != [] ==> seals(j)
    {
      assert photos[..i + 1] == photos[..i] + [photos[i]];
      if photos[i].bytes == [] {
        PhotoSkipped(old(k.files), k.files, done, photos[..i], photos[i]);
        continue;
      }
      ghost var before := k.files;
      var fd := k.Seal(photos[i].bytes, seals(i));
      if fd < 0 {
        ClosingUndoesOpening(old(k.files), k.files, PhotoFds(done));
        k.CloseAll(PhotoFds(done));
        return None;
      }
      PhotoSealed(old(k.files), before, done, photos[..i], photos[i], fd);
      done := done + [SealedPhoto(photos[i].key, fd)];
    }
    assert photos[..|photos|] == photos;
    sealed := Some(done);
  }

  // The entries of a map of descriptors in the order they were emplaced: every
  // key of m has one, whose descriptor reads as m says.
  predicate Shows(files: Files, entries: seq<SealedPhoto>, m: map<string, Bytes>)
    decreases |entries|
  {
    if entries == [] then m == map[]
    else
      var last := entries[|entries| - 1];
      && last.key in m && last.fd in files && files[last.fd] == m[last.key]
      && Shows(files, entries[..|entries| - 1], m - {last.key})
  }

  predicate HasKey(entries: seq<SealedPhoto>, key: string) {
    exists i :: 0 <= i < |entries| && entries[i].key == key
  }

  lemma {:induction false} ShowsItsKeys(files: Files, entries: seq<SealedPhoto>, m: map<string, Bytes>, key: string)
    requires Shows(files, entries, m)
    ensures key in m <==> HasKey(entries, key)
    decreases |entries|
  {
    if entries != [] {
      var most, last := entries[..|entries| - 1], entries[|entries| - 1];
      ShowsItsKeys(files, most, m - {last.key}, key);
      assert forall i :: 0 <= i < |most| ==> most[i] == entries[i];
      if HasKey(most, key) {
        var i :| 0 <= i < |most| && most[i].key == key;
        assert entries[i].key == key;
      }
    }
  }

  // Only the entries' own files matter.
  lemma {:induction false} ShowsInOtherFiles(files: Files, files': Files, entries: seq<SealedPhoto>, m: map<string,
          Bytes>)
    requires Shows(files, entries, m)
    requires forall i :: 0 <= i < |entries| && entries[i].fd in files ==>
               entries[i].fd in files' && files'[entries[i].fd] == files[entries[i].fd]
    ensures Shows(files', entries, m)
    decreases |entries|
  {
    if entries != [] {
      ShowsInOtherFiles(files, files', entries[..|entries| - 1], m - {entries[|entries| - 1].key});
    }
  }

  lemma ShowsOneMore(before: Files, entries: seq<SealedPhoto>, m: map<string, Bytes>, key: string, fd: int,
          bytes: Bytes)
    requires Shows(before, entries, m) && !HasKey(entries, key) && fd !in before
    ensures key !in m && PhotoFds(entries + [SealedPhoto(key, fd)]) == PhotoFds(entries) + [fd]
    ensures Shows(before[fd := bytes], entries + [SealedPhoto(key, fd)], m[key := bytes])
  {
    ShowsItsKeys(before, entries, m, key);
    ShowsInOtherFiles(before, before[fd := bytes], entries, m);
    assert m[key := bytes] - {key} == m;
    assert (entries + [SealedPhoto(key, fd)])[..|entries|] == entries;
  }

  // What the receiver of a map of descriptors reads: a closed one, nothing.
  function ReadMap(files: Files, entries: seq<SealedPhoto>): map<string, Bytes> {
    if entries == [] then map[]
    else
      var last := entries[|entries| - 1];
      var most := ReadMap(files, entries[..|entries| - 1]);
      if last.fd in files then most[last.key := files[last.fd]] else most
  }

  lemma {:induction false} ReadMapIs(files: Files, entries: seq<SealedPhoto>, m: map<string, Bytes>)
    requires Shows(files, entries, m)
    ensures ReadMap(files, entries) == m
    decreases |entries|
  {
    if entries != [] {
      ReadMapIs(files, entries[..|entries| - 1], m - {entries[|entries| - 1].key});
    }
  }

  // emplace: the first of a key stays and a later one is closed.
  method Emplace(k: Kernel, entries: seq<SealedPhoto>, key: string, owned: int, ghost m: map<string, Bytes>)
    returns (longer: seq<SealedPhoto>)
    requires owned in k.files && Shows(k.files - {owned}, entries, m)
    modifies k
    ensures var bytes := old(k.files)[owned];
      if key in m then longer == entries && k.files == old(k.files) - {owned}
      else longer == entries + [SealedPhoto(key, owned)] && k.files == old(k.files)
           && PhotoFds(longer) == PhotoFds(entries) + [owned] && Shows(k.files, longer, m[key := bytes])
  {
    var i := 0;
    while i < |entries|
      invariant 0 <= i <= |entries| && k.files == old(k.files)
      invariant forall j :: 0 <= j < i ==> entries[j].key != key
    {
      if entries[i].key == key {
        ShowsItsKeys(k.files - {owned}, entries, m, key);
        k.Close(owned);
        return entries;
      }
      i := i + 1;
    }
    assert !HasKey(entries, key);
    ghost var bytes := k.files[owned];
    ShowsItsKeys(k.files - {owned}, entries, m, key);
    ShowsOneMore(k.files - {owned}, entries, m, key, owned, bytes);
    assert (k.files - {owned})[owned := bytes] == k.files;
    longer := entries + [SealedPhoto(key, owned)];
  }

  lemma ShowsNothing(files: Files, entries: seq<SealedPhoto>, m: map<string, Bytes>)
    requires Shows(files, entries, m)
    ensures entries == [] <==> m == map[]
  {
  }

  // The wire map of these photos, every descriptor of it open.
  ghost predicate MapSoFar(start: Files, files: Files, entries: seq<SealedPhoto>, photos: seq<Photo>) {
    Opened(start, files, PhotoFds(entries)) && Shows(files, entries, PhotoMap(photos))
  }

  lemma MapKept(start: Files, files: Files, built: seq<SealedPhoto>, photos: seq<Photo>, photo: Photo)
    requires MapSoFar(start, files, built, photos) && (photo.bytes == [] || photo.key in PhotoMap(photos))
    ensures MapSoFar(start, files, built, photos + [photo])
  {
    TakenOneMore(photos, photo);
  }

  lemma MapGrown(start: Files, before: Files, built: seq<SealedPhoto>, photos: seq<Photo>, photo: Photo, fd: int,
                 longer: seq<SealedPhoto>)
    requires MapSoFar(start, before, built, photos) && photo.bytes != [] && photo.key !in PhotoMap(photos)
    requires fd >= 0 && fd !in before && PhotoFds(longer) == PhotoFds(built) + [fd]
    requires Shows(before[fd := photo.bytes], longer, PhotoMap(photos)[photo.key := photo.bytes])
    ensures MapSoFar(start, before[fd := photo.bytes], longer, photos + [photo])
  {
    TakenOneMore(photos, photo);
    OpenedOneMore(start, before, PhotoFds(built), fd, photo.bytes);
  }

  // One turn of the loop that seals and emplaces.
  method AddPhoto(k: Kernel, ghost start: Files, built: seq<SealedPhoto>, all: seq<Photo>, i: nat, ok: bool)
    returns (longer: Option<seq<SealedPhoto>>)
    requires i < |all| && MapSoFar(start, k.files, built, all[..i])
    modifies k
    ensures longer.Some? <==> all[i].bytes == [] || ok
    ensures longer.Some? ==> MapSoFar(start, k.files, longer.value, all[..i + 1])
    ensures longer.None? ==> k.files == start
  {
    var photo := all[i];
    ghost var photos := all[..i];
    assert all[..i + 1] == photos + [photo];
    if photo.bytes == [] {
      MapKept(start, k.files, built, photos, photo);
      return Some(built);
    }
    ghost var before := k.files;
    var fd := k.Seal(photo.bytes, ok);
    if fd < 0 {
      ClosingUndoesOpening(start, k.files, PhotoFds(built));
      k.CloseAll(PhotoFds(built));
      return None;
    }
    assert k.files - {fd} == before;
    var more := Emplace(k, built, photo.key, fd, PhotoMap(photos));
    if photo.key in PhotoMap(photos) {
      MapKept(start, before, built, photos, photo);
    } else {
      MapGrown(start, before, built, photos, photo, fd, more);
    }
    longer := Some(more);
  }

  lemma HoldsEither(first: seq<int>, second: seq<int>, fd: int)
    ensures Holds(first + second, fd) <==> Holds(first, fd) || Holds(second, fd)
  {
    var fds := first + second;
    if Holds(first, fd) {
      var i :| 0 <= i < |first| && first[i] == fd;
      assert fds[i] == fd;
    }
    if Holds(second, fd) {
      var i :| 0 <= i < |second| && second[i] == fd;
      assert fds[|first| + i] == fd;
    }
  }

  lemma {:induction false} OpenedOneLess(start: Files, files: Files, first: seq<int>, fd: int, rest: seq<int>)
    requires Opened(start, files, first + [fd] + rest)
    ensures fd in files && Opened(start, files - {fd}, first + rest)
    decreases |rest|
  {
    var fds := first + [fd] + rest;
    if rest == [] {
      assert fds[..|fds| - 1] == first && first + rest == first;
    } else {
      var most, last := rest[..|rest| - 1], rest[|rest| - 1];
      assert fds[..|fds| - 1] == first + [fd] + most;
      OpenedOneLess(start, files - {last}, first, fd, most);
      assert (first + rest)[..|first| + |most|] == first + most;
      assert files - {last} - {fd} == files - {fd} - {last};
    }
  }

  // The reply map of the first i photos, the other descriptors still parked.
  ghost predicate Serving(start: Files, files: Files, entries: seq<SealedPhoto>, sealed: seq<SealedPhoto>,
                          photos: seq<Photo>, i: nat) {
    && i <= |sealed| == |photos|
    && Opened(start, files, PhotoFds(entries) + PhotoFds(sealed)[i..])
    && Shows(files, entries, Emplaced(photos[..i]))
    && forall j :: i <= j < |sealed| ==>
         sealed[j].key == photos[j].key && sealed[j].fd in files && files[sealed[j].fd] == photos[j].bytes
  }

  lemma EmplacedOneMore(photos: seq<Photo>, i: nat)
    requires i < |photos|
    ensures Emplaced(photos[..i + 1]) ==
            if photos[i].key in Emplaced(photos[..i]) then Emplaced(photos[..i])
            else Emplaced(photos[..i])[photos[i].key := photos[i].bytes]
  {
    assert photos[..i + 1][..i] == photos[..i];
  }

  lemma FdsSplit(entries: seq<SealedPhoto>, sealed: seq<SealedPhoto>, i: nat)
    requires i < |sealed|
    ensures PhotoFds(entries) + PhotoFds(sealed)[i..] == PhotoFds(entries) + [sealed[i].fd] + PhotoFds(sealed)[i + 1..]
  {
  }

  // The next descriptor is not one of the reply's, nor of those still parked.
  lemma NextIsApart(start: Files, files: Files, entries: seq<SealedPhoto>, sealed: seq<SealedPhoto>,
                    photos: seq<Photo>, i: nat)
    requires Serving(start, files, entries, sealed, photos, i) && i < |sealed|
    ensures Shows(files - {sealed[i].fd}, entries, Emplaced(photos[..i]))
    ensures forall j :: i < j < |sealed| ==> sealed[j].fd != sealed[i].fd
  {
    OpenedMeans(start, files, PhotoFds(entries) + PhotoFds(sealed)[i..]);
    DistinctFds(entries, sealed, i);
    ShowsInOtherFiles(files, files - {sealed[i].fd}, entries, Emplaced(photos[..i]));
  }

  lemma DistinctFds(entries: seq<SealedPhoto>, sealed: seq<SealedPhoto>, i: nat)
    requires i < |sealed| && Distinct(PhotoFds(entries) + PhotoFds(sealed)[i..])
    ensures forall j :: 0 <= j < |entries| ==> entries[j].fd != sealed[i].fd
    ensures forall j :: i < j < |sealed| ==> sealed[j].fd != sealed[i].fd
  {
    var fds := PhotoFds(entries) + PhotoFds(sealed)[i..];
    forall j | 0 <= j < |entries|
      ensures entries[j].fd != sealed[i].fd
    {
      assert fds[j] == entries[j].fd && fds[|entries|] == sealed[i].fd;
    }
    forall j | i < j < |sealed|
      ensures sealed[j].fd != sealed[i].fd
    {
      assert fds[|entries| + (j - i)] == sealed[j].fd && fds[|entries|] == sealed[i].fd;
    }
  }

  // A photo whose key is already shown is closed.
  lemma ServedAgain(start: Files, files: Files, entries: seq<SealedPhoto>, sealed: seq<SealedPhoto>,
                    photos: seq<Photo>, i: nat)
    requires Serving(start, files, entries, sealed, photos, i) && i < |sealed|
    requires photos[i].key in Emplaced(photos[..i])
    ensures Serving(start, files - {sealed[i].fd}, entries, sealed, photos, i + 1)
  {
    NextIsApart(start, files, entries, sealed, photos, i);
    FdsSplit(entries, sealed, i);
    OpenedOneLess(start, files, PhotoFds(entries), sealed[i].fd, PhotoFds(sealed)[i + 1..]);
    EmplacedOneMore(photos, i);
  }

  lemma ServedFirst(start: Files, files: Files, entries: seq<SealedPhoto>, sealed: seq<SealedPhoto>,
                    photos: seq<Photo>, i: nat, longer: seq<SealedPhoto>)
    requires Serving(start, files, entries, sealed, photos, i) && i < |sealed|
    requires photos[i].key !in Emplaced(photos[..i])
    requires PhotoFds(longer) == PhotoFds(entries) + [sealed[i].fd]
    requires Shows(files, longer, Emplaced(photos[..i])[photos[i].key := photos[i].bytes])
    ensures Serving(start, files, longer, sealed, photos, i + 1)
  {
    FdsSplit(entries, sealed, i);
    EmplacedOneMore(photos, i);
  }

  lemma ServingStarts(start: Files, files: Files, sealed: seq<SealedPhoto>, photos: seq<Photo>)
    requires Opened(start, files, PhotoFds(sealed)) && PhotosSealed(files, sealed, photos)
    ensures Serving(start, files, [], sealed, photos, 0)
  {
    assert PhotoFds([]) + PhotoFds(sealed)[0..] == PhotoFds(sealed);
  }

  lemma ServingEnds(start: Files, files: Files, entries: seq<SealedPhoto>, sealed: seq<SealedPhoto>, photos: seq<Photo>)
    requires Serving(start, files, entries, sealed, photos, |sealed|)
    ensures Opened(start, files, PhotoFds(entries)) && Shows(files, entries, Emplaced(photos))
  {
    assert photos[..|sealed|] == photos;
    assert PhotoFds(entries) + PhotoFds(sealed)[|sealed|..] == PhotoFds(entries);
  }

  // One turn of the loop that adopts and emplaces.
  method Serve(k: Kernel, ghost start: Files, entries: seq<SealedPhoto>, sealed: seq<SealedPhoto>,
               ghost photos: seq<Photo>, i: nat)
    returns (longer: seq<SealedPhoto>)
    requires Serving(start, k.files, entries, sealed, photos, i) && i < |sealed|
    modifies k
    ensures Serving(start, k.files, longer, sealed, photos, i + 1)
  {
    ghost var before := k.files;
    NextIsApart(start, before, entries, sealed, photos, i);
    longer := Emplace(k, entries, sealed[i].key, sealed[i].fd, Emplaced(photos[..i]));
    if photos[i].key in Emplaced(photos[..i]) {
      ServedAgain(start, before, entries, sealed, photos, i);
    } else {
      ServedFirst(start, before, entries, sealed, photos, i, longer);
    }
  }

  // The parked descriptors are those not marked yet.
  lemma RestHolds(fds: seq<int>, rest: seq<int>, i: nat, fd: int)
    requires i < |fds| == |rest| && fd >= 0
    requires forall j :: 0 <= j < |fds| ==> rest[j] == if j <= i then -1 else fds[j]
    ensures Holds(rest, fd) <==> Holds(fds[i + 1..], fd)
  {
    if Holds(rest, fd) {
      var j :| 0 <= j < |rest| && rest[j] == fd;
      assert fds[i + 1..][j - i - 1] == fd;
    }
    if Holds(fds[i + 1..], fd) {
      var j :| 0 <= j < |fds[i + 1..]| && fds[i + 1..][j] == fd;
      assert rest[i + 1 + j] == fd;
    }
  }

  // The descriptors adopted so far are marked -1.
  predicate Marked(rest: seq<int>, sealed: seq<SealedPhoto>, i: nat) {
    |rest| == |sealed| && forall j {:trigger rest[j]} :: 0 <= j < |rest| ==>
            rest[j] == if j < i then -1 else sealed[j].fd
  }

  // Its own descriptor, those still parked and those of the reply are all.
  method Abandon(k: Kernel, ghost start: Files, entries: seq<SealedPhoto>, owned: int, ghost sealed: seq<SealedPhoto>,
                 ghost photos: seq<Photo>, ghost i: nat, rest: seq<int>)
    requires Serving(start, k.files, entries, sealed, photos, i) && i < |sealed| && owned == sealed[i].fd
    requires Marked(rest, sealed, i + 1)
    modifies k
    ensures k.files == start
  {
    AbandonedIsStart(start, k.files, entries, sealed, photos, i, rest);
    k.Close(owned);
    CloseRest(k, rest);
    k.CloseAll(PhotoFds(entries));
  }

  lemma AbandonedIsStart(start: Files, files: Files, entries: seq<SealedPhoto>, sealed: seq<SealedPhoto>,
                         photos: seq<Photo>, i: nat, rest: seq<int>)
    requires Serving(start, files, entries, sealed, photos, i) && i < |sealed| && Marked(rest, sealed, i + 1)
    ensures Without(WithoutParked(files - {sealed[i].fd}, rest), PhotoFds(entries)) == start
  {
    var parked := PhotoFds(sealed)[i + 1..];
    var left := files - {sealed[i].fd};
    FdsSplit(entries, sealed, i);
    OpenedOneLess(start, files, PhotoFds(entries), sealed[i].fd, parked);
    ClosingUndoesOpening(start, left, PhotoFds(entries) + parked);
    OpenedMeans(start, left, PhotoFds(entries) + parked);
    forall j | i < j < |sealed|
      ensures PhotoFds(sealed)[j] >= 0
    {
      assert (PhotoFds(entries) + parked)[|entries| + (j - i - 1)] == PhotoFds(sealed)[j];
    }
    ParkedAndShown(left, PhotoFds(entries), PhotoFds(sealed), rest, i);
  }

  lemma ParkedAndShown(files: Files, shown: seq<int>, fds: seq<int>, rest: seq<int>, i: nat)
    requires i < |fds| == |rest|
    requires forall j :: 0 <= j < |fds| ==> rest[j] == if j <= i then -1 else fds[j]
    requires forall j :: i < j < |fds| ==> fds[j] >= 0
    ensures Without(WithoutParked(files, rest), shown) == Without(files, shown + fds[i + 1..])
  {
    var parked := fds[i + 1..];
    forall fd: int
      ensures Holds(shown + parked, fd) <==> Holds(shown, fd) || (fd >= 0 && Holds(rest, fd))
    {
      HoldsEither(shown, parked, fd);
      if fd >= 0 {
        RestHolds(fds, rest, i, fd);
      }
    }
  }

  // Descriptor i is adopted and marked, then emplaced, or everything is closed.
  method AdoptNext(k: Kernel, ghost start: Files, entries: seq<SealedPhoto>, rest: seq<int>, sealed: seq<SealedPhoto>,
                   ghost photos: seq<Photo>, i: nat, emplaces: bool)
    returns (longer: Option<seq<SealedPhoto>>, marked: seq<int>)
    requires Serving(start, k.files, entries, sealed, photos, i) && i < |sealed| && Marked(rest, sealed, i)
    modifies k
    ensures longer.Some? <==> emplaces
    ensures longer.Some? ==> Serving(start, k.files, longer.value, sealed, photos, i + 1) && Marked(marked, sealed,
            i + 1)
    ensures longer.None? ==> k.files == start
  {
    var owned := rest[i];
    marked := rest[i := -1];
    if !emplaces {
      Abandon(k, start, entries, owned, sealed, photos, i, marked);
      return None, marked;
    }
    var more := Serve(k, start, entries, sealed, photos, i);
    longer := Some(more);
  }

  class PhotoChannel {
    const state: Store<seq<Photo>>
    var signals: seq<map<string, Bytes>>
    ghost var signalled: Option<map<string, Bytes>>   // by the payload now in the store

    ghost predicate Valid()
      reads this, state
    {
      signalled.Some? ==> state.ready && signalled.value == PhotoMap(state.payload)
    }

    constructor ()
      ensures Valid() && fresh(state) && !state.ready && signals == []
    {
      state := new Store();
      signals := [];
      signalled := None;
    }

    // The wire map: every photo that has bytes sealed and emplaced, or nothing
    // left open.
    method BuildMap(k: Kernel, photos: seq<Photo>, seals: int -> bool) returns (fds: Option<seq<SealedPhoto>>)
      modifies k
      ensures fds.Some? <==> forall i :: 0 <= i < |photos| && photos[i].bytes != [] ==> seals(i)
      ensures fds.Some? ==> MapSoFar(old(k.files), k.files, fds.value, photos)
      ensures fds.None? ==> k.files == old(k.files)
    {
      var built: seq<SealedPhoto> := [];
      for i := 0 to |photos|
        invariant MapSoFar(old(k.files), k.files, built, photos[..i])
        invariant forall j :: 0 <= j < i && photos[j].bytes != [] ==> seals(j)
      {
        var longer := AddPhoto(k, old(k.files), built, photos, i, seals(i));
        if longer.None? {
          return None;
        }
        built := longer.value;
      }
      assert photos[..|photos|] == photos;
      fds := Some(built);
    }

    // Nothing to show is a success without a signal or a store; otherwise the
    // store is published before the signal, or nothing is kept open or changed.
    method EmitResult(k: Kernel, r: ResultPayload, seals: int -> bool, copy: Copy<seq<Photo>>, sends: bool)
      returns (ok: bool)
      requires Valid()
      modifies this, k, state
      ensures Valid() && k.files == old(k.files)
      ensures !r.PhotoPayload? ==> ok
      ensures r.PhotoPayload? ==>
                (ok <==> (forall i :: 0 <= i < |r.photos| && r.photos[i].bytes != [] ==> seals(i))
                         && (PhotoMap(r.photos) == map[] || copy.Copied?))
      ensures r.PhotoPayload? && ok && PhotoMap(r.photos) != map[] ==>
                && state.ready && state.payload == r.photos
                && signals == (if sends then old(signals) + [PhotoMap(r.photos)] else old(signals))
                && signalled == (if sends then Some(PhotoMap(r.photos)) else None)
      ensures !(r.PhotoPayload? && ok && PhotoMap(r.photos) != map[]) ==>
                state.ready == old(state.ready) && signals == old(signals)
      ensures !(r.PhotoPayload? && ok && PhotoMap(r.photos) != map[]) ==>
                (state.Served() == old(state.Served()) <==>
                   || !r.PhotoPayload? || PhotoMap(r.photos) == map[] || !old(state.ready)
                   || !(forall i :: 0 <= i < |r.photos| && r.photos[i].bytes != [] ==> seals(i))
                   || copy.left == old(state.payload))
      ensures !old(state.ready) && !state.ready ==> signalled == None
    {
      if !r.PhotoPayload? {
        return true;
      }
      var fds := BuildMap(k, r.photos, seals);
      if fds.None? {
        return false;
      }
      ClosingUndoesOpening(old(k.files), k.files, PhotoFds(fds.value));
      ShowsNothing(k.files, fds.value, PhotoMap(r.photos));
      ok := fds.value == [] || copy.Copied?;
      if fds.value != [] {
        PublishAndSignal(k, r.photos, fds.value, copy, sends);
      }
      k.CloseAll(PhotoFds(fds.value));
    }

    // Published before signalled; a copy that ran out of memory makes nothing
    // ready and signals nothing.
    method PublishAndSignal(k: Kernel, photos: seq<Photo>, fds: seq<SealedPhoto>, copy: Copy<seq<Photo>>, sends: bool)
      requires Valid() && Shows(k.files, fds, PhotoMap(photos))
      modifies this, state
      ensures Valid()
      ensures copy.Copied? ==>
                && state.ready && state.payload == photos
                && signals == (if sends then old(signals) + [PhotoMap(photos)] else old(signals))
                && signalled == (if sends then Some(PhotoMap(photos)) else None)
      ensures copy.CopyFailed? ==>
                && state.ready == old(state.ready) && state.payload == copy.left && signals == old(signals)
                && signalled == (if copy.left == old(state.payload) then old(signalled) else None)
    {
      var published := state.Publish(photos, copy);
      if published {
        signalled := None;
        if sends {
          ReadMapIs(k.files, fds, PhotoMap(photos));
          signals := signals + [ReadMap(k.files, fds)];
          signalled := Some(PhotoMap(photos));
        }
      } else if state.payload != old(state.payload) {
        signalled := None;
      }
    }

    // The published photos behind fresh descriptors, one for each key, or
    // NoResult: whatever was signalled reads the same here.
    method GetResult(k: Kernel, seals: int -> bool, emplaces: int -> bool) returns (reply: Option<seq<SealedPhoto>>)
      requires Valid()
      modifies k
      ensures Valid()
      ensures !state.ready ==> reply == None
      ensures state.ready && (forall i :: 0 <= i < |state.payload| ==> seals(i) && emplaces(i)) ==> reply.Some?
      ensures reply.Some? ==>
                && Opened(old(k.files), k.files, PhotoFds(reply.value))
                && Shows(k.files, reply.value, PhotoMap(state.payload))
                && ReadMap(k.files, reply.value) == PhotoMap(state.payload)
                && (signalled.Some? ==> ReadMap(k.files, reply.value) == signalled.value)
      ensures reply.None? ==> k.files == old(k.files)
    {
      var stored := SealStoredPhotos(k, state, seals);
      if stored.None? {
        return None;
      }
      reply := Adopt(k, old(k.files), stored.value, Taken(state.payload), emplaces);
      if reply.Some? {
        ReadMapIs(k.files, reply.value, PhotoMap(state.payload));
      } else {
        TakenIsShorter(state.payload);
      }
    }

    // Every descriptor adopted into the reply's map, or none left open.
    method Adopt(k: Kernel, ghost start: Files, sealed: seq<SealedPhoto>, ghost photos: seq<Photo>,
            emplaces: int -> bool)
      returns (reply: Option<seq<SealedPhoto>>)
      requires Opened(start, k.files, PhotoFds(sealed)) && PhotosSealed(k.files, sealed, photos)
      modifies k
      ensures reply.Some? <==> forall i :: 0 <= i < |sealed| ==> emplaces(i)
      ensures reply.Some? ==>
                Opened(start, k.files, PhotoFds(reply.value)) && Shows(k.files, reply.value, Emplaced(photos))
      ensures reply.None? ==> k.files == start
    {
      var entries: seq<SealedPhoto> := [];
      var rest := PhotoFds(sealed);
      ServingStarts(start, k.files, sealed, photos);
      for i := 0 to |sealed|
        invariant Serving(start, k.files, entries, sealed, photos, i) && Marked(rest, sealed, i)
        invariant forall j :: 0 <= j < i ==> emplaces(j)
      {
        var longer;
        longer, rest := AdoptNext(k, start, entries, rest, sealed, photos, i, emplaces(i));
        if longer.None? {
          return None;
        }
        entries := longer.value;
      }
      ServingEnds(start, k.files, entries, sealed, photos);
      reply := Some(entries);
    }
  }

  lemma {:induction false} TakenIsShorter(photos: seq<Photo>)
    ensures |Taken(photos)| <= |photos|
  {
    if photos != [] {
      TakenIsShorter(photos[..|photos| - 1]);
    }
  }

  // -- Results delivered inline --

  // Certificates, without descriptors: published before signalled, and a store
  // that could not be written does not fail the operation.
  class CertificatesChannel {
    const state: Store<seq<string>>
    var signals: seq<seq<string>>

    constructor ()
      ensures fresh(state) && !state.ready && signals == []
    {
      state := new Store();
      signals := [];
    }

    // Always true. A store found unready serves what was signalled, or nothing.
    method EmitResult(certs: seq<string>, copy: Copy<seq<string>>, sends: bool) returns (ok: bool)
      modifies this, state
      ensures ok && signals == if sends then old(signals) + [certs] else old(signals)
      ensures copy.Copied? ==> state.Served() == Some(certs)
      ensures copy.CopyFailed? && !old(state.ready) ==> state.Served() == None
    {
      var published := state.Publish(certs, copy);
      if sends {
        signals := signals + [certs];
      }
      ok := true;
    }

    // The published list, or NoResult.
    method GetResult() returns (certs: Option<seq<string>>)
      ensures certs == state.Served()
    {
      certs := state.Read();
    }
  }
}
