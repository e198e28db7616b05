/**
 A secret's way through a sealed memfd: written in whatever pieces the kernel
 takes, sealed, and read back in whatever pieces it gives.
 */
module SealedMemfd {
  import opened Wrappers

  type Byte = bv8
  type Bytes = seq<Byte>

  // The cap every agent host enforces on a prompter.
  const MaxSecretBytes: nat := 8192

  // NoProgress: a write that took nothing (EIO), a pread short of the size told.
  datatype Errno = NoProgress | Other(code: nat)

  // What one write or pread does; the kernel moves no more than it is asked to.
  datatype Outcome = Moved(n: nat) | Interrupted | Failed(errno: Errno)

  // StillRunning: the outcomes given so far do not end the loop.
  datatype End = Complete | Errored(errno: Errno) | StillRunning

  datatype Seal = Shrink | Grow | Write

  const AllSeals: set<Seal> := {Shrink, Grow, Write}

  // `seals` is None for a descriptor that is no memfd.
  datatype File = File(data: Bytes, seals: Option<set<Seal>>)

  function Min(a: nat, b: nat): nat {
    if a < b then a else b
  }

  // -- The loops, one outcome at a time --

  // The file and the end of writing `rest` behind `file`.
  function WriteOut(file: Bytes, rest: Bytes, outcomes: seq<Outcome>): (Bytes, End)
    decreases |outcomes|
  {
    if rest == [] then (file, Complete)
    else if outcomes == [] then (file, StillRunning)
    else match outcomes[0]
      case Moved(n) =>
        var m := Min(n, |rest|);
        if m == 0 then (file, Errored(NoProgress)) else WriteOut(file + rest[..m], rest[m..], outcomes[1..])
      case Interrupted => WriteOut(file, rest, outcomes[1..])
      case Failed(errno) => (file, Errored(errno))
  }

  // The bytes and the end of reading `size` bytes of data, `got` being read.
  function ReadIn(data: Bytes, got: Bytes, size: nat, outcomes: seq<Outcome>): (Bytes, End)
    requires |got| <= size <= |data|
    decreases |outcomes|
  {
    if |got| == size then (got, Complete)
    else if outcomes == [] then (got, StillRunning)
    else match outcomes[0]
      case Moved(n) =>
        var m := Min(n, size - |got|);
        if m == 0 then (got, Errored(NoProgress)) else ReadIn(data, got + data[|got|..|got| + m], size, outcomes[1..])
      case Interrupted => ReadIn(data, got, size, outcomes[1..])
      case Failed(errno) => (got, Errored(errno))
  }

  // The bytes moved before the first outcome that ends a loop by an error.
  function Progress(outcomes: seq<Outcome>): nat {
    if outcomes == [] then 0
    else match outcomes[0]
      case Moved(n) => if n == 0 then 0 else n + Progress(outcomes[1..])
      case Interrupted => Progress(outcomes[1..])
      case Failed(_) => 0
  }

  // makeSealedMemfd: the sealed file, unless a step failed (or is still waited for).
  function Created(bytes: Bytes, opens: bool, outcomes: seq<Outcome>, seals: bool): Option<File> {
    var (data, end) := WriteOut([], bytes, outcomes);
    if opens && end == Complete && seals then Some(File(data, Some(AllSeals))) else None
  }

  datatype ReadResult = Secret(bytes: Bytes) | NotSealed | TooLarge | Unread(end: End) | Invalid

  // SecretMemfdReader::read of a file whose size was told.
  function ReadBack(f: File, outcomes: seq<Outcome>): ReadResult {
    if f.seals == None || !(AllSeals <= f.seals.value) then NotSealed
    else if |f.data| > MaxSecretBytes then TooLarge
    else
      var (got, end) := ReadIn(f.data, [], |f.data|, outcomes);
      if end == Complete then Secret(got) else Unread(end)
  }

  // -- Byte-exactness --

  lemma {:induction false} WriteKeepsBytes(file: Bytes, rest: Bytes, outcomes: seq<Outcome>)
    ensures WriteOut(file, rest, outcomes).1 == Complete <==> |rest| <= Progress(outcomes)
    ensures WriteOut(file, rest, outcomes).1 == Complete ==> WriteOut(file, rest, outcomes).0 == file + rest
    decreases |outcomes|
  {
    if rest == [] {
      assert file + rest == file;
    } else if outcomes != [] {
      match outcomes[0]
      case Moved(n) =>
        var m := Min(n, |rest|);
        WriteKeepsBytes(file + rest[..m], rest[m..], outcomes[1..]);
        assert file + rest[..m] + rest[m..] == file + rest;
      case Interrupted => WriteKeepsBytes(file, rest, outcomes[1..]);
      case Failed(_) =>
    }
  }

  lemma {:induction false} ReadKeepsBytes(data: Bytes, got: Bytes, size: nat, outcomes: seq<Outcome>)
    requires |got| <= size <= |data| && got == data[..|got|]
    ensures ReadIn(data, got, size, outcomes).1 == Complete <==> size - |got| <= Progress(outcomes)
    ensures ReadIn(data, got, size, outcomes).1 == Complete ==> ReadIn(data, got, size, outcomes).0 == data[..size]
    decreases |outcomes|
  {
    if |got| < size && outcomes != [] {
      match outcomes[0]
      case Moved(n) =>
        var m := Min(n, size - |got|);
        assert got + data[|got|..|got| + m] == data[..|got| + m];
        ReadKeepsBytes(data, got + data[|got|..|got| + m], size, outcomes[1..]);
      case Interrupted => ReadKeepsBytes(data, got, size, outcomes[1..]);
      case Failed(_) =>
    }
  }

  /** A memfd is made if and only if nothing refused and every byte went out,
      and then it is sealed and holds exactly the bytes. */
  lemma CreatedHoldsTheBytes(bytes: Bytes, opens: bool, outcomes: seq<Outcome>, seals: bool)
    ensures var f := Created(bytes, opens, outcomes, seals);
      && (f.Some? <==> opens && seals && |bytes| <= Progress(outcomes))
      && (f.Some? ==> f.value == File(bytes, Some(AllSeals)))
  {
    WriteKeepsBytes([], bytes, outcomes);
    assert [] + bytes == bytes;
  }

  /** Whatever pieces a secret is written and read in, the reader gets exactly
      the bytes that were sealed or an error: the bytes if and only if they are
      within the cap and all of them were given back. */
  lemma CreateThenReadIsExact(bytes: Bytes, writings: seq<Outcome>, readings: seq<Outcome>)
    requires Created(bytes, true, writings, true).Some?
    ensures var r := ReadBack(Created(bytes, true, writings, true).value, readings);
      && (r.Secret? ==> r.bytes == bytes)
      && (r.Secret? <==> |bytes| <= 8192 && |bytes| <= Progress(readings))
  {
    CreatedHoldsTheBytes(bytes, true, writings, true);
    ReadKeepsBytes(bytes, [], |bytes|, readings);
    assert bytes[..|bytes|] == bytes;
  }

  // -- What the outcomes mean --

  /** An interrupted call is made again: it changes neither the bytes nor the end
      of either loop, wherever it comes. */
  lemma {:induction false} InterruptionsChangeNothing(file: Bytes, rest: Bytes, before: seq<Outcome>,
                                                      after: seq<Outcome>)
    ensures Progress(before + [Interrupted] + after) == Progress(before + after)
    ensures WriteOut(file, rest, before + [Interrupted] + after) == WriteOut(file, rest, before + after)
    decreases |before|
  {
    var all := before + [Interrupted] + after;
    if before == [] {
      assert all[1..] == after && before + after == after;
    } else {
      assert all[1..] == before[1..] + [Interrupted] + after && (before + after)[1..] == before[1..] + after;
      InterruptionsChangeNothing(file, rest, before[1..], after);
      if rest != [] && before[0].Moved? {
        var m := Min(before[0].n, |rest|);
        InterruptionsChangeNothing(file + rest[..m], rest[m..], before[1..], after);
      }
    }
  }

  lemma {:induction false} InterruptedReadsGoOn(data: Bytes, got: Bytes, size: nat, before: seq<Outcome>,
                                                after: seq<Outcome>)
    requires |got| <= size <= |data|
    ensures ReadIn(data, got, size, before + [Interrupted] + after) == ReadIn(data, got, size, before + after)
    decreases |before|
  {
    var all := before + [Interrupted] + after;
    if before == [] {
      assert all[1..] == after && before + after == after;
    } else {
      assert all[1..] == before[1..] + [Interrupted] + after && (before + after)[1..] == before[1..] + after;
      InterruptedReadsGoOn(data, got, size, before[1..], after);
      if |got| < size && before[0].Moved? {
        var m := Min(before[0].n, size - |got|);
        InterruptedReadsGoOn(data, got + data[|got|..|got| + m], size, before[1..], after);
      }
    }
  }

  predicate AllMove(outcomes: seq<Outcome>) {
    forall i :: 0 <= i < |outcomes| ==> outcomes[i].Moved? && outcomes[i].n > 0
  }

  lemma {:induction false} PiecesAddUp(outcomes: seq<Outcome>)
    requires AllMove(outcomes)
    ensures Progress(outcomes) >= |outcomes|
  {
    if outcomes != [] {
      assert outcomes[0].n > 0;
      PiecesAddUp(outcomes[1..]);
    }
  }

  /** Pieces of whatever sizes, one byte each if need be, make the whole: as many
      pieces as there are bytes write and read a secret within the cap. */
  lemma EnoughPiecesSuffice(bytes: Bytes, writings: seq<Outcome>, readings: seq<Outcome>)
    requires AllMove(writings) && AllMove(readings) && |bytes| <= |writings| && |bytes| <= |readings|
    ensures Created(bytes, true, writings, true).Some?
    ensures |bytes| <= 8192 ==> ReadBack(Created(bytes, true, writings, true).value, readings) == Secret(bytes)
  {
    PiecesAddUp(writings);
    PiecesAddUp(readings);
    CreatedHoldsTheBytes(bytes, true, writings, true);
    CreateThenReadIsExact(bytes, writings, readings);
  }

  /** Whatever went before, the first outcome that moves nothing on ends the loop
      by its error, and what it moved until then is a prefix. */
  lemma {:induction false} FirstFailureEnds(file: Bytes, rest: Bytes, before: seq<Outcome>, last: Outcome)
    requires AllMove(before) && Progress(before) < |rest| && (last == Moved(0) || last.Failed?)
    ensures WriteOut(file, rest, before + [last]) ==
            (file + rest[..Progress(before)], Errored(if last.Failed? then last.errno else NoProgress))
    decreases |before|
  {
    if before == [] {
      assert file + rest[..0] == file;
    } else {
      var n := before[0].n;
      assert n > 0 && (before + [last])[1..] == before[1..] + [last];
      FirstFailureEnds(file + rest[..n], rest[n..], before[1..], last);
      assert file + rest[..n] + rest[n..][..Progress(before[1..])] == file + rest[..Progress(before)];
    }
  }

  lemma {:induction false} FirstFailureEndsReading(data: Bytes, got: Bytes, size: nat, before: seq<Outcome>,
                                                   last: Outcome)
    requires |got| <= size <= |data| && AllMove(before)
    requires Progress(before) < size - |got| && (last == Moved(0) || last.Failed?)
    ensures ReadIn(data, got, size, before + [last]).1 == Errored(if last.Failed? then last.errno else NoProgress)
    decreases |before|
  {
    if before != [] {
      var n := before[0].n;
      assert n > 0 && (before + [last])[1..] == before[1..] + [last];
      FirstFailureEndsReading(data, got + data[|got|..|got| + n], size, before[1..], last);
    }
  }

  // An empty secret needs no pread, and is no failure.
  lemma EmptySecretIsRead(readings: seq<Outcome>)
    ensures ReadBack(Created([], true, [], true).value, readings) == Secret([])
  {
  }

  // -- Why the seals are asked for --

  // What somebody else holding the file may still try.
  datatype Edit = Overwrite(at: nat, byte: Byte) | Resize(size: nat)

  predicate Lacks(f: File, seal: Seal) {
    f.seals == None || seal !in f.seals.value
  }

  // The kernel lets an edit through unless a seal forbids it.
  function Edited(f: File, e: Edit): File {
    match e
    case Overwrite(at, byte) => if at < |f.data| && Lacks(f, Write) then f.(data := f.data[at := byte]) else f
    case Resize(size) =>
      if size < |f.data| then (if Lacks(f, Shrink) then f.(data := f.data[..size]) else f)
      else if Lacks(f, Grow) then f.(data := f.data + seq(size - |f.data|, _ => 0))
      else f
  }

  /** The reader refuses, unread, every file somebody could still change; and
      unless it is empty, no other for its seals. */
  lemma RefusedExactlyWhenChangeable(f: File, readings: seq<Outcome>)
    ensures ReadBack(f, readings) == NotSealed <==> exists seal: Seal :: Lacks(f, seal)
    ensures (exists e: Edit :: Edited(f, e).data != f.data) ==> ReadBack(f, readings) == NotSealed
    ensures f.data != [] && ReadBack(f, readings) == NotSealed ==> exists e: Edit :: Edited(f, e).data != f.data
  {
    if f.seals == None {
      assert Lacks(f, Write);
    } else if !(AllSeals <= f.seals.value) {
      var seal: Seal :| seal in AllSeals && seal !in f.seals.value;
      assert Lacks(f, seal);
    } else {
      forall seal: Seal
        ensures !Lacks(f, seal)
      {
        match seal
        case Shrink =>
        case Grow =>
        case Write =>
      }
    }
    if f.data != [] {
      if Lacks(f, Write) {
        assert Edited(f, Overwrite(0, f.data[0] + 1)).data[0] != f.data[0];
      } else if Lacks(f, Shrink) {
        assert |Edited(f, Resize(0)).data| != |f.data|;
      } else if Lacks(f, Grow) {
        assert |Edited(f, Resize(|f.data| + 1)).data| != |f.data|;
      }
    }
  }

  // The preads of a file that is edited in between: before each of them, once.
  function ReadAmid(f: File, got: Bytes, size: nat, outcomes: seq<Outcome>, edits: seq<Edit>): (Bytes, End)
    requires |got| <= size && |edits| == |outcomes|
    decreases |outcomes|
  {
    if |got| == size then (got, Complete)
    else if outcomes == [] then (got, StillRunning)
    else
      var now := Edited(f, edits[0]);
      match outcomes[0]
      case Moved(n) =>
        var m := Min(n, Min(size - |got|, if |got| < |now.data| then |now.data| - |got| else 0));
        if m == 0 then (got, Errored(NoProgress))
        else ReadAmid(now, got + now.data[|got|..|got| + m], size, outcomes[1..], edits[1..])
      case Interrupted => ReadAmid(now, got, size, outcomes[1..], edits[1..])
      case Failed(errno) => (got, Errored(errno))
  }

  /** Whatever anybody tries between the preads of a sealed file, the reader gets
      what it would have got undisturbed. */
  lemma {:induction false} SealedReadIsUndisturbed(f: File, got: Bytes, size: nat, outcomes: seq<Outcome>,
          edits: seq<Edit>)
    requires f.seals.Some? && AllSeals <= f.seals.value
    requires |got| <= size <= |f.data| && |edits| == |outcomes|
    ensures ReadAmid(f, got, size, outcomes, edits) == ReadIn(f.data, got, size, outcomes)
    decreases |outcomes|
  {
    if |got| < size && outcomes != [] {
      assert Edited(f, edits[0]) == f;
      match outcomes[0]
      case Moved(n) =>
        var m := Min(n, size - |got|);
        if m > 0 {
          SealedReadIsUndisturbed(f, got + f.data[|got|..|got| + m], size, outcomes[1..], edits[1..]);
        }
      case Interrupted => SealedReadIsUndisturbed(f, got, size, outcomes[1..], edits[1..]);
      case Failed(_) =>
    }
  }

  // -- The loops as they run --

  // An open descriptor and the file behind it.
  class Memfd {
    var data: Bytes
    var seals: Option<set<Seal>>
    var closed: bool

    ghost function Abs(): File
      reads this
    {
      File(data, seals)
    }

    constructor ()
      ensures data == [] && seals == Some({}) && !closed
    {
      data, seals, closed := [], Some({}), false;
    }
  }

  method MakeSealedMemfd(bytes: Bytes, opens: bool, outcomes: seq<Outcome>, addsSeals: bool)
    returns (fd: Memfd?, end: End)
    ensures opens ==> fd != null && fresh(fd)
    ensures end == Complete ==>
              fd != null && !fd.closed && Created(bytes, opens, outcomes, addsSeals) == Some(fd.Abs())
    ensures end != Complete ==> Created(bytes, opens, outcomes, addsSeals) == None
    ensures end.Errored? && fd != null ==> fd.closed
  {
    if !opens {
      return null, Errored(Other(0));
    }
    var f := new Memfd();
    fd := f;
    var off, k := 0, 0;
    while off < |bytes|
      invariant off <= |bytes| && k <= |outcomes|
      invariant !f.closed && f.seals == Some({})
      invariant WriteOut([], bytes, outcomes) == WriteOut(f.data, bytes[off..], outcomes[k..])
      decreases |outcomes| - k
    {
      if k == |outcomes| {
        return fd, StillRunning;
      }
      assert outcomes[k..][1..] == outcomes[k + 1..];
      match outcomes[k] {
        case Interrupted =>
        case Failed(errno) =>
          f.closed := true;
          return fd, Errored(errno);
        case Moved(asked) =>
          var n := Min(asked, |bytes| - off);
          if n == 0 {
            f.closed := true;
            return fd, Errored(NoProgress);
          }
          assert bytes[off..][..n] == bytes[off..off + n] && bytes[off..][n..] == bytes[off + n..];
          f.data := f.data + bytes[off..off + n];
          off := off + n;
      }
      k := k + 1;
    }
    if !addsSeals {
      f.closed := true;
      return fd, Errored(Other(1));
    }
    f.seals := Some(AllSeals);
    end := Complete;
  }

  method Scrub(buffer: array<Byte>)
    modifies buffer
    ensures forall i :: 0 <= i < buffer.Length ==> buffer[i] == 0
  {
    for i := 0 to buffer.Length
      invariant forall j :: 0 <= j < i ==> buffer[j] == 0
    {
      buffer[i] := 0;
    }
  }

  // The descriptor is closed and the buffer left without a secret byte,
  // whatever is returned.
  method ReadSecret(fd: Memfd?, outcomes: seq<Outcome>) returns (r: ReadResult, ghost buffer: array<Byte>)
    modifies fd
    ensures fd == null <==> r == Invalid
    ensures fd != null ==> r == ReadBack(old(fd.Abs()), outcomes) && fd.Abs() == old(fd.Abs())
    ensures fd != null && r != Unread(StillRunning) ==> fd.closed
    ensures fresh(buffer) && (r != Unread(StillRunning) ==> forall i :: 0 <= i < buffer.Length ==> buffer[i] == 0)
  {
    buffer := new Byte[0];
    if fd == null {
      return Invalid, buffer;
    }
    if fd.seals == None || !(AllSeals <= fd.seals.value) {
      fd.closed := true;
      return NotSealed, buffer;
    }
    var size := |fd.data|;
    if size > MaxSecretBytes {
      fd.closed := true;
      return TooLarge, buffer;
    }
    if size == 0 {
      fd.closed := true;
      return Secret([]), buffer;
    }
    var bytes := new Byte[size](_ => 0);
    buffer := bytes;
    var total: nat, k: nat := 0, 0;
    while total < size
      invariant total <= size && k <= |outcomes|
      invariant fd.Abs() == old(fd.Abs()) && fresh(bytes)
      invariant ReadIn(fd.data, [], size, outcomes) == ReadIn(fd.data, bytes[..total], size, outcomes[k..])
      decreases |outcomes| - k
    {
      if k == |outcomes| {
        return Unread(StillRunning), buffer;
      }
      assert outcomes[k..][1..] == outcomes[k + 1..];
      match outcomes[k] {
        case Interrupted =>
        case Failed(errno) =>
          Scrub(bytes);
          fd.closed := true;
          return Unread(Errored(errno)), buffer;
        case Moved(given) =>
          var n := Min(given, size - total);
          if n == 0 {
            Scrub(bytes);
            fd.closed := true;
            return Unread(Errored(NoProgress)), buffer;
          }
          ghost var before := bytes[..total];
          forall i | total <= i < total + n {
            bytes[i] := fd.data[i];
          }
          assert bytes[..total + n] == before + fd.data[total..total + n];
          total := total + n;
      }
      k := k + 1;
    }
    r := Secret(bytes[..]);
    assert bytes[..] == bytes[..total];
    Scrub(bytes);
    fd.closed := true;
  }
}
