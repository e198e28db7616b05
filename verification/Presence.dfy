/**
 The presence snapshot: which reader holds which card, keyed by object path,
 against the readers themselves.
 */
module Presence {
  import opened Wrappers
  import opened ObjectPath

  datatype PresenceEntry = PresenceEntry(name: string, hasCard: bool, cardPath: string)

  // A reader as the core knows it; `card` is Invalid when it holds none.
  datatype Reader = Reader(name: string, hasCard: bool, card: ObjectId)

  datatype ReaderCard = ReaderCard(readerName: string, cardKey: string)

  datatype Delta =
    | PublishReader(id: ObjectId, reader: Reader)
    | PublishCard(id: ObjectId)
    | Update(id: ObjectId, hasCard: bool, card: ObjectId)
    | Relabel(id: ObjectId)
    | Withdraw(id: ObjectId)

  type Snapshot = map<string, PresenceEntry>
  type Readers = map<ObjectId, Reader>

  function CardPath(card: ObjectId): string {
    if card != Invalid then Print("card", card) else "/"
  }

  function EntryFor(r: Reader): PresenceEntry {
    PresenceEntry(r.name, r.hasCard, CardPath(r.card))
  }

  // What a delta means for the readers ...
  function Apply(readers: Readers, d: Delta): Readers {
    match d
    case PublishReader(id, reader) => readers[id := reader]
    case Update(id, hasCard, card) =>
      if id in readers then readers[id := readers[id].(hasCard := hasCard, card := card)] else readers
    case Withdraw(id) => readers - {id}
    case _ => readers
  }

  // ... and for the snapshot.
  function ApplyToSnapshot(p: Snapshot, d: Delta): Snapshot {
    match d
    case PublishReader(id, reader) => p[Print("reader", id) := EntryFor(reader)]
    case Update(id, hasCard, card) =>
      var path := Print("reader", id);
      if path in p then p[path := p[path].(hasCard := hasCard, cardPath := CardPath(card))] else p
    case Withdraw(id) => p - {Print("reader", id)}
    case _ => p
  }

  function ReadersAfter(deltas: seq<Delta>): Readers {
    if deltas == [] then map[] else Apply(ReadersAfter(deltas[..|deltas| - 1]), deltas[|deltas| - 1])
  }

  function SnapshotAfter(deltas: seq<Delta>): Snapshot {
    if deltas == [] then map[] else ApplyToSnapshot(SnapshotAfter(deltas[..|deltas| - 1]), deltas[|deltas| - 1])
  }

  predicate HoldsCard(e: PresenceEntry) {
    e.hasCard && e.cardPath != "" && e.cardPath != "/"
  }

  // resolveReaderCard
  function Resolve(p: Snapshot, path: string): Option<ReaderCard> {
    if path !in p || !HoldsCard(p[path]) then None else Some(ReaderCard(p[path].name, p[path].cardPath))
  }

  // One entry for each reader, under its own key, and no other.
  ghost predicate Keyed<K>(p: map<K, PresenceEntry>, readers: Readers, key: ObjectId -> K) {
    && (forall id: ObjectId | id in readers :: key(id) in p && p[key(id)] == EntryFor(readers[id]))
    && (forall k: K | k in p :: exists id: ObjectId :: id in readers && k == key(id))
  }

  ghost predicate Injective<K(!new)>(key: ObjectId -> K) {
    forall id: ObjectId, id': ObjectId :: key(id) == key(id') ==> id == id'
  }

  ghost predicate Projects(p: Snapshot, readers: Readers) {
    Keyed(p, readers, id => Print("reader", id))
  }

  lemma ReaderPathsDiffer()
    ensures Injective(id => Print("reader", id))
  {
    forall id: ObjectId, id': ObjectId | Print("reader", id) == Print("reader", id')
      ensures id == id'
    {
      PrintIsInjective("reader", id, "reader", id');
    }
  }

  // Entries and readers move together, one id and its key at a time.
  lemma SetKeepsKeyed<K(!new)>(p: map<K, PresenceEntry>, readers: Readers, key: ObjectId -> K, id: ObjectId,
          reader: Reader)
    requires Injective(key) && Keyed(p, readers, key)
    ensures Keyed(p[key(id) := EntryFor(reader)], readers[id := reader], key)
  {
    var p', readers' := p[key(id) := EntryFor(reader)], readers[id := reader];
    forall k: K | k in p'
      ensures exists other: ObjectId :: other in readers' && k == key(other)
    {
      if k == key(id) {
        assert id in readers';
      } else {
        var other: ObjectId :| other in readers && k == key(other);
        assert other in readers';
      }
    }
  }

  lemma EraseKeepsKeyed<K(!new)>(p: map<K, PresenceEntry>, readers: Readers, key: ObjectId -> K, id: ObjectId)
    requires Injective(key) && Keyed(p, readers, key)
    ensures Keyed(p - {key(id)}, readers - {id}, key)
  {
    forall k: K | k in p - {key(id)}
      ensures exists other: ObjectId :: other in readers - {id} && k == key(other)
    {
      var other: ObjectId :| other in readers && k == key(other);
      assert other in readers - {id};
    }
  }

  lemma IsKeyed<K(!new)>(p: map<K, PresenceEntry>, readers: Readers, key: ObjectId -> K, id: ObjectId)
    requires Injective(key) && Keyed(p, readers, key)
    ensures key(id) in p <==> id in readers
  {
  }

  lemma UpdateKeepsKeyed<K(!new)>(p: map<K, PresenceEntry>, readers: Readers, key: ObjectId -> K, id: ObjectId,
                                  hasCard: bool, card: ObjectId)
    requires Injective(key) && Keyed(p, readers, key)
    ensures var k := key(id);
      Keyed(if k in p then p[k := p[k].(hasCard := hasCard, cardPath := CardPath(card))] else p,
            if id in readers then readers[id := readers[id].(hasCard := hasCard, card := card)] else readers, key)
  {
    IsKeyed(p, readers, key, id);
    if id in readers {
      SetKeepsKeyed(p, readers, key, id, readers[id].(hasCard := hasCard, card := card));
    }
  }

  lemma IsProjected(p: Snapshot, readers: Readers, id: ObjectId)
    requires Projects(p, readers)
    ensures Print("reader", id) in p <==> id in readers
  {
    ReaderPathsDiffer();
    IsKeyed(p, readers, id => Print("reader", id), id);
  }

  lemma ApplyKeepsProjection(p: Snapshot, readers: Readers, d: Delta)
    requires Projects(p, readers)
    ensures Projects(ApplyToSnapshot(p, d), Apply(readers, d))
  {
    var key := id => Print("reader", id);
    ReaderPathsDiffer();
    match d
    case PublishReader(id, reader) => SetKeepsKeyed(p, readers, key, id, reader);
    case Update(id, hasCard, card) => UpdateKeepsKeyed(p, readers, key, id, hasCard, card);
    case Withdraw(id) => EraseKeepsKeyed(p, readers, key, id);
    case _ =>
  }

  lemma {:induction false} SnapshotProjects(deltas: seq<Delta>)
    ensures Projects(SnapshotAfter(deltas), ReadersAfter(deltas))
  {
    if deltas != [] {
      SnapshotProjects(deltas[..|deltas| - 1]);
      ApplyKeepsProjection(SnapshotAfter(deltas[..|deltas| - 1]), ReadersAfter(deltas[..|deltas| - 1]),
                           deltas[|deltas| - 1]);
    }
  }

  // -- Main results --

  lemma CardPathIsNoSentinel(card: ObjectId)
    ensures CardPath(card) != "" && (CardPath(card) == "/" <==> card == Invalid)
  {
    if card != Invalid {
      assert |Print("card", card)| > 1;
    }
  }

  /** After any deltas, resolving a reader's path tells exactly what the core
      knows: a card's path if and only if the reader is there and holds a card,
      and the id read back from that path is the card's. */
  lemma ResolveAgreesWithTheReaders(deltas: seq<Delta>, id: ObjectId)
    ensures var readers := ReadersAfter(deltas); var r := Resolve(SnapshotAfter(deltas), Print("reader", id));
      && (r.Some? <==> id in readers && readers[id].hasCard && readers[id].card != Invalid)
      && (r.Some? ==>
            && r.value.readerName == readers[id].name
            && (readers[id].card < Limit ==> FromPath(r.value.cardKey) == readers[id].card))
  {
    SnapshotProjects(deltas);
    var p, readers := SnapshotAfter(deltas), ReadersAfter(deltas);
    var path := Print("reader", id);
    IsProjected(p, readers, id);
    if id in readers {
      assert p[path] == EntryFor(readers[id]);
      EntryResolves(p, path, readers[id]);
    }
  }

  lemma EntryResolves(p: Snapshot, path: string, reader: Reader)
    requires path in p && p[path] == EntryFor(reader)
    ensures Resolve(p, path) == if reader.hasCard && reader.card != Invalid
                                then Some(ReaderCard(reader.name, Print("card", reader.card))) else None
    ensures reader.card < Limit ==> FromPath(Print("card", reader.card)) == reader.card
  {
    CardPathIsNoSentinel(reader.card);
    ParseInvertsPrint("card", reader.card);
  }

  /** A path that is no reader's resolves to nothing: neither a card's, nor one
      that names a reader with leading zeros. */
  lemma OtherPathsResolveToNothing(deltas: seq<Delta>, path: string)
    requires forall id: ObjectId :: path != Print("reader", id)
    ensures Resolve(SnapshotAfter(deltas), path) == None
  {
    SnapshotProjects(deltas);
  }

  // What a reader with this name, state and card resolves to.
  predicate ResolvesTo(p: Snapshot, id: ObjectId, name: string, hasCard: bool, card: ObjectId) {
    Resolve(p, Print("reader", id)) ==
    if hasCard && card != 0 then Some(ReaderCard(name, Print("card", card))) else None
  }

  /** What one more delta shows: a published reader resolves as it was published,
      an update of a known one changes its state and card and keeps its name, an
      update of an unknown one nothing, and a withdrawn one is gone; cards, and
      the labels of cards, are not the snapshot's. */
  lemma EachDeltaIsSeen(deltas: seq<Delta>, id: ObjectId, reader: Reader, hasCard: bool, card: ObjectId)
    ensures ResolvesTo(SnapshotAfter(deltas + [PublishReader(id, reader)]), id,
                       reader.name, reader.hasCard, reader.card)
    ensures var p := SnapshotAfter(deltas);
      if Print("reader", id) in p then
        ResolvesTo(SnapshotAfter(deltas + [Update(id, hasCard, card)]), id, p[Print("reader", id)].name, hasCard, card)
      else SnapshotAfter(deltas + [Update(id, hasCard, card)]) == p
    ensures Print("reader", id) in SnapshotAfter(deltas + [PublishReader(id, reader)])
    ensures Print("reader", id) !in SnapshotAfter(deltas + [Withdraw(id)])
    ensures SnapshotAfter(deltas + [PublishCard(id)]) == SnapshotAfter(deltas + [Relabel(id)]) == SnapshotAfter(deltas)
  {
    forall d: Delta
      ensures SnapshotAfter(deltas + [d]) == ApplyToSnapshot(SnapshotAfter(deltas), d)
    {
      assert (deltas + [d])[..|deltas|] == deltas;
    }
    CardPathIsNoSentinel(reader.card);
    CardPathIsNoSentinel(card);
  }

  /** A delta shows in its own reader's entry alone. */
  lemma OtherReadersStay(deltas: seq<Delta>, d: Delta, other: ObjectId)
    requires d.id != other
    ensures var p, q := SnapshotAfter(deltas), SnapshotAfter(deltas + [d]); var path := Print("reader", other);
      (path in q <==> path in p) && (path in p ==> q[path] == p[path])
  {
    assert (deltas + [d])[..|deltas|] == deltas;
    if Print("reader", d.id) == Print("reader", other) {
      PrintIsInjective("reader", d.id, "reader", other);
    }
  }

  // Ids are given out once: none is published twice, nor as a reader and a card.
  predicate Published(deltas: seq<Delta>, id: ObjectId) {
    exists i :: 0 <= i < |deltas| && (deltas[i].PublishReader? || deltas[i].PublishCard?) && deltas[i].id == id
  }

  predicate IdsAreNew(deltas: seq<Delta>) {
    forall i :: 0 <= i < |deltas| && (deltas[i].PublishReader? || deltas[i].PublishCard?)
                ==> !Published(deltas[..i], deltas[i].id)
  }

  lemma {:induction false} ReadersWerePublished(deltas: seq<Delta>, id: ObjectId)
    requires id in ReadersAfter(deltas)
    ensures exists i :: 0 <= i < |deltas| && deltas[i].PublishReader? && deltas[i].id == id
  {
    var last := deltas[|deltas| - 1];
    if last.PublishReader? && last.id == id {
      assert deltas[|deltas| - 1] == last;
    } else {
      ReadersWerePublished(deltas[..|deltas| - 1], id);
      var i :| 0 <= i < |deltas| - 1 && deltas[..|deltas| - 1][i].PublishReader? && deltas[..|deltas| - 1][i].id == id;
      assert deltas[i].PublishReader? && deltas[i].id == id;
    }
  }

  lemma CardsAreNoReaders(deltas: seq<Delta>, card: ObjectId, i: nat)
    requires IdsAreNew(deltas) && i < |deltas| && deltas[i] == PublishCard(card)
    ensures card !in ReadersAfter(deltas)
  {
    forall j: nat | j < |deltas| && deltas[j].PublishReader?
      ensures deltas[j].id != card
    {
      if i < j {
        assert deltas[..j][i] == deltas[i];
      } else {
        assert deltas[..i][j] == deltas[j];
      }
    }
    if card in ReadersAfter(deltas) {
      ReadersWerePublished(deltas, card);
    }
  }

  /** Withdrawing a card takes no reader away, whatever happened before. */
  lemma WithdrawingACardKeepsEveryReader(deltas: seq<Delta>, card: ObjectId, i: nat)
    requires IdsAreNew(deltas) && i < |deltas| && deltas[i] == PublishCard(card)
    ensures SnapshotAfter(deltas + [Withdraw(card)]) == SnapshotAfter(deltas)
  {
    assert (deltas + [Withdraw(card)])[..|deltas|] == deltas;
    CardsAreNoReaders(deltas, card, i);
    SnapshotProjects(deltas);
    IsProjected(SnapshotAfter(deltas), ReadersAfter(deltas), card);
    RemovingNothing(SnapshotAfter(deltas), Print("reader", card));
  }

  lemma RemovingNothing<K, V>(p: map<K, V>, k: K)
    requires k !in p
    ensures p - {k} == p
  {
  }

  /** Withdrawing a reader takes that one away and no other. */
  lemma WithdrawingAReaderTakesOnlyIt(deltas: seq<Delta>, reader: ObjectId, other: ObjectId)
    ensures Resolve(SnapshotAfter(deltas + [Withdraw(reader)]), Print("reader", reader)) == None
    ensures other != reader ==>
              Resolve(SnapshotAfter(deltas + [Withdraw(reader)]), Print("reader", other))
              == Resolve(SnapshotAfter(deltas), Print("reader", other))
  {
    assert (deltas + [Withdraw(reader)])[..|deltas|] == deltas;
    if Print("reader", reader) == Print("reader", other) {
      PrintIsInjective("reader", reader, "reader", other);
    }
  }

  // -- The roster, in the order of the paths --

  // The order of std::string.
  predicate Before(a: string, b: string) {
    b != [] && (a == [] || a[0] < b[0] || (a[0] == b[0] && Before(a[1..], b[1..])))
  }

  lemma {:induction false} BeforeIsTransitive(a: string, b: string, c: string)
    requires Before(a, b) && Before(b, c)
    ensures Before(a, c)
  {
    if a != [] && a[0] == b[0] && b[0] == c[0] {
      BeforeIsTransitive(a[1..], b[1..], c[1..]);
    }
  }

  lemma {:induction false} BeforeIsTotal(a: string, b: string)
    ensures a == b || Before(a, b) || Before(b, a)
  {
    if a != [] && b != [] && a[0] == b[0] {
      BeforeIsTotal(a[1..], b[1..]);
      assert a == [a[0]] + a[1..] && b == [b[0]] + b[1..];
    }
  }

  // The first key of a map in its order.
  method Least(keys: set<string>) returns (least: string)
    requires keys != {}
    ensures least in keys && forall k: string | k in keys :: k == least || Before(least, k)
  {
    least :| least in keys;
    var rest := keys - {least};
    while rest != {}
      invariant rest <= keys && least in keys
      invariant forall k: string | k in keys - rest :: k == least || Before(least, k)
      decreases rest
    {
      var k :| k in rest;
      rest := rest - {k};
      if Before(k, least) {
        forall other: string | other in keys - rest
          ensures other == k || Before(k, other)
        {
          if other != k && other != least {
            BeforeIsTransitive(k, least, other);
          }
        }
        least := k;
      } else {
        BeforeIsTotal(k, least);
      }
    }
  }

  // What the roster shows of an entry: "/" and the empty path are no card.
  function CardKey(e: PresenceEntry): string {
    if HoldsCard(e) then e.cardPath else ""
  }

  // One row for each of these paths, in their order, of that path's own entry.
  predicate Lists(p: Snapshot, paths: seq<string>, names: seq<string>, cardKeys: seq<string>) {
    && |paths| == |names| == |cardKeys|
    && (forall i, j :: 0 <= i < j < |paths| ==> Before(paths[i], paths[j]))
    && forall i :: 0 <= i < |paths| ==>
         paths[i] in p && names[i] == p[paths[i]].name && cardKeys[i] == CardKey(p[paths[i]])
  }

  predicate IsRoster(p: Snapshot, paths: seq<string>, names: seq<string>, cardKeys: seq<string>) {
    Lists(p, paths, names, cardKeys) && (set i | 0 <= i < |paths| :: paths[i]) == p.Keys
  }

  /** A roster has exactly one row for each reader, with its own name
      and the key of the card it holds. */
  lemma RosterAgreesWithTheReaders(deltas: seq<Delta>, paths: seq<string>, names: seq<string>, cardKeys: seq<string>,
                                   id: ObjectId)
    requires IsRoster(SnapshotAfter(deltas), paths, names, cardKeys)
    ensures id in ReadersAfter(deltas) <==> exists i :: 0 <= i < |paths| && paths[i] == Print("reader", id)
    ensures forall i :: 0 <= i < |paths| && paths[i] == Print("reader", id) ==>
              var r := ReadersAfter(deltas)[id];
              && id in ReadersAfter(deltas) && names[i] == r.name
              && cardKeys[i] == if r.hasCard && r.card != Invalid then Print("card", r.card) else ""
  {
    SnapshotProjects(deltas);
    IsProjected(SnapshotAfter(deltas), ReadersAfter(deltas), id);
    if id in ReadersAfter(deltas) {
      assert Print("reader", id) in (set i | 0 <= i < |paths| :: paths[i]);
      CardPathIsNoSentinel(ReadersAfter(deltas)[id].card);
    }
  }

  class Exporter {
    var presence: Snapshot
    ghost var deltas: seq<Delta>

    ghost predicate Valid()
      reads this
    {
      presence == SnapshotAfter(deltas)
    }

    constructor ()
      ensures Valid() && deltas == []
    {
      presence, deltas := map[], [];
    }

    ghost method Took(d: Delta)
      requires presence == ApplyToSnapshot(SnapshotAfter(deltas), d)
      modifies `deltas
      ensures Valid() && deltas == old(deltas) + [d]
    {
      assert (deltas + [d])[..|deltas|] == deltas;
      deltas := deltas + [d];
    }

    method PublishReaderState(id: ObjectId, reader: Reader)
      requires Valid()
      modifies this
      ensures Valid() && deltas == old(deltas) + [PublishReader(id, reader)]
    {
      var cardPath := if reader.card != Invalid then Print("card", reader.card) else "/";
      presence := presence[Print("reader", id) := PresenceEntry(reader.name, reader.hasCard, cardPath)];
      Took(PublishReader(id, reader));
    }

    method UpdateProperties(id: ObjectId, hasCard: bool, card: ObjectId)
      requires Valid()
      modifies this
      ensures Valid() && deltas == old(deltas) + [Update(id, hasCard, card)]
    {
      var path := Print("reader", id);
      var cardPath := if card != Invalid then Print("card", card) else "/";
      if path in presence {
        presence := presence[path := presence[path].(hasCard := hasCard, cardPath := cardPath)];
      }
      Took(Update(id, hasCard, card));
    }

    method WithdrawObject(id: ObjectId)
      requires Valid()
      modifies this
      ensures Valid() && deltas == old(deltas) + [Withdraw(id)]
    {
      presence := presence - {Print("reader", id)};
      Took(Withdraw(id));
    }

    method ResolveReaderCard(path: string) returns (card: Option<ReaderCard>)
      requires Valid()
      ensures card == Resolve(SnapshotAfter(deltas), path)
    {
      if path !in presence {
        return None;
      }
      var entry := presence[path];
      if !entry.hasCard || entry.cardPath == "" || entry.cardPath == "/" {
        return None;
      }
      card := Some(ReaderCard(entry.name, entry.cardPath));
    }

    method PresenceRoster() returns (names: seq<string>, cardKeys: seq<string>)
      requires Valid()
      ensures exists paths: seq<string> :: IsRoster(SnapshotAfter(deltas), paths, names, cardKeys)
    {
      names, cardKeys := [], [];
      ghost var paths: seq<string> := [];
      var rest := presence.Keys;
      while rest != {}
        invariant Lists(presence, paths, names, cardKeys)
        invariant rest <= presence.Keys
        invariant forall path: string | path in presence :: path in rest <==> path !in paths
        invariant forall i, path: string :: 0 <= i < |paths| && path in rest ==> Before(paths[i], path)
        decreases rest
      {
        var path := Least(rest);
        names := names + [presence[path].name];
        cardKeys := cardKeys + [CardKey(presence[path])];
        paths := paths + [path];
        rest := rest - {path};
      }
      assert IsRoster(presence, paths, names, cardKeys);
    }
  }
}
