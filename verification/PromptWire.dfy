/**
 What crosses between the agent and the prompter: the option dictionary the
 agent marshals and the prompter lifts, the in-dialog MRZ offer both sides
 compute for themselves, and what the agent makes of the reply.
 */
module PromptWire {
  import opened Wrappers

  type UInt32 = x: nat | x < 0x1_0000_0000

  // The secret kinds. RequestSecret speaks the first three, RequestSecrets the last.
  datatype Kind = Pin | Can | Mrz | ChangePin

  // The words of the kind vocabulary; any other word is None.
  function KindWord(k: Kind): string {
    match k
    case Pin => "pin"
    case Can => "can"
    case Mrz => "mrz"
    case ChangePin => "change_pin"
  }

  datatype Key =
    | PromptIdKey | DeadlineKey | AltDeadlineKey | AltKindsKey
    | ReaderModelKey | ReaderInterfaceKey | ReaderFullKey
    | TitleKey | DescriptionKey | RequesterKey | ArtifactKey | ArtifactsKey
    | MinLengthKey | MaxLengthKey | AttemptKey | LastErrorKey

  datatype Variant = Text(text: string) | Texts(texts: seq<string>) | Number(number: UInt32)

  type Dict = map<Key, Variant>

  // The agent's side of one request. An unknown reader interface is None.
  datatype PromptOptions = PromptOptions(
    promptId: string, deadlineMs: UInt32, altDeadlineMs: UInt32, altKinds: seq<string>,
    readerModel: string, readerInterface: Option<string>, readerFull: string,
    title: string, description: string, requester: string, artifact: string, artifacts: seq<string>,
    minLength: UInt32, maxLength: UInt32, attempt: UInt32, lastError: string)

  // ---------------------------------------------------------------------
  // The prompter lifts
  // ---------------------------------------------------------------------

  function OptionString(d: Dict, k: Key): string {
    if k in d && d[k].Text? then d[k].text else ""
  }

  function OptionStringList(d: Dict, k: Key): seq<string> {
    if k in d && d[k].Texts? then d[k].texts else []
  }

  function OptionUInt(d: Dict, k: Key, fallback: UInt32): UInt32 {
    if k in d && d[k].Number? then d[k].number else fallback
  }

  // static_cast<int> of a 32-bit value.
  function AsInt(u: UInt32): (i: int)
    ensures -0x8000_0000 <= i < 0x8000_0000 && (u - i) % 0x1_0000_0000 == 0
  {
    if u < 0x8000_0000 then u else u - 0x1_0000_0000
  }

  // The options the dialog is built from.
  datatype DialogOptions = DialogOptions(
    title: string, description: string, requester: string, artifact: string, artifacts: seq<string>,
    minLength: int, maxLength: int, attempt: int, lastError: string, altKinds: seq<string>,
    readerModel: string, readerInterface: string, readerFull: string)

  function BuildOptions(d: Dict): (out: DialogOptions)
    ensures out.minLength <= out.maxLength
  {
    var lo := AsInt(OptionUInt(d, MinLengthKey, 4));
    var hi := AsInt(OptionUInt(d, MaxLengthKey, 8));
    DialogOptions(
      OptionString(d, TitleKey), OptionString(d, DescriptionKey), OptionString(d, RequesterKey),
      OptionString(d, ArtifactKey), OptionStringList(d, ArtifactsKey),
      lo, if hi < lo then lo else hi, AsInt(OptionUInt(d, AttemptKey, 0)), OptionString(d, LastErrorKey),
      OptionStringList(d, AltKindsKey), OptionString(d, ReaderModelKey),
      OptionString(d, ReaderInterfaceKey), OptionString(d, ReaderFullKey))
  }

  // RequestSecret's one decision whether the window offers the switch to MRZ.
  predicate PrompterOffers(kind: Kind, d: Dict) {
    kind == Can && KindWord(Mrz) in BuildOptions(d).altKinds
  }

  // ---------------------------------------------------------------------
  // The agent marshals
  // ---------------------------------------------------------------------

  predicate AgentOffered(kind: Kind, options: PromptOptions) {
    kind == Can && KindWord(Mrz) in options.altKinds
  }

  function TextOption(value: string): Option<Variant> {
    if value == "" then None else Some(Text(value))
  }

  function TextsOption(value: seq<string>): Option<Variant> {
    if value == [] then None else Some(Texts(value))
  }

  function NumberOption(value: UInt32): Option<Variant> {
    if value == 0 then None else Some(Number(value))
  }

  function ReaderInterfaceOption(o: PromptOptions): Option<Variant> {
    if o.readerInterface.None? then None else Some(Text(o.readerInterface.value))
  }

  // What each key should carry: nothing for an option at its default.
  function Wanted(o: PromptOptions, k: Key): Option<Variant> {
    match k
    case PromptIdKey => TextOption(o.promptId)
    case DeadlineKey => NumberOption(o.deadlineMs)
    case AltDeadlineKey => NumberOption(o.altDeadlineMs)
    case AltKindsKey => TextsOption(o.altKinds)
    case ReaderModelKey => TextOption(o.readerModel)
    case ReaderInterfaceKey => ReaderInterfaceOption(o)
    case ReaderFullKey => TextOption(o.readerFull)
    case TitleKey => TextOption(o.title)
    case DescriptionKey => TextOption(o.description)
    case RequesterKey => TextOption(o.requester)
    case ArtifactKey => TextOption(o.artifact)
    case ArtifactsKey => TextsOption(o.artifacts)
    case MinLengthKey => NumberOption(o.minLength)
    case MaxLengthKey => NumberOption(o.maxLength)
    case AttemptKey => NumberOption(o.attempt)
    case LastErrorKey => TextOption(o.lastError)
  }

  function At(d: Dict, k: Key): Option<Variant> {
    if k in d then Some(d[k]) else None
  }

  // The order the agent marshals the keys in.
  ghost function Position(k: Key): (n: nat)
    ensures n < 16
  {
    match k
    case PromptIdKey => 0
    case DeadlineKey => 1
    case ReaderModelKey => 2
    case ReaderInterfaceKey => 3
    case ReaderFullKey => 4
    case TitleKey => 5
    case DescriptionKey => 6
    case RequesterKey => 7
    case ArtifactKey => 8
    case ArtifactsKey => 9
    case MinLengthKey => 10
    case MaxLengthKey => 11
    case AttemptKey => 12
    case LastErrorKey => 13
    case AltKindsKey => 14
    case AltDeadlineKey => 15
  }

  // The keys marshalled first are carried, and no other key is there.
  ghost predicate CarriesFirst(d: Dict, o: PromptOptions, n: nat) {
    forall k :: At(d, k) == if Position(k) < n then Wanted(o, k) else None
  }

  ghost predicate Carries(d: Dict, o: PromptOptions) {
    forall k :: At(d, k) == Wanted(o, k)
  }

  lemma PositionIsInjective(j: Key, k: Key)
    requires Position(j) == Position(k)
    ensures j == k
  {
  }

  // dict.emplace behind its "is it set" test.
  method Emplace(before: Dict, k: Key, v: Option<Variant>, ghost o: PromptOptions) returns (d: Dict)
    requires CarriesFirst(before, o, Position(k)) && v == Wanted(o, k)
    ensures CarriesFirst(d, o, Position(k) + 1)
  {
    assert At(before, k) == None;
    d := if v.Some? && k !in before then before[k := v.value] else before;
    forall j
      ensures At(d, j) == if Position(j) < Position(k) + 1 then Wanted(o, j) else None
    {
      assert At(before, j) == if Position(j) < Position(k) then Wanted(o, j) else None;
      if Position(j) == Position(k) {
        PositionIsInjective(j, k);
      }
    }
  }

  method EmplaceAddress(before: Dict, o: PromptOptions) returns (d: Dict)
    requires CarriesFirst(before, o, 0)
    ensures CarriesFirst(d, o, 2)
  {
    d := Emplace(before, PromptIdKey, TextOption(o.promptId), o);
    d := Emplace(d, DeadlineKey, NumberOption(o.deadlineMs), o);
  }

  method EmplaceReaderIdentity(before: Dict, o: PromptOptions) returns (d: Dict)
    requires CarriesFirst(before, o, 2)
    ensures CarriesFirst(d, o, 5)
  {
    d := Emplace(before, ReaderModelKey, TextOption(o.readerModel), o);
    d := Emplace(d, ReaderInterfaceKey, ReaderInterfaceOption(o), o);
    d := Emplace(d, ReaderFullKey, TextOption(o.readerFull), o);
  }

  method EmplaceDisplay(before: Dict, o: PromptOptions) returns (d: Dict)
    requires CarriesFirst(before, o, 5)
    ensures CarriesFirst(d, o, 10)
  {
    d := Emplace(before, TitleKey, TextOption(o.title), o);
    d := Emplace(d, DescriptionKey, TextOption(o.description), o);
    d := Emplace(d, RequesterKey, TextOption(o.requester), o);
    d := Emplace(d, ArtifactKey, TextOption(o.artifact), o);
    d := Emplace(d, ArtifactsKey, TextsOption(o.artifacts), o);
  }

  method EmplaceEntryRules(before: Dict, o: PromptOptions) returns (d: Dict)
    requires CarriesFirst(before, o, 10)
    ensures CarriesFirst(d, o, 14)
  {
    d := Emplace(before, MinLengthKey, NumberOption(o.minLength), o);
    d := Emplace(d, MaxLengthKey, NumberOption(o.maxLength), o);
    d := Emplace(d, AttemptKey, NumberOption(o.attempt), o);
    d := Emplace(d, LastErrorKey, TextOption(o.lastError), o);
  }

  method EmplaceAlternative(before: Dict, o: PromptOptions) returns (d: Dict)
    requires CarriesFirst(before, o, 14)
    ensures CarriesFirst(d, o, 16)
  {
    d := Emplace(before, AltKindsKey, TextsOption(o.altKinds), o);
    d := Emplace(d, AltDeadlineKey, NumberOption(o.altDeadlineMs), o);
  }

  method BuildOptionsDict(o: PromptOptions) returns (d: Dict)
    ensures Carries(d, o)
  {
    d := EmplaceAddress(map[], o);
    d := EmplaceReaderIdentity(d, o);
    d := EmplaceDisplay(d, o);
    d := EmplaceEntryRules(d, o);
    d := EmplaceAlternative(d, o);
  }

  // What a key carries, if anything: each kind of option has its own default.
  lemma KeyIsThere(o: PromptOptions, d: Dict, k: Key)
    requires Carries(d, o)
    ensures k in d <==> Wanted(o, k).Some?
  {
    assert At(d, k) == Wanted(o, k);
  }

  /** A key is there exactly when its option is set: where a request goes and
      how it is entered ... */
  lemma SetKeysAreThere(o: PromptOptions, d: Dict)
    requires Carries(d, o)
    ensures PromptIdKey in d <==> o.promptId != ""
    ensures DeadlineKey in d <==> o.deadlineMs != 0
    ensures AltDeadlineKey in d <==> o.altDeadlineMs != 0
    ensures AltKindsKey in d <==> o.altKinds != []
    ensures MinLengthKey in d <==> o.minLength != 0
    ensures MaxLengthKey in d <==> o.maxLength != 0
    ensures AttemptKey in d <==> o.attempt != 0
  {
    KeyIsThere(o, d, PromptIdKey);
    KeyIsThere(o, d, DeadlineKey);
    KeyIsThere(o, d, AltDeadlineKey);
    KeyIsThere(o, d, AltKindsKey);
    KeyIsThere(o, d, MinLengthKey);
    KeyIsThere(o, d, MaxLengthKey);
    KeyIsThere(o, d, AttemptKey);
  }

  /** ... and what the window shows. */
  lemma ShownKeysAreThere(o: PromptOptions, d: Dict)
    requires Carries(d, o)
    ensures ReaderModelKey in d <==> o.readerModel != ""
    ensures ReaderInterfaceKey in d <==> o.readerInterface.Some?
    ensures ReaderFullKey in d <==> o.readerFull != ""
    ensures TitleKey in d <==> o.title != ""
    ensures DescriptionKey in d <==> o.description != ""
    ensures RequesterKey in d <==> o.requester != ""
    ensures ArtifactKey in d <==> o.artifact != ""
    ensures ArtifactsKey in d <==> o.artifacts != []
    ensures LastErrorKey in d <==> o.lastError != ""
  {
    KeyIsThere(o, d, ReaderModelKey);
    KeyIsThere(o, d, ReaderInterfaceKey);
    KeyIsThere(o, d, ReaderFullKey);
    KeyIsThere(o, d, TitleKey);
    KeyIsThere(o, d, DescriptionKey);
    KeyIsThere(o, d, RequesterKey);
    KeyIsThere(o, d, ArtifactKey);
    KeyIsThere(o, d, ArtifactsKey);
    KeyIsThere(o, d, LastErrorKey);
  }

  /** For every kind and every option set, what the agent believes it offered
      is what the prompter offers after marshalling: the MRZ, for a CAN it was
      named as an alternative to. */
  lemma OffersAgree(kind: Kind, options: PromptOptions, d: Dict)
    requires Carries(d, options)
    ensures AgentOffered(kind, options) <==> PrompterOffers(kind, d)
    ensures PrompterOffers(kind, d) <==> kind == Can && "mrz" in options.altKinds
  {
    assert At(d, AltKindsKey) == Wanted(options, AltKindsKey);
  }

  lemma KeyArrives(options: PromptOptions, d: Dict, k: Key)
    requires Carries(d, options)
    ensures At(d, k) == Wanted(options, k)
  {
  }

  /** Lifting undoes marshalling: every option arrives as it was set, and an
      omitted one arrives as the prompter's own default. */
  lemma RoutingArrives(options: PromptOptions, d: Dict)
    requires Carries(d, options)
    ensures OptionString(d, PromptIdKey) == options.promptId
    ensures OptionUInt(d, DeadlineKey, 0) == options.deadlineMs
    ensures OptionUInt(d, AltDeadlineKey, 0) == options.altDeadlineMs
    ensures BuildOptions(d).altKinds == options.altKinds
  {
    KeyArrives(options, d, PromptIdKey);
    KeyArrives(options, d, DeadlineKey);
    KeyArrives(options, d, AltDeadlineKey);
    KeyArrives(options, d, AltKindsKey);
  }

  lemma DisplayArrives(options: PromptOptions, d: Dict)
    requires Carries(d, options)
    ensures
      var out := BuildOptions(d);
      && out.title == options.title && out.description == options.description
      && out.requester == options.requester && out.artifact == options.artifact
      && out.artifacts == options.artifacts && out.lastError == options.lastError
  {
    KeyArrives(options, d, TitleKey);
    KeyArrives(options, d, DescriptionKey);
    KeyArrives(options, d, RequesterKey);
    KeyArrives(options, d, ArtifactKey);
    KeyArrives(options, d, ArtifactsKey);
    KeyArrives(options, d, LastErrorKey);
  }

  lemma ReaderAndRulesArrive(options: PromptOptions, d: Dict)
    requires Carries(d, options)
    ensures
      var out := BuildOptions(d);
      && out.readerModel == options.readerModel && out.readerFull == options.readerFull
      && out.readerInterface == (if options.readerInterface.Some? then options.readerInterface.value else "")
      && out.attempt == AsInt(options.attempt)
      && out.minLength == (if options.minLength > 0 then AsInt(options.minLength) else 4)
      && out.maxLength == var asked := if options.maxLength > 0 then AsInt(options.maxLength) else 8;
           if asked < out.minLength then out.minLength else asked
  {
    KeyArrives(options, d, ReaderModelKey);
    KeyArrives(options, d, ReaderFullKey);
    KeyArrives(options, d, ReaderInterfaceKey);
    KeyArrives(options, d, AttemptKey);
    KeyArrives(options, d, MinLengthKey);
    KeyArrives(options, d, MaxLengthKey);
  }

  // ---------------------------------------------------------------------
  // The reply
  // ---------------------------------------------------------------------

  datatype ReplyStatus = Ok | OkMrz | Cancelled | Timeout | Error | Unauthorized

  // A captured credential: which form it was typed into, and its bytes.
  datatype Secret = Secret(kind: Kind, bytes: string)

  // Every reply carries a real descriptor; None is the empty sealed one.
  datatype Reply = Reply(status: ReplyStatus, secret: Option<Secret>)

  datatype PromptStatus = POk | PCancelled | PTimeout | PError

  // The agent library's reading of a reply status, as its callers rely on it:
  // the MRZ success word is a success only for a caller that offered it.
  function PromptStatusFor(s: ReplyStatus, mrzOffered: bool): PromptStatus {
    match s
    case Ok => POk
    case OkMrz => if mrzOffered then POk else PError
    case Cancelled => PCancelled
    case Timeout => PTimeout
    case Error => PError
    case Unauthorized => PError
  }

  datatype PromptResult = PromptResult(status: PromptStatus, chosenKind: Option<Kind>, secret: Option<string>)

  // What PrompterClient::request makes of a reply. `readable` says whether the
  // sealed descriptor could be read back.
  function RequestResult(kind: Kind, options: PromptOptions, reply: Reply, readable: bool): PromptResult {
    var status := PromptStatusFor(reply.status, AgentOffered(kind, options));
    var chosen := if status == POk && reply.status == OkMrz then Some(Mrz) else None;
    if status != POk then PromptResult(status, chosen, None)
    else if !readable then PromptResult(PError, None, None)
    else PromptResult(POk, chosen, Some(if reply.secret.Some? then reply.secret.value.bytes else ""))
  }
}
