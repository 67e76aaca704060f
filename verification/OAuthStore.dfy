/**
 * The credential records: one per server, holding a slot per authorization-server issuer and, beside the slots, the
 * legacy unkeyed credentials that older snapshots carry.
 */
module OAuthStore {
  import opened Options

  type Url = string
  type Issuer = string

  /** The three credentials an issuer can hold. */
  datatype Kind = ClientInformation | RegistrationKind | Tokens

  datatype Slot = Slot(clientInformation: Option<string>, registrationKind: Option<string>, tokens: Option<string>)

  const EMPTY_SLOT: Slot := Slot(None, None, None)

  /** `unkeyed` is the legacy fallback. */
  datatype ServerState = ServerState(
    byIssuer: map<Issuer, Slot>,
    activeIssuer: Option<Issuer>,
    preregistered: Option<string>,
    enterpriseManaged: bool,
    unkeyed: Slot)

  const EMPTY_SERVER: ServerState := ServerState(map[], None, None, false, EMPTY_SLOT)

  type Servers = map<Url, ServerState>

  function Of(slot: Slot, kind: Kind): Option<string> {
    match kind
    case ClientInformation => slot.clientInformation
    case RegistrationKind => slot.registrationKind
    case Tokens => slot.tokens
  }

  datatype Op =
    | SaveClientInformation(url: Url, information: string, registrationKind: string, issuer: Option<Issuer>)
    | SavePreregistered(url: Url, information: string)
    | ClearPreregistered(url: Url)
    | ClearClientInformation(url: Url, issuer: Option<Issuer>)
    | SaveTokens(url: Url, tokens: string, issuer: Option<Issuer>, enterpriseManaged: bool)
    | ClearTokens(url: Url, issuer: Option<Issuer>)
    | Clear(url: Url)
    | ClearEnterpriseManaged

  // ----- What each mutator does to the records -----

  function ServerOf(servers: Servers, url: Url): ServerState {
    if url in servers then servers[url] else EMPTY_SERVER
  }

  function SlotOf(state: ServerState, issuer: Issuer): Slot {
    if issuer in state.byIssuer then state.byIssuer[issuer] else EMPTY_SLOT
  }

  function PutSlot(state: ServerState, issuer: Issuer, slot: Slot): ServerState {
    state.(byIssuer := state.byIssuer[issuer := slot])
  }

  function WithoutClient(slot: Slot): Slot {
    slot.(clientInformation := None, registrationKind := None)
  }

  function WithoutTokens(slot: Slot): Slot {
    slot.(tokens := None)
  }

  function MapSlots(state: ServerState, f: Slot -> Slot): ServerState {
    state.(byIssuer := map issuer <- state.byIssuer :: f(state.byIssuer[issuer]))
  }

  function Update(state: ServerState, op: Op): ServerState
    requires !op.Clear? && !op.ClearEnterpriseManaged?
  {
    match op
    case SaveClientInformation(_, information, kind, Some(issuer)) =>
      var slot := SlotOf(state, issuer).(clientInformation := Some(information), registrationKind := Some(kind));
      PutSlot(state, issuer, slot).(activeIssuer := Some(issuer), unkeyed := WithoutClient(state.unkeyed))
    case SaveClientInformation(_, information, kind, None) =>
      state.(unkeyed := state.unkeyed.(clientInformation := Some(information), registrationKind := Some(kind)))
    case SavePreregistered(_, information) =>
      state.(preregistered := Some(information), unkeyed := state.unkeyed.(registrationKind := Some("static")))
    case ClearPreregistered(_) =>
      state.(preregistered := None)
    case ClearClientInformation(_, Some(issuer)) =>
      PutSlot(state, issuer, WithoutClient(SlotOf(state, issuer)))
    case ClearClientInformation(_, None) =>
      MapSlots(state, WithoutClient).(unkeyed := WithoutClient(state.unkeyed))
    case SaveTokens(_, tokens, Some(issuer), managed) =>
      PutSlot(state, issuer, SlotOf(state, issuer).(tokens := Some(tokens)))
        .(activeIssuer := Some(issuer), unkeyed := WithoutTokens(state.unkeyed),
          enterpriseManaged := state.enterpriseManaged || managed)
    case SaveTokens(_, tokens, None, managed) =>
      state.(unkeyed := state.unkeyed.(tokens := Some(tokens)), enterpriseManaged := state.enterpriseManaged || managed)
    case ClearTokens(_, Some(issuer)) =>
      PutSlot(state, issuer, WithoutTokens(SlotOf(state, issuer)))
    case ClearTokens(_, None) =>
      MapSlots(state, WithoutTokens).(unkeyed := WithoutTokens(state.unkeyed))
  }

  function Apply(servers: Servers, op: Op): Servers {
    match op
    case Clear(url) => servers - {url}
    case ClearEnterpriseManaged => map url <- servers | !servers[url].enterpriseManaged :: servers[url]
    case _ => servers[op.url := Update(ServerOf(servers, op.url), op)]
  }

  function ApplyAll(servers: Servers, history: seq<Op>): Servers {
    if history == [] then servers
    else Apply(ApplyAll(servers, history[..|history| - 1]), history[|history| - 1])
  }

  // ----- Reads -----

  /** A value read, stamped with the issuer when it came from that issuer's slot. */
  datatype Credential = Credential(value: string, stamp: Option<Issuer>)

  function ReadIssuer(state: ServerState, issuer: Option<Issuer>): Option<Issuer> {
    if issuer.Some? then issuer else state.activeIssuer
  }

  /** An empty issuer never reaches a slot. */
  function Read(servers: Servers, url: Url, issuer: Option<Issuer>, kind: Kind): Option<Credential> {
    var state := ServerOf(servers, url);
    var key := ReadIssuer(state, issuer);
    var fromSlot := if key.None? || key.value == "" then None else Of(SlotOf(state, key.value), kind);
    match (fromSlot, Of(state.unkeyed, kind))
    case (Some(value), _) => Some(Credential(value, key))
    case (None, Some(value)) => Some(Credential(value, None))
    case (None, None) => None
  }
}
