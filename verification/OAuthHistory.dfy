/**
 * The store as a flat map: what a credential is worth is decided by the last operation of the history that touched it,
 * with no records, slots or lazy migration in sight. The records refine this.
 */
module OAuthHistory {
  import opened Options
  import opened OAuthStore

  /** Where a credential lives: under an issuer, or unkeyed. */
  type Place = Option<Issuer>

  predicate TouchesClient(kind: Kind) {
    kind != Tokens
  }

  /**
   * `None` leaves the credential alone; `Some(v)` makes it `v`. `managed` is whether the server is enterprise-managed
   * by then.
   */
  function Effect(op: Op, url: Url, place: Place, kind: Kind, managed: bool): Option<Option<string>> {
    match op
    case Clear(u) => if u == url then Some(None) else None
    case ClearEnterpriseManaged => if managed then Some(None) else None
    case SaveClientInformation(u, information, registration, issuer) =>
      if u != url || !TouchesClient(kind) then None
      else if place == issuer then Some(Some(if kind == ClientInformation then information else registration))
      else if place == None then Some(None)
      else None
    case SavePreregistered(u, _) =>
      if u == url && place == None && kind == RegistrationKind then Some(Some("static")) else None
    case ClearPreregistered(_) => None
    case ClearClientInformation(u, issuer) =>
      if u == url && TouchesClient(kind) && (issuer == None || place == issuer) then Some(None) else None
    case SaveTokens(u, tokens, issuer, _) =>
      if u != url || kind != Tokens then None
      else if place == issuer then Some(Some(tokens))
      else if place == None then Some(None)
      else None
    case ClearTokens(u, issuer) =>
      if u == url && kind == Tokens && (issuer == None || place == issuer) then Some(None) else None
  }

  function Managed(start: Servers, history: seq<Op>, url: Url): bool {
    if history == [] then ServerOf(start, url).enterpriseManaged else
    var before := Managed(start, history[..|history| - 1], url);
    match history[|history| - 1]
    case Clear(u) => before && u != url
    case ClearEnterpriseManaged => false
    case SaveTokens(u, _, _, managed) => before || (u == url && managed)
    case _ => before
  }

  /** The value at a place after a history, from whatever the loaded snapshot held there. */
  function Flat(start: Servers, history: seq<Op>, url: Url, place: Place, kind: Kind): Option<string> {
    if history == [] then Held(start, url, place, kind)
    else
      var before := history[..|history| - 1];
      Effect(history[|history| - 1], url, place, kind, Managed(start, before, url))
        .GetOr(Flat(start, before, url, place, kind))
  }

  /** The issuer of the last keyed save since the server was last forgotten. */
  function Active(start: Servers, history: seq<Op>, url: Url): Option<Issuer> {
    if history == [] then ServerOf(start, url).activeIssuer else
    var before := history[..|history| - 1];
    match history[|history| - 1]
    case Clear(u) => if u == url then None else Active(start, before, url)
    case ClearEnterpriseManaged => if Managed(start, before, url) then None else Active(start, before, url)
    case SaveClientInformation(u, _, _, Some(issuer)) => if u == url then Some(issuer) else Active(start, before, url)
    case SaveTokens(u, _, Some(issuer), _) => if u == url then Some(issuer) else Active(start, before, url)
    case _ => Active(start, before, url)
  }

  function FlatRead(start: Servers, history: seq<Op>, url: Url, issuer: Option<Issuer>, kind: Kind): Option<Credential>
  {
    var key := if issuer.Some? then issuer else Active(start, history, url);
    var keyed := if key.None? || key.value == "" then None else Flat(start, history, url, key, kind);
    if keyed.Some? then Some(Credential(keyed.value, key)) else
    var unkeyed := Flat(start, history, url, None, kind);
    if unkeyed.Some? then Some(Credential(unkeyed.value, None)) else None
  }

  /** What the records hold at a place. */
  function Held(servers: Servers, url: Url, place: Place, kind: Kind): Option<string> {
    HeldBy(ServerOf(servers, url), place, kind)
  }

  function HeldBy(state: ServerState, place: Place, kind: Kind): Option<string> {
    Of(if place.Some? then SlotOf(state, place.value) else state.unkeyed, kind)
  }

  lemma ApplyHeld(servers: Servers, op: Op, url: Url, place: Place, kind: Kind)
    ensures
      Held(Apply(servers, op), url, place, kind) ==
      Effect(op, url, place, kind, ServerOf(servers, url).enterpriseManaged).GetOr(Held(servers, url, place, kind))
  {
    if !op.Clear? && !op.ClearEnterpriseManaged? {
      UpdateHeld(ServerOf(servers, op.url), op, place, kind);
    }
  }

  /** The same, seen by the one server the operation is about. */
  lemma UpdateHeld(state: ServerState, op: Op, place: Place, kind: Kind)
    requires !op.Clear? && !op.ClearEnterpriseManaged?
    ensures
      HeldBy(Update(state, op), place, kind) ==
      Effect(op, op.url, place, kind, state.enterpriseManaged).GetOr(HeldBy(state, place, kind))
  {
  }

  lemma {:induction false} RecordsRefineFlat(start: Servers, history: seq<Op>, url: Url, place: Place, kind: Kind)
    ensures Held(ApplyAll(start, history), url, place, kind) == Flat(start, history, url, place, kind)
    ensures ServerOf(ApplyAll(start, history), url).enterpriseManaged == Managed(start, history, url)
    ensures ServerOf(ApplyAll(start, history), url).activeIssuer == Active(start, history, url)
  {
    if history != [] {
      var before, last := history[..|history| - 1], history[|history| - 1];
      RecordsRefineFlat(start, before, url, place, kind);
      ApplyHeld(ApplyAll(start, before), last, url, place, kind);
    }
  }

  /**
   * After any history, every credential read is the flat map's answer: the keyed value with its stamp, else the
   * unkeyed one.
   */
  lemma ReadRefinesFlat(start: Servers, history: seq<Op>, url: Url, issuer: Option<Issuer>, kind: Kind)
    ensures Read(ApplyAll(start, history), url, issuer, kind) == FlatRead(start, history, url, issuer, kind)
  {
    var servers := ApplyAll(start, history);
    var key := ReadIssuer(ServerOf(servers, url), issuer);
    RecordsRefineFlat(start, history, url, key, kind);
    RecordsRefineFlat(start, history, url, None, kind);
  }

  /** The preregistered client: the last one saved, unless cleared or forgotten since. */
  function Preregistered(start: Servers, history: seq<Op>, url: Url): Option<string> {
    if history == [] then ServerOf(start, url).preregistered else
    var before := history[..|history| - 1];
    match history[|history| - 1]
    case SavePreregistered(u, information) =>
      if u == url then Some(information) else Preregistered(start, before, url)
    case ClearPreregistered(u) => if u == url then None else Preregistered(start, before, url)
    case Clear(u) => if u == url then None else Preregistered(start, before, url)
    case ClearEnterpriseManaged =>
      if Managed(start, before, url) then None else Preregistered(start, before, url)
    case _ => Preregistered(start, before, url)
  }

  /** No save or clear of anything else touches it, whatever the issuer. */
  lemma {:induction false} PreregisteredIsKept(start: Servers, history: seq<Op>, url: Url)
    ensures ServerOf(ApplyAll(start, history), url).preregistered == Preregistered(start, history, url)
  {
    if history != [] {
      PreregisteredIsKept(start, history[..|history| - 1], url);
      RecordsRefineFlat(start, history[..|history| - 1], url, None, Tokens);
    }
  }

  // ----- Where a value comes from -----

  /** The operation that puts a value at a place. */
  predicate Saves(op: Op, url: Url, place: Place, kind: Kind, value: string) {
    match op
    case SaveClientInformation(u, information, registration, issuer) =>
      u == url && issuer == place &&
      ((kind == ClientInformation && information == value) || (kind == RegistrationKind && registration == value))
    case SavePreregistered(u, _) => u == url && place == None && kind == RegistrationKind && value == "static"
    case SaveTokens(u, tokens, issuer, _) => u == url && issuer == place && kind == Tokens && tokens == value
    case _ => false
  }

  /** Saved there by some operation after which nothing touched it, or there since the snapshot and never touched. */
  ghost predicate CameFrom(start: Servers, history: seq<Op>, url: Url, place: Place, kind: Kind, value: string) {
    || (exists i | 0 <= i < |history| ::
          Saves(history[i], url, place, kind, value) && Untouched(start, history, i + 1, url, place, kind))
    || (Held(start, url, place, kind) == Some(value) && Untouched(start, history, 0, url, place, kind))
  }

  ghost predicate Untouched(start: Servers, history: seq<Op>, from: nat, url: Url, place: Place, kind: Kind) {
    forall j | from <= j < |history| :: Effect(history[j], url, place, kind, Managed(start, history[..j], url)).None?
  }

  lemma {:induction false} FlatCameFrom(
    start: Servers, history: seq<Op>, url: Url, place: Place, kind: Kind, value: string)
    requires Flat(start, history, url, place, kind) == Some(value)
    ensures CameFrom(start, history, url, place, kind, value)
  {
    if history != [] {
      var n := |history| - 1;
      var before, last := history[..n], history[n];
      var effect := Effect(last, url, place, kind, Managed(start, before, url));
      if effect.Some? {
        assert Saves(history[n], url, place, kind, value) && Untouched(start, history, n + 1, url, place, kind);
      } else {
        FlatCameFrom(start, before, url, place, kind, value);
        UntouchedLonger(start, history, url, place, kind);
        if i :| && 0 <= i < n && Saves(before[i], url, place, kind, value)
                && Untouched(start, before, i + 1, url, place, kind)
        {
          assert Saves(history[i], url, place, kind, value) && Untouched(start, history, i + 1, url, place, kind);
        }
      }
    }
  }

  lemma UntouchedLonger(start: Servers, history: seq<Op>, url: Url, place: Place, kind: Kind)
    requires history != []
    requires Effect(history[|history| - 1], url, place, kind, Managed(start, history[..|history| - 1], url)).None?
    ensures forall from: nat | from < |history| ::
      Untouched(start, history[..|history| - 1], from, url, place, kind) ==>
      Untouched(start, history, from, url, place, kind)
  {
    var n := |history| - 1;
    forall j | 0 <= j < n
      ensures history[..n][..j] == history[..j]
    {
    }
  }

  /**
   * A value stamped with an issuer was saved under that issuer for that server, and not cleared since. A value read for
   * an issuer is never another issuer's: unstamped, it was saved with no issuer at all.
   */
  lemma StampIsTrue(start: Servers, history: seq<Op>, url: Url, issuer: Option<Issuer>, kind: Kind)
    requires Read(ApplyAll(start, history), url, issuer, kind).Some?
    ensures
      var credential := Read(ApplyAll(start, history), url, issuer, kind).value;
      && CameFrom(start, history, url, credential.stamp, kind, credential.value)
      && (credential.stamp.Some? && issuer.Some? ==> credential.stamp == issuer)
  {
    ReadRefinesFlat(start, history, url, issuer, kind);
    var credential := Read(ApplyAll(start, history), url, issuer, kind).value;
    FlatCameFrom(start, history, url, credential.stamp, kind, credential.value);
  }
}
