/**
 * The storage object over the in-memory store: mutators edit the records in place and chain a write. Each does to the
 * records what OAuthStore says of its operation, and to the load and the queue what OAuthPersistence says of its step.
 */
module OAuthStorage {
  import opened Options
  import opened OAuthStore
  import opened OAuthPersistence

  class OAuthMemoryStore {
    var servers: Servers

    constructor ()
      ensures servers == map[]
    {
      servers := map[];
    }

    function GetServerState(url: Url): ServerState
      reads this
    {
      ServerOf(servers, url)
    }

    method SetServerState(url: Url, state: ServerState)
      modifies this
      ensures servers == old(servers)[url := state]
    {
      servers := servers[url := state];
    }

    method ClearServerState(url: Url)
      modifies this
      ensures servers == Apply(old(servers), Op.Clear(url))
    {
      servers := servers - {url};
    }

    method ClearEnterpriseManagedResourceServers()
      modifies this
      ensures servers == Apply(old(servers), Op.ClearEnterpriseManaged)
    {
      var rest, pending := servers, servers.Keys;
      while pending != {}
        invariant pending <= servers.Keys && rest.Keys <= servers.Keys
        invariant servers == old(servers)
        invariant forall url <- servers :: url in rest <==> url in pending || !servers[url].enterpriseManaged
        invariant forall url <- rest :: rest[url] == servers[url]
        decreases |pending|
      {
        var url :| url in pending;
        if servers[url].enterpriseManaged {
          rest := rest - {url};
        }
        pending := pending - {url};
      }
      servers := rest;
    }
  }

  class OAuthStorageBase {
    const memory: OAuthMemoryStore
    var phase: Phase
    ghost var waiting: seq<Op>
    ghost var queue: seq<Write>
    ghost var backend: Servers
    ghost var loadedFrom: Servers
    ghost var applied: seq<Op>

    ghost function Model(): State
      reads this, memory
    {
      State(phase, waiting, memory.servers, queue, backend, loadedFrom, applied)
    }

    ghost predicate Valid()
      reads this, memory
    {
      Inv(Model())
    }

    constructor (memory: OAuthMemoryStore, ghost backend: Servers)
      ensures this.memory == memory && Valid() && IsFresh(Model()) && this.backend == backend
    {
      this.memory := memory;
      phase := NotLoaded;
      waiting, queue, applied := [], [], [];
      this.backend, loadedFrom := backend, memory.servers;
    }

    /** A mutator up to its first await: the first caller starts the load, the others join it. */
    method EnsureLoaded(ghost op: Op)
      requires Valid()
      modifies this
      ensures Valid() && Model() == Next(old(Model()), Call(op))
    {
      StepKeeps(Model(), Call(op));
      waiting := waiting + [op];
      if phase == NotLoaded {
        phase := Reading;
      }
    }

    method OnSnapshotRead(snapshot: Option<Servers>)
      requires Valid() && phase == Reading
      modifies this, memory
      ensures Valid() && Model() == Next(old(Model()), ReadDone(snapshot))
    {
      StepKeeps(Model(), ReadDone(snapshot));
      if snapshot.Some? {
        memory.servers := snapshot.value;
      }
      loadedFrom := memory.servers;
      phase := Loaded;
    }

    /** The tail of every mutator: snapshot the memory and chain its write. */
    ghost method Persist(op: Op)
      requires phase == Loaded
      modifies this
      ensures
        Model() ==
        old(Model()).(queue := old(queue) + [Write(memory.servers, Queued)], applied := old(applied) + [op])
    {
      queue := queue + [Write(memory.servers, Queued)];
      applied := applied + [op];
    }

    /** A mutator from the end of the load: edit the records, then persist, with no await between. */
    method Mutator(op: Op, ghost caller: nat)
      requires Valid() && Enabled(Model(), Resume(caller)) && waiting[caller] == op
      modifies this, memory
      ensures Valid() && Model() == Next(old(Model()), Resume(caller))
      ensures memory.servers == Apply(old(memory.servers), op)
    {
      StepKeeps(Model(), Resume(caller));
      waiting := Without(waiting, caller);
      match op {
        case SaveClientInformation(url, information, kind, issuer) =>
          SaveClientInformation(url, information, kind, issuer);
        case SavePreregistered(url, information) =>
          var state := memory.GetServerState(url);
          memory.SetServerState(url, state.(preregistered := Some(information),
                                            unkeyed := state.unkeyed.(registrationKind := Some("static"))));
        case ClearPreregistered(url) =>
          memory.SetServerState(url, memory.GetServerState(url).(preregistered := None));
        case ClearClientInformation(url, issuer) => ClearClientInformation(url, issuer);
        case SaveTokens(url, tokens, issuer, managed) => SaveTokens(url, tokens, issuer, managed);
        case ClearTokens(url, issuer) => ClearTokens(url, issuer);
        case Clear(url) => memory.ClearServerState(url);
        case ClearEnterpriseManaged => memory.ClearEnterpriseManagedResourceServers();
      }
      Persist(op);
    }

    /** Read, modify and write one issuer's slot; a save also makes the issuer the active one. */
    method UpdateIssuerSlot(url: Url, issuer: Issuer, slot: Slot, unkeyed: Slot, managed: bool, setActive: bool)
      modifies memory
      ensures
        var state := ServerOf(old(memory.servers), url);
        memory.servers == old(memory.servers)[url := PutSlot(state, issuer, slot).(
          activeIssuer := if setActive then Some(issuer) else state.activeIssuer,
          unkeyed := unkeyed, enterpriseManaged := managed)]
    {
      var state := memory.GetServerState(url);
      var byIssuer := state.byIssuer[issuer := slot];
      memory.SetServerState(url, state.(byIssuer := byIssuer,
                                        activeIssuer := if setActive then Some(issuer) else state.activeIssuer,
                                        unkeyed := unkeyed, enterpriseManaged := managed));
    }

    method MapIssuerSlots(state: ServerState, f: Slot -> Slot) returns (byIssuer: map<Issuer, Slot>)
      ensures byIssuer == MapSlots(state, f).byIssuer
    {
      byIssuer := map[];
      var pending := state.byIssuer.Keys;
      while pending != {}
        invariant pending <= state.byIssuer.Keys
        invariant byIssuer.Keys == state.byIssuer.Keys - pending
        invariant forall issuer <- byIssuer :: byIssuer[issuer] == f(state.byIssuer[issuer])
        decreases |pending|
      {
        var issuer :| issuer in pending;
        byIssuer := byIssuer[issuer := f(state.byIssuer[issuer])];
        pending := pending - {issuer};
      }
    }

    method SaveClientInformation(url: Url, information: string, kind: string, issuer: Option<Issuer>)
      modifies memory
      ensures memory.servers == Apply(old(memory.servers), Op.SaveClientInformation(url, information, kind, issuer))
    {
      var state := memory.GetServerState(url);
      if issuer.Some? {
        var slot := SlotOf(state, issuer.value).(
          clientInformation := Some(information), registrationKind := Some(kind));
        UpdateIssuerSlot(url, issuer.value, slot, WithoutClient(state.unkeyed), state.enterpriseManaged, true);
      } else {
        var unkeyed := state.unkeyed.(clientInformation := Some(information), registrationKind := Some(kind));
        memory.SetServerState(url, state.(unkeyed := unkeyed));
      }
    }

    method ClearClientInformation(url: Url, issuer: Option<Issuer>)
      modifies memory
      ensures memory.servers == Apply(old(memory.servers), Op.ClearClientInformation(url, issuer))
    {
      var state := memory.GetServerState(url);
      if issuer.Some? {
        var slot := WithoutClient(SlotOf(state, issuer.value));
        UpdateIssuerSlot(url, issuer.value, slot, state.unkeyed, state.enterpriseManaged, false);
      } else {
        var byIssuer := MapIssuerSlots(state, WithoutClient);
        memory.SetServerState(url, state.(byIssuer := byIssuer, unkeyed := WithoutClient(state.unkeyed)));
      }
    }

    method SaveTokens(url: Url, tokens: string, issuer: Option<Issuer>, managed: bool)
      modifies memory
      ensures memory.servers == Apply(old(memory.servers), Op.SaveTokens(url, tokens, issuer, managed))
    {
      var state := memory.GetServerState(url);
      var marked := if managed then true else state.enterpriseManaged;
      if issuer.Some? {
        var slot := SlotOf(state, issuer.value).(tokens := Some(tokens));
        UpdateIssuerSlot(url, issuer.value, slot, WithoutTokens(state.unkeyed), marked, true);
      } else {
        var unkeyed := state.unkeyed.(tokens := Some(tokens));
        memory.SetServerState(url, state.(unkeyed := unkeyed, enterpriseManaged := marked));
      }
    }

    method ClearTokens(url: Url, issuer: Option<Issuer>)
      modifies memory
      ensures memory.servers == Apply(old(memory.servers), Op.ClearTokens(url, issuer))
    {
      var state := memory.GetServerState(url);
      if issuer.Some? {
        var slot := WithoutTokens(SlotOf(state, issuer.value));
        UpdateIssuerSlot(url, issuer.value, slot, state.unkeyed, state.enterpriseManaged, false);
      } else {
        var byIssuer := MapIssuerSlots(state, WithoutTokens);
        memory.SetServerState(url, state.(byIssuer := byIssuer, unkeyed := WithoutTokens(state.unkeyed)));
      }
    }

    /** `getClientInformation` and `getTokens` past their await. */
    method GetCredential(url: Url, issuer: Option<Issuer>, kind: Kind) returns (credential: Option<Credential>)
      requires kind != RegistrationKind
      ensures credential == Read(memory.servers, url, issuer, kind)
    {
      var state := memory.GetServerState(url);
      var key := if issuer.Some? then issuer else state.activeIssuer;
      var fromSlot: Option<string> := None;
      if key.Some? && key.value != "" && key.value in state.byIssuer {
        fromSlot := Of(state.byIssuer[key.value], kind);
      }
      var value := if fromSlot.Some? then fromSlot else Of(state.unkeyed, kind);
      if value.None? {
        return None;
      }
      return Some(Credential(value.value, if fromSlot.Some? then key else None));
    }

    /** `getClientRegistrationKind` past its await: the same value, handed out without a stamp. */
    method GetClientRegistrationKind(url: Url, issuer: Option<Issuer>) returns (kind: Option<string>)
      ensures
        var credential := Read(memory.servers, url, issuer, RegistrationKind);
        kind == if credential.Some? then Some(credential.value.value) else None
    {
      var state := memory.GetServerState(url);
      var key := if issuer.Some? then issuer else state.activeIssuer;
      if key.Some? && key.value != "" && key.value in state.byIssuer {
        kind := state.byIssuer[key.value].registrationKind;
        if kind.Some? {
          return;
        }
      }
      kind := state.unkeyed.registrationKind;
    }
  }
}
