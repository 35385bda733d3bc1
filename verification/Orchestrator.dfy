/**
 The objects that change in place: the proxy's routing table, the orchestrator's
 configuration files and podman, and the registry that calls it after each manifest.
 What podman, the file system and the network answer comes in as parameters.
 */
module Orchestrator {
  import opened Prelude
  import opened Digests
  import opened Disk
  import opened Layout
  import Machine
  import opened Storage
  import opened Texts
  import opened Paths
  import opened ContainerNames
  import opened Routing
  import opened Configs
  import opened Deployment

  class ReverseProxy {
    var routingTable: RoutingTable

    constructor ()
      ensures routingTable == EMPTY_TABLE
    {
      routingTable := EMPTY_TABLE;
    }

    method UpdateContainers(containers: seq<PublishedContainer>)
      modifies this
      ensures routingTable == TableOf(containers)
    {
      var built := FromContainers(containers);
      routingTable, built := built, routingTable;
    }
  }

  datatype Method = GET | PUT | OtherMethod

  datatype ConfigReply = AuthFailure | InternalUrlInvalid | InvalidPayload | InternalError | Stored(config: RuntimeConfig)

  /** The table after a refresh that saw this listing; any failure leaves the old table. */
  function Refreshed(toml: Toml, dir: ConfigDir, listing: Option<seq<ContainerJson>>, before: RoutingTable): RoutingTable {
    match listing
    case None => before
    case Some(containers) =>
      match LoadAll(toml, dir, containers)
      case Ok(running) => TableOf(running)
      case Err(_) => before
  }

  /**
   A refresh that sees a listing that loads: every managed container's location is served, every location
   served is that of a managed container with its own address and stored configuration, and each request goes
   where a scan of the loaded containers sends it. No listing, or one that does not load, changes nothing.
   */
  lemma RefreshServesWhatRuns(toml: Toml, dir: ConfigDir, listing: Option<seq<ContainerJson>>, before: RoutingTable,
                              request: Request)
    ensures listing.None? || LoadAll(toml, dir, listing.value).Err? ==> Refreshed(toml, dir, listing, before) == before
    ensures listing.Some? && LoadAll(toml, dir, listing.value).Ok? ==>
              var table := Refreshed(toml, dir, listing, before);
              && (forall c | c in listing.value && IsManaged(c) ::
                    RecoveredReference(c).value.location in table.pathMaps)
              && (forall location | location in table.pathMaps ::
                    LocationOf(table.pathMaps[location]) == location
                    && exists c :: c in listing.value && Publishes(toml, dir, c, table.pathMaps[location]))
              && DecidedByScan(LoadAll(toml, dir, listing.value).value, request, Route(table, request))
  {
    hide LoadAll, TableOf, RecoveredReference, LoadConfig, DecidedByScan, Route;
    if listing.Some? && LoadAll(toml, dir, listing.value).Ok? {
      var running := LoadAll(toml, dir, listing.value).value;
      var table := Refreshed(toml, dir, listing, before);
      LoadedAreListed(toml, dir, listing.value);
      RoutingIsScanning(running, request);
      forall c | c in listing.value && IsManaged(c)
        ensures RecoveredReference(c).value.location in table.pathMaps
      {
        var pc :| pc in running && Publishes(toml, dir, c, pc);
        PathIndexHas(running, pc);
      }
      forall location | location in table.pathMaps
        ensures LocationOf(table.pathMaps[location]) == location
        ensures exists c :: c in listing.value && Publishes(toml, dir, c, table.pathMaps[location])
      {
        PathIndexHoldsLast(running, location);
        var pc := table.pathMaps[location];
        assert pc in running;
        var c :| c in listing.value && Publishes(toml, dir, c, pc);
      }
    }
  }

  lemma PathIndexHas(running: seq<PublishedContainer>, pc: PublishedContainer)
    requires pc in running
    ensures LocationOf(pc) in TableOf(running).pathMaps
  {
    hide TableOf;
    PathIndexHoldsLast(running, LocationOf(pc));
    var i :| 0 <= i < |running| && running[i] == pc;
  }

  /** What a configuration request does to the configuration directory, and its reply. */
  function ConfigRequest(toml: Toml, dir: ConfigDir, verb: Method, path: Text, authorized: bool, body: Option<Text>,
                         fault: Option<WriteFault>): (ConfigDir, ConfigReply)
  {
    if !authorized then (dir, AuthFailure)
    else
      match ParseConfigUrl(path)
      case None => (dir, InternalUrlInvalid)
      case Some(r) =>
        match verb
        case GET =>
          (match LoadConfig(toml, dir, r)
           case Ok(config) => (dir, Stored(config))
           case Err(_) => (dir, InternalError))
        case PUT =>
          if body.None? || toml.de(body.value).None? then (dir, InvalidPayload)
          else
            var (saved, result) := SaveConfig(toml, dir, r, toml.de(body.value).value, fault);
            (match result
             case Ok(config) => (saved, Stored(config))
             case Err(_) => (saved, InternalError))
        case OtherMethod => (dir, InternalUrlInvalid)
  }

  /**
   Who is not authorized gets nothing else, whatever is asked. A path that is no configuration URL, and any
   method but these two, is invalid; a body that does not parse is only for PUT to complain about.
   */
  lemma RepliesExactly(toml: Toml, dir: ConfigDir, verb: Method, path: Text, authorized: bool, body: Option<Text>,
                       fault: Option<WriteFault>)
    ensures var (dir', reply) := ConfigRequest(toml, dir, verb, path, authorized, body, fault);
            var isUrl := exists location :: NamesConfig(path, location);
            var parses := body.Some? && toml.de(body.value).Some?;
            && (reply == AuthFailure <==> !authorized)
            && (reply == InternalUrlInvalid <==> authorized && (verb.OtherMethod? || !isUrl))
            && (reply == InvalidPayload <==> authorized && isUrl && verb.PUT? && !parses)
            && (reply.AuthFailure? || reply.InternalUrlInvalid? || reply.InvalidPayload? ==> dir' == dir)
  {
    hide ParseConfigUrl, LoadConfig, SaveConfig, NamesConfig;
    if ParseConfigUrl(path).Some? {
      ConfigUrlsExactly(path, ParseConfigUrl(path).value.location);
    }
    if location :| NamesConfig(path, location) {
      ConfigUrlsExactly(path, location);
    }
  }

  /** An authorized GET of a location's URL gives what its file holds, or the default, and changes nothing. */
  lemma GetGivesWhatIsStored(toml: Toml, dir: ConfigDir, path: Text, location: ImageLocation, body: Option<Text>,
                             fault: Option<WriteFault>, config: RuntimeConfig)
    requires NamesConfig(path, location)
    ensures var (dir', reply) := ConfigRequest(toml, dir, GET, path, true, body, fault);
            && dir' == dir && (reply.Stored? || reply.InternalError?)
            && (reply == Stored(config) <==> ConfiguredAt(toml, dir, ConfigFile(dir, location), config))
  {
    hide ParseConfigUrl, LoadConfig, NamesConfig, ConfigFile, ConfiguredAt;
    ConfigUrlsExactly(path, location);
    SlashFree(path, location);
    LoadedExactly(toml, dir, location, "prod", config);
  }

  lemma SlashFree(path: Text, location: ImageLocation)
    requires NamesConfig(path, location)
    ensures '/' !in location.repository && '/' !in location.image
  {
  }

  /**
   An authorized PUT of a body that parses stores exactly the text it is written as in the location's file. It
   is answered with what that text reads as, if nothing is in the way and the whole of it was written.
   */
  lemma PutStoresWhatIsSent(toml: Toml, dir: ConfigDir, path: Text, location: ImageLocation, body: Text,
                            fault: Option<WriteFault>, stored: RuntimeConfig)
    requires NamesConfig(path, location) && toml.de(body).Some?
    ensures var (dir', reply) := ConfigRequest(toml, dir, PUT, path, true, Some(body), fault);
            var file, text := ConfigFile(dir, location), toml.ser(toml.de(body).value);
            var blocked := file in dir.entries && dir.entries[file].Closed?;
            && (reply.Stored? || reply.InternalError?)
            && (reply == Stored(stored) <==>
                  fault.None? && !blocked && text.Some? && toml.de(text.value) == Some(stored))
            && (text.None? || blocked || fault == Some(NotBegun) ==> dir' == dir)
            && (text.Some? && !blocked && fault.None? ==>
                  dir' == dir.(entries := dir.entries[file := Readable(text.value)]))
  {
    hide ParseConfigUrl, NamesConfig, ConfigFile, ConfigPath;
    ConfigUrlsExactly(path, location);
    SlashFree(path, location);
    LoadedExactly(toml, dir, location, "prod", stored);
  }

  // ---------- Runs of configuration requests ----------

  datatype ConfigCall = ConfigCall(
    verb: Method, path: Text, authorized: bool, body: Option<Text>, fault: Option<WriteFault>)

  function Called(toml: Toml, dir: ConfigDir, call: ConfigCall): (ConfigDir, ConfigReply) {
    ConfigRequest(toml, dir, call.verb, call.path, call.authorized, call.body, call.fault)
  }

  function AfterCalls(toml: Toml, dir: ConfigDir, calls: seq<ConfigCall>): ConfigDir {
    if calls == [] then dir
    else Called(toml, AfterCalls(toml, dir, calls[..|calls| - 1]), calls[|calls| - 1]).0
  }

  /** The call is for a location that keeps its configuration in this file. */
  ghost predicate IsFor(dir: ConfigDir, call: ConfigCall, file: seq<Text>) {
    exists location :: NamesConfig(call.path, location) && ConfigFile(dir, location) == file
  }

  /**
   What the last PUT for a file that was stored was answered with; before any, what the file gave at the
   start. A PUT for it that wrote something but was not stored leaves that open.
   */
  ghost function LastAnswer(toml: Toml, dir: ConfigDir, calls: seq<ConfigCall>, location: ImageLocation)
    : Option<ConfigReply>
  {
    if calls == [] then Some(ConfigRequest(toml, dir, GET, ConfigUrl(location), true, None, None).1)
    else
      var front, last := calls[..|calls| - 1], calls[|calls| - 1];
      var reply := Called(toml, AfterCalls(toml, dir, front), last).1;
      if !last.verb.PUT? || !IsFor(dir, last, ConfigFile(dir, location)) then LastAnswer(toml, dir, front, location)
      else if reply.Stored? then Some(reply)
      else if AfterCalls(toml, dir, calls) == AfterCalls(toml, dir, front) then LastAnswer(toml, dir, front, location)
      else None
  }

  /** After any run of requests, authorized or not, a GET gives what was last stored for the location's file. */
  lemma {:induction false} GetAfterRun(toml: Toml, dir: ConfigDir, calls: seq<ConfigCall>, location: ImageLocation)
    requires NamesFit(location)
    ensures AfterCalls(toml, dir, calls).base == dir.base
    ensures LastAnswer(toml, dir, calls, location).Some? ==>
              ConfigRequest(toml, AfterCalls(toml, dir, calls), GET, ConfigUrl(location), true, None, None).1
              == LastAnswer(toml, dir, calls, location).value
  {
    hide ConfigRequest, ConfigUrl, ConfigFile, IsFor, Called;
    if calls != [] {
      var n := |calls| - 1;
      GetAfterRun(toml, dir, calls[..n], location);
      CallThenGet(toml, AfterCalls(toml, dir, calls[..n]), calls[n], location);
      SameBase(dir, AfterCalls(toml, dir, calls[..n]), calls[n], location);
    }
  }

  lemma SameBase(dir: ConfigDir, other: ConfigDir, call: ConfigCall, location: ImageLocation)
    requires dir.base == other.base
    ensures IsFor(dir, call, ConfigFile(dir, location)) <==> IsFor(other, call, ConfigFile(other, location))
  {
    hide Directory, NamesConfig, Follow;
    forall l: ImageLocation
      ensures ConfigFile(dir, l) == ConfigFile(other, l)
    {
    }
  }

  lemma CallThenGet(toml: Toml, dir: ConfigDir, call: ConfigCall, location: ImageLocation)
    requires NamesFit(location)
    ensures var (dir', reply) := Called(toml, dir, call);
            var before := ConfigRequest(toml, dir, GET, ConfigUrl(location), true, None, None).1;
            var after := ConfigRequest(toml, dir', GET, ConfigUrl(location), true, None, None).1;
            && dir'.base == dir.base
            && if !call.verb.PUT? || !IsFor(dir, call, ConfigFile(dir, location)) then after == before
               else if reply.Stored? then after == reply
               else dir' == dir ==> after == before
  {
    hide ParseConfigUrl, ConfigUrl, ConfigFile, NamesConfig, ConfigPath;
    ConfigUrlRoundTrip(location);
    LoadedExactly(toml, dir, location, "prod", RuntimeConfig(None));
    if ParseConfigUrl(call.path).Some? {
      var other := ParseConfigUrl(call.path).value.location;
      ConfigUrlsExactly(call.path, other);
      SlashFree(call.path, other);
      LoadedExactly(toml, dir, other, "prod", RuntimeConfig(None));
    }
    if l :| NamesConfig(call.path, l) && ConfigFile(dir, l) == ConfigFile(dir, location) {
      ConfigUrlsExactly(call.path, l);
    }
  }

  /** A stored configuration was written whole, and asking for it again gives it back. */
  lemma PutThenGet(toml: Toml, dir: ConfigDir, path: Text, authorized: bool, body: Option<Text>,
                   fault: Option<WriteFault>)
    requires ConfigRequest(toml, dir, PUT, path, authorized, body, fault).1.Stored?
    ensures var (dir', reply) := ConfigRequest(toml, dir, PUT, path, authorized, body, fault);
            && fault.None? && body.Some? && toml.de(body.value).Some?
            && ConfigRequest(toml, dir', GET, path, authorized, None, None) == (dir', reply)
            && (reply.config == toml.de(body.value).value <==> Survives(toml, toml.de(body.value).value))
  {
    hide ParseConfigUrl, ConfigPath;
  }

  /** Nothing but an authorized PUT to a location's own URL changes the directory, and only at that location's path. */
  lemma OnlyPutChanges(toml: Toml, dir: ConfigDir, verb: Method, path: Text, authorized: bool, body: Option<Text>,
                       fault: Option<WriteFault>)
    ensures var (dir', reply) := ConfigRequest(toml, dir, verb, path, authorized, body, fault);
            && dir'.base == dir.base
            && (dir' != dir ==>
                  && authorized && verb.PUT?
                  && exists location ::
                       && path == ConfigUrl(location)
                       && var p := ConfigPath(dir.base, ManifestReference(location, Tag(PRODUCTION_TAG)));
                          dir'.entries - {p} == dir.entries - {p})
  {
    hide ParseConfigUrl, ConfigPath, LoadConfig, ConfigUrl;
    var (dir', reply) := ConfigRequest(toml, dir, verb, path, authorized, body, fault);
    if dir' != dir {
      ConfigUrlOfParse(path);
      var location := ParseConfigUrl(path).value.location;
      assert path == ConfigUrl(location);
    }
  }

  /**
   After a PUT that was answered with a configuration, and a refresh that succeeded: every entry of the
   table carries that configuration if it shares the location's path, and its own stored one if not. If
   podman reports the location's production container, the location has an entry, and that container
   carries the new configuration there.
   */
  lemma PutConfigIsServed(toml: Toml, dir: ConfigDir, path: Text, body: Option<Text>, fault: Option<WriteFault>,
                          listing: seq<ContainerJson>, localAddr: Text, before: RoutingTable)
    requires ConfigRequest(toml, dir, PUT, path, true, body, fault).1.Stored?
    requires LoadAll(toml, ConfigRequest(toml, dir, PUT, path, true, body, fault).0, listing).Ok?
    ensures var (dir', reply) := ConfigRequest(toml, dir, PUT, path, true, body, fault);
            var r := ParseConfigUrl(path).value;
            var table := Refreshed(toml, dir', Some(listing), before);
            && ParseConfigUrl(path).Some?
            && (forall location | location in table.pathMaps ::
                  CarriesConfig(toml, dir, r, reply.config, table.pathMaps[location]))
            && (forall domain | domain in table.domainMaps ::
                  CarriesConfig(toml, dir, r, reply.config, table.domainMaps[domain]))
            && (CleanRepository(r.location.repository) ==>
                  forall c | c in listing && IsProductionContainer(c, localAddr, r.location) && c.ports != [] ::
                    r.location in table.pathMaps
                    && (table.pathMaps[r.location].reference == ManifestReference(r.location, Tag(":prod")) ==>
                          table.pathMaps[r.location].config == reply.config))
  {
    hide LoadAll, TableOf, LoadConfig, ParseConfigUrl, CarriesConfig, CleanRepository, IsProductionContainer,
      SaveConfig, Domain;
    PutThenGet(toml, dir, path, true, body, fault);
    var (dir', reply) := ConfigRequest(toml, dir, PUT, path, true, body, fault);
    var config := toml.de(body.value).value;
    SavedConfigReachesContainers(toml, dir, path, config, reply.config, listing);
    var r := ParseConfigUrl(path).value;
    var table := Refreshed(toml, dir', Some(listing), before);
    if CleanRepository(r.location.repository) {
      forall c | c in listing && IsProductionContainer(c, localAddr, r.location) && c.ports != []
        ensures r.location in table.pathMaps
        ensures table.pathMaps[r.location].reference == ManifestReference(r.location, Tag(":prod")) ==>
                  table.pathMaps[r.location].config == reply.config
      {
        RefreshServesWhatRuns(toml, dir', Some(listing), before, Request(None, Uri("", None)));
        ProductionIsRecovered(c, localAddr, r.location);
        ConfigUrlOfParse(path);
        CarriedAtLocation(toml, dir, r, reply.config, table.pathMaps[r.location]);
      }
    }
  }

  lemma CarriedAtLocation(toml: Toml, dir: ConfigDir, r: ManifestReference, config: RuntimeConfig,
                          pc: PublishedContainer)
    requires r.reference == Tag("prod") && CarriesConfig(toml, dir, r, config, pc)
    ensures pc.reference == ManifestReference(r.location, Tag(":prod")) ==> pc.config == config
  {
    hide Directory, Pushed, TrimStart;
    TrimmedTag();
  }

  /** No container a refresh publishes has a reference that a synchronization would act on. */
  lemma NonePublishedIsProduction(toml: Toml, dir: ConfigDir, listing: seq<ContainerJson>)
    requires LoadAll(toml, dir, listing).Ok?
    ensures forall pc | pc in LoadAll(toml, dir, listing).value :: !IsProduction(pc.reference)
  {
    hide RecoveredReference, LoadAll, LoadConfig;
    LoadedAreListed(toml, dir, listing);
    forall pc | pc in LoadAll(toml, dir, listing).value
      ensures !IsProduction(pc.reference)
    {
      var c :| c in listing && Publishes(toml, dir, c, pc);
      RecoveredTagKeepsColon(c);
    }
  }

  /** The registry as the store has it at this moment. */
  function OnDisk(disk: Disk): Registry {
    r => ReadFile(disk, Machine.TargetPath(r))
  }

  lemma ServesStored(disk: Disk, location: ImageLocation, body: Bytes)
    requires ValidLocation(location) && ReadFile(disk, TagPath(location, PRODUCTION_TAG)) == Some(body)
    ensures Production(OnDisk(disk), location) == Some(body)
  {
    hide ReadFile, TagPath;
  }

  class ContainerOrchestrator {
    const toml: Toml
    const localAddr: Text
    const reverseProxy: ReverseProxy
    const storage: FilesystemStorage
    var configs: ConfigDir
    var podman: Podman

    constructor (toml: Toml, localAddr: Text, reverseProxy: ReverseProxy, storage: FilesystemStorage, runtimeDir: Text)
      ensures this.toml == toml && this.localAddr == localAddr
      ensures this.reverseProxy == reverseProxy && this.storage == storage
      ensures IsConfigsDir(Directory(configs.base))
      ensures configs == ConfigDir(Pushed(runtimeDir, CONFIGS_NAME), map[]) && podman == IDLE
    {
      this.toml, this.localAddr := toml, localAddr;
      this.reverseProxy, this.storage := reverseProxy, storage;
      ConfigsDirBelow(runtimeDir);
      configs, podman := ConfigDir(Pushed(runtimeDir, CONFIGS_NAME), map[]), IDLE;
    }

    method FetchManagedContainers(listing: Option<seq<ContainerJson>>)
      returns (r: Result<seq<PublishedContainer>, RefreshError>)
      ensures listing.None? ==> r == Err(PodmanFailed)
      ensures listing.Some? ==> r == LoadAll(toml, configs, listing.value)
    {
      hide LoadContainer;
      match listing {
        case None =>
          r := Err(PodmanFailed);
        case Some(containers) =>
          var rv := [];
          assert containers[..0] == [];
          for k := 0 to |containers|
            invariant LoadAll(toml, configs, containers[..k]) == Ok(rv)
          {
            assert containers[..k + 1][..k] == containers[..k];
            var loaded := LoadContainer(toml, configs, containers[k]);
            if loaded.Err? {
              FailureStays(toml, configs, containers, k + 1);
              return Err(loaded.error);
            }
            if loaded.value.Some? {
              rv := rv + [loaded.value.value];
            }
          }
          assert containers[..|containers|] == containers;
          r := Ok(rv);
      }
    }

    method UpdatedPublishedSet(listing: Option<seq<ContainerJson>>)
      modifies reverseProxy
      ensures reverseProxy.routingTable == Refreshed(toml, configs, listing, old(reverseProxy.routingTable))
    {
      var running := FetchManagedContainers(listing);
      if running.Ok? {
        reverseProxy.UpdateContainers(running.value);
      }
    }

    /** The table is refreshed only after a save that could be read back. */
    method HandleConfig(verb: Method, path: Text, authorized: bool, body: Option<Text>, fault: Option<WriteFault>,
                        listing: Option<seq<ContainerJson>>) returns (reply: ConfigReply)
      modifies this`configs, reverseProxy
      ensures (configs, reply) == ConfigRequest(toml, old(configs), verb, path, authorized, body, fault)
      ensures reverseProxy.routingTable
              == if verb.PUT? && reply.Stored? then Refreshed(toml, configs, listing, old(reverseProxy.routingTable))
                 else old(reverseProxy.routingTable)
    {
      hide LoadConfig, ParseConfigUrl, SaveConfig, Refreshed;
      if !authorized {
        return AuthFailure;
      }
      var parsed := ParseConfigUrl(path);
      if parsed.None? {
        return InternalUrlInvalid;
      }
      match verb {
        case GET =>
          var config := LoadConfig(toml, configs, parsed.value);
          reply := if config.Ok? then Stored(config.value) else InternalError;
        case PUT =>
          if body.None? || toml.de(body.value).None? {
            return InvalidPayload;
          }
          var (saved, result) := SaveConfig(toml, configs, parsed.value, toml.de(body.value).value, fault);
          configs := saved;
          if result.Err? {
            return InternalError;
          }
          UpdatedPublishedSet(listing);
          reply := Stored(result.value);
        case OtherMethod =>
          reply := InternalUrlInvalid;
      }
    }

    /** Podman's commands in order; `outcomes` says how each turns out. */
    method SynchronizeContainerState(r: ManifestReference, outcomes: Outcomes) returns (result: Result<bool, Step>)
      requires storage.Valid() && (IsProduction(r) ==> ValidLocation(r.location))
      modifies this`podman
      ensures (podman, result) == Synchronize(old(podman), localAddr, OnDisk(storage.disk), r, outcomes)
    {
      hide ContainerName, ImageUrl, ReadFile, NamedBy;
      if r.reference != Tag(PRODUCTION_TAG) {
        return Ok(false);
      }
      var name := ContainerName(r.location);
      podman := Remove(podman, name, outcomes.rm);
      if !outcomes.rm.Succeeds? {
        return Err(Removing);
      }
      var url := ImageUrl(localAddr, r.location);
      if !outcomes.login.Succeeds? {
        return Err(LoggingIn);
      }
      var current := None;
      var asked := NamedBy(localAddr, url);
      if asked.Some? {
        ImageUrlNames(localAddr, r.location);
        current := storage.GetManifest(asked.value);
      }
      podman := Pull(podman, url, current, outcomes.pull);
      if !PullSucceeds(current, outcomes.pull) {
        return Err(Pulling);
      }
      if !outcomes.inspect.Succeeds? {
        return Err(Inspecting);
      }
      if !outcomes.volumes.Succeeds? {
        return Err(PreparingVolumes);
      }
      var before := podman;
      podman := Start(podman, url, name, current, outcomes.run);
      result := if RunSucceeds(before, url, name, current, outcomes.run) then Ok(true) else Err(Running);
    }

    /** The start-up loop: since recovered tags keep their colon, it never removes or starts anything. */
    method SynchronizeAll(listing: Option<seq<ContainerJson>>, outcomes: Outcomes) returns (r: Result<(), RefreshError>)
      requires storage.Valid()
      modifies this`podman
      ensures podman == old(podman)
      ensures r.Ok? <==> listing.Some? && LoadAll(toml, configs, listing.value).Ok?
    {
      hide RecoveredReference, LoadAll, Synchronize, OnDisk;
      var fetched := FetchManagedContainers(listing);
      if fetched.Err? {
        return Err(fetched.error);
      }
      NonePublishedIsProduction(toml, configs, listing.value);
      for k := 0 to |fetched.value|
        invariant podman == old(podman)
      {
        OnlyProductionSynchronizes(podman, localAddr, OnDisk(storage.disk), fetched.value[k].reference, outcomes);
        var _ := SynchronizeContainerState(fetched.value[k].reference, outcomes);
      }
      r := Ok(());
    }

    /** The hook: a failed synchronization is only logged; the published set is refreshed either way. */
    method OnManifestUploaded(r: ManifestReference, outcomes: Outcomes, ps: Podman -> Option<seq<ContainerJson>>)
      requires storage.Valid() && (IsProduction(r) ==> ValidLocation(r.location))
      modifies this`podman, reverseProxy
      ensures podman == Synchronize(old(podman), localAddr, OnDisk(storage.disk), r, outcomes).0
      ensures reverseProxy.routingTable == Refreshed(toml, configs, ps(podman), old(reverseProxy.routingTable))
    {
      var _ := SynchronizeContainerState(r, outcomes);
      UpdatedPublishedSet(ps(podman));
    }
  }

  class ContainerRegistry {
    const storage: FilesystemStorage
    const hooks: ContainerOrchestrator

    constructor (storage: FilesystemStorage, hooks: ContainerOrchestrator)
      ensures this.storage == storage && this.hooks == hooks
    {
      this.storage, this.hooks := storage, hooks;
    }

    /** A stored manifest calls the hook; a refused one does not. */
    method ManifestPut(target: ManifestReference, body: Bytes, drawn: Text, fault: Option<PutFault>, outcomes: Outcomes,
                       ps: Podman -> Option<seq<ContainerJson>>) returns (r: Result<Digest, Machine.Error>)
      requires hooks.storage == storage && storage.Valid() && ValidReference(target) && IsComponent(drawn)
      modifies storage`disk, hooks`podman, hooks.reverseProxy
      ensures storage.Valid()
      ensures r == Err(Machine.InvalidManifest) <==> !storage.env.parses(body)
      ensures r == Err(Machine.NotATag) <==>
                storage.env.parses(body) && target.reference.ByDigest? && !StoringFails(fault)
      ensures r.Err? ==> r.error.Io? || r.error.InvalidManifest? || r.error.NotATag?
      ensures r == Err(Machine.Io) <==>
                && storage.env.parses(body)
                && (StoringFails(fault)
                    || (target.reference.Tag?
                        && (|| HasLink(old(storage.disk.tree), RepositoryDir(target.location))
                            || TempTagPath(drawn) in old(storage.disk.tree)
                            || drawn == target.location.repository
                            || TaggingFails(fault, TagParent(target.location) in old(storage.disk.tree)))))
      ensures r.Err? ==> hooks.podman == old(hooks.podman)
                         && hooks.reverseProxy.routingTable == old(hooks.reverseProxy.routingTable)
      ensures r.Ok? ==> && target.reference.Tag?
                        && ReadFile(storage.disk, TagPath(target.location, target.reference.tag)) == Some(body)
                        && hooks.podman
                           == Synchronize(old(hooks.podman), hooks.localAddr, OnDisk(storage.disk), target, outcomes).0
                        && hooks.reverseProxy.routingTable
                           == Refreshed(hooks.toml, hooks.configs, ps(hooks.podman), old(hooks.reverseProxy.routingTable))
      ensures r.Ok? && IsProduction(target) && AllSucceed(outcomes) ==>
                var name := ContainerName(target.location);
                && name in hooks.podman.containers
                && hooks.podman.containers[name] == Container(ImageUrl(hooks.localAddr, target.location), body)
    {
      hide Synchronize, Refreshed, ReadFile, TagPath, OnlyStores, OnDisk;
      r := storage.PutManifest(target, body, drawn, fault);
      if r.Err? {
        return;
      }
      hooks.OnManifestUploaded(target, outcomes, ps);
      if IsProduction(target) {
        ServesStored(storage.disk, target.location, body);
        SynchronizeEffect(old(hooks.podman), hooks.localAddr, OnDisk(storage.disk), target, outcomes);
      }
    }
  }

  // ---------- Push, store, run, route ----------

  predicate Shows(c: ContainerJson, p: Podman, name: Text) {
    name in p.containers && c.names == [name] && c.image == p.containers[name].image
  }

  /** A listing of the containers there are, and no others. */
  ghost predicate Faithful(listing: seq<ContainerJson>, p: Podman) {
    && (forall name | name in p.containers :: exists c :: c in listing && Shows(c, p, name))
    && (forall c | c in listing :: exists name :: Shows(c, p, name))
  }

  /** Every published container of a location stands under that location's name. */
  lemma PublishedUnderItsName(toml: Toml, dir: ConfigDir, p: Podman, listing: seq<ContainerJson>, c: ContainerJson,
                              pc: PublishedContainer)
    requires Faithful(listing, p) && c in listing && Publishes(toml, dir, c, pc)
    ensures c.names == [ContainerName(LocationOf(pc))]
  {
    hide ParseName, ContainerName, LoadConfig, ImageTag;
    var name :| Shows(c, p, name);
    OneName(c, name);
    NameOfParse(name);
  }

  lemma OneName(c: ContainerJson, name: Text)
    requires c.names == [name] && RecoveredReference(c).Some?
    ensures ParseName(name) == Some(RecoveredReference(c).value.location)
  {
    hide ParseName, ImageTag;
    assert LocationFromNames(c.names[1..]) == None;
  }

  /** The published container of a deployed location: its address is podman's, its configuration the location's own. */
  ghost predicate ServesLocation(toml: Toml, dir: ConfigDir, listing: seq<ContainerJson>, location: ImageLocation,
                                 pc: PublishedContainer) {
    && pc.reference == ManifestReference(location, Tag(":prod"))
    && ConfiguredAt(toml, dir, ConfigFile(dir, location), pc.config)
    && IsAddressOf(listing, location, pc.hostAddr)
  }

  ghost predicate IsAddressOf(listing: seq<ContainerJson>, location: ImageLocation, addr: Text) {
    exists c :: c in listing && c.names == [ContainerName(location)] && c.ports != []
                && c.ports[0].hostAddr == Some(addr)
  }

  /**
   A successful push to the production tag, followed by a refresh that saw what podman runs: the
   location's only container runs the pushed manifest. The refreshed path index has the location exactly when its
   repository survives its container name, and then leads to that container with the location's configuration.
   */
  lemma PushedContainerIsPublished(toml: Toml, dir: ConfigDir, p: Podman, localAddr: Text, location: ImageLocation,
                                   registry: Registry, outcomes: Outcomes, listing: seq<ContainerJson>,
                                   before: RoutingTable)
    requires var (q, result) := Synchronize(p, localAddr, registry, ManifestReference(location, Tag("prod")), outcomes);
             result.Ok? && Faithful(listing, q)
    requires LoadAll(toml, dir, listing).Ok?
    requires forall c | c in listing && c.names == [ContainerName(location)] :: c.ports != []
    ensures var target := ManifestReference(location, Tag("prod"));
            var q := Synchronize(p, localAddr, registry, target, outcomes).0;
            var table := Refreshed(toml, dir, Some(listing), before);
            && registry(target).Some?
            && ContainerName(location) in q.containers
            && q.containers[ContainerName(location)]
               == Container(ImageUrl(localAddr, location), registry(target).value)
            && (location in table.pathMaps <==> CleanRepository(location.repository))
            && (location in table.pathMaps ==> ServesLocation(toml, dir, listing, location, table.pathMaps[location]))
  {
    hide ContainerName, ImageUrl, Synchronize, LoadAll, TableOf, LoadConfig, RecoveredReference, NamespacedDir,
      Directory, CleanRepository, Faithful, ConfiguredAt, ConfigFile, DecidedByScan, Route;
    var target := ManifestReference(location, Tag("prod"));
    var q := Synchronize(p, localAddr, registry, target, outcomes).0;
    var table := Refreshed(toml, dir, Some(listing), before);
    SynchronizeEffect(p, localAddr, registry, target, outcomes);
    RefreshServesWhatRuns(toml, dir, Some(listing), before, Request(None, Uri("", None)));
    if CleanRepository(location.repository) {
      var shown := FaithfulShows(listing, q, ContainerName(location));
      ProductionIsRecovered(shown, localAddr, location);
      assert IsManaged(shown);
    }
    if location in table.pathMaps {
      var pc := table.pathMaps[location];
      var c :| c in listing && Publishes(toml, dir, c, pc);
      PublishedUnderItsName(toml, dir, q, listing, c, pc);
      ShowsImage(listing, q, c, ContainerName(location));
      ProductionIsRecovered(c, localAddr, location);
      assert pc.reference == ManifestReference(location, Tag(":prod"));
      LoadedExactly(toml, dir, location, ":prod", pc.config);
    }
  }

  /**
   So a request below the location, without a host, is proxied exactly when the repository survives its
   container name and does not begin with the word of the internal paths. It then goes to the container
   that runs the pushed manifest, under the configuration stored for the location.
   */
  lemma PushedContainerIsReached(toml: Toml, dir: ConfigDir, p: Podman, localAddr: Text, location: ImageLocation,
                                 registry: Registry, outcomes: Outcomes, listing: seq<ContainerJson>,
                                 before: RoutingTable, rest: Text, query: Option<Text>)
    requires var (q, result) := Synchronize(p, localAddr, registry, ManifestReference(location, Tag("prod")), outcomes);
             result.Ok? && Faithful(listing, q)
    requires LoadAll(toml, dir, listing).Ok?
    requires forall c | c in listing && c.names == [ContainerName(location)] :: c.ports != []
    requires IsSegment(location.repository) && IsSegment(location.image) && (rest == "" || rest[0] == '/')
    ensures var table := Refreshed(toml, dir, Some(listing), before);
            var d := Route(table, Request(None, Uri("/" + ShowLocation(location) + rest, query)));
            && (d.ReverseProxied? <==>
                  CleanRepository(location.repository) && !("_rockslide" <= location.repository))
            && (d.ReverseProxied? ==>
                  && ConfiguredAt(toml, dir, ConfigFile(dir, location), d.config)
                  && IsAddressOf(listing, location, d.addr))
  {
    hide ContainerName, ImageUrl, Synchronize, LoadAll, TableOf, LoadConfig, CleanRepository, Faithful, Route,
      ShowLocation, ConfiguredAt, ConfigFile, IsAddressOf, Refreshed;
    PushedContainerIsPublished(toml, dir, p, localAddr, location, registry, outcomes, listing, before);
    PublishedIsReachedExactly(Refreshed(toml, dir, Some(listing), before), location, rest, query);
  }

  lemma FaithfulShows(listing: seq<ContainerJson>, p: Podman, name: Text) returns (c: ContainerJson)
    requires Faithful(listing, p) && name in p.containers
    ensures c in listing && Shows(c, p, name)
  {
    c :| c in listing && Shows(c, p, name);
  }

  lemma ShowsImage(listing: seq<ContainerJson>, p: Podman, c: ContainerJson, name: Text)
    requires Faithful(listing, p) && c in listing && c.names == [name]
    ensures Shows(c, p, name)
  {
    var other :| Shows(c, p, other);
    assert [name][0] == [other][0];
  }
}
