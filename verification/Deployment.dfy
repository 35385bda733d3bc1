/**
 From a pushed manifest to a running container: the commands sent to podman, each of
 which may fail, before or after having had its effect.
 */
module Deployment {
  import opened Prelude
  import opened Digests
  import opened ContainerNames
  import opened Refinement

  datatype Container = Container(image: Text, manifest: Bytes)

  /** Containers by name, and local images by URL; an image is identified by its manifest. */
  datatype Podman = Podman(containers: map<Text, Container>, images: map<Text, Bytes>)

  const IDLE := Podman(map[], map[])

  datatype Outcome = Succeeds | FailsUndone | FailsDone

  /** How each command of one synchronization turns out, in the order they are issued. */
  datatype Outcomes = Outcomes(
    rm: Outcome, login: Outcome, pull: Outcome, inspect: Outcome, volumes: Outcome, run: Outcome)

  datatype Step = Removing | LoggingIn | Pulling | Inspecting | PreparingVolumes | Running

  /** Forced removal; a container that does not exist is fine. */
  function Remove(p: Podman, name: Text, o: Outcome): Podman {
    if o.FailsUndone? then p else p.(containers := p.containers - {name})
  }

  predicate PullSucceeds(current: Option<Bytes>, o: Outcome) {
    o.Succeeds? && current.Some?
  }

  /** What the registry serves at this moment, by reference. */
  type Registry = ManifestReference -> Option<Bytes>

  /** What podman gets when it asks for a URL: whatever is held under the reference that the URL names. */
  function Fetch(registry: Registry, localAddr: Text, url: Text): Option<Bytes> {
    match NamedBy(localAddr, url)
    case None => None
    case Some(r) => registry(r)
  }

  /** A location's image URL gets the location's production manifest, and nothing at all if its names have a slash. */
  lemma ImageUrlFetches(registry: Registry, localAddr: Text, location: ImageLocation)
    ensures Fetch(registry, localAddr, ImageUrl(localAddr, location)) == Production(registry, location)
  {
    hide NamedBy, ImageUrl;
    ImageUrlNames(localAddr, location);
  }

  function Production(registry: Registry, location: ImageLocation): Option<Bytes> {
    if NamesFit(location) then registry(ManifestReference(location, Tag("prod"))) else None
  }

  /** Keeps what was fetched. */
  function Pull(p: Podman, url: Text, current: Option<Bytes>, o: Outcome): Podman {
    if o.FailsUndone? || current.None? then p else p.(images := p.images[url := current.value])
  }

  /** The image a container is started from: the local one, or if it is missing, what podman pulls for it. */
  function ImageToRun(p: Podman, url: Text, current: Option<Bytes>): Option<Bytes> {
    if url in p.images then Some(p.images[url]) else current
  }

  predicate RunSucceeds(p: Podman, url: Text, name: Text, current: Option<Bytes>, o: Outcome) {
    o.Succeeds? && ImageToRun(p, url, current).Some? && name !in p.containers
  }

  /** A missing image is pulled first; then a name in use makes podman refuse. */
  function Start(p: Podman, url: Text, name: Text, current: Option<Bytes>, o: Outcome): Podman {
    match ImageToRun(p, url, current)
    case None => p
    case Some(image) =>
      if o.FailsUndone? then p
      else
        Podman(
          if name in p.containers then p.containers else p.containers[name := Container(url, image)],
          p.images[url := image])
  }

  predicate IsProduction(r: ManifestReference) {
    r.reference == Tag(PRODUCTION_TAG)
  }

  /** Only a push to the production tag does anything; the first failing command ends it. */
  function Synchronize(p: Podman, localAddr: Text, registry: Registry, r: ManifestReference, os: Outcomes)
    : (Podman, Result<bool, Step>)
  {
    if !IsProduction(r) then (p, Ok(false))
    else
      var name, url := ContainerName(r.location), ImageUrl(localAddr, r.location);
      var current := Fetch(registry, localAddr, url);
      var removed := Remove(p, name, os.rm);
      if !os.rm.Succeeds? then (removed, Err(Removing))
      else if !os.login.Succeeds? then (removed, Err(LoggingIn))
      else
        var pulled := Pull(removed, url, current, os.pull);
        if !PullSucceeds(current, os.pull) then (pulled, Err(Pulling))
        else if !os.inspect.Succeeds? then (pulled, Err(Inspecting))
        else if !os.volumes.Succeeds? then (pulled, Err(PreparingVolumes))
        else
          var started := Start(pulled, url, name, current, os.run);
          if RunSucceeds(pulled, url, name, current, os.run) then (started, Ok(true)) else (started, Err(Running))
  }

  predicate AllSucceed(os: Outcomes) {
    os.rm.Succeeds? && os.login.Succeeds? && os.pull.Succeeds? && os.inspect.Succeeds? && os.volumes.Succeeds?
    && os.run.Succeeds?
  }

  /** The container under a name, if any, runs the given manifest from the given image. */
  predicate RunsOnly(p: Podman, name: Text, container: Container) {
    name in p.containers ==> p.containers[name] == container
  }

  predicate SameButFor(p: Podman, q: Podman, name: Text) {
    p.containers - {name} == q.containers - {name}
  }

  predicate SameImagesButFor(p: Podman, q: Podman, url: Text) {
    p.images - {url} == q.images - {url}
  }

  /**
   What a synchronization of the production tag leaves behind. It succeeds exactly when every
   command does, the names have no slash and the registry has the tag. Then the container runs what the
   registry holds under the location's production tag, and that image is there. If it fails after the
   removal took effect, no older container is left. It never touches a container of another name or an
   image of another URL.
   */
  lemma SynchronizeEffect(p: Podman, localAddr: Text, registry: Registry, r: ManifestReference, os: Outcomes)
    requires IsProduction(r)
    ensures var (q, result) := Synchronize(p, localAddr, registry, r, os);
            var name, url := ContainerName(r.location), ImageUrl(localAddr, r.location);
            var current := Production(registry, r.location);
            && SameButFor(p, q, name) && SameImagesButFor(p, q, url)
            && (result.Ok? <==> AllSucceed(os) && current.Some?)
            && (result.Ok? ==> result.value && name in q.containers
                               && url in q.images && q.images[url] == current.value)
            && (os.rm.FailsUndone? ==> q == p)
            && (!os.rm.FailsUndone? && current.None? ==> name !in q.containers)
            && (!os.rm.FailsUndone? && current.Some? ==> RunsOnly(q, name, Container(url, current.value)))
  {
    hide ContainerName, ImageUrl, Fetch, Production;
    ImageUrlFetches(registry, localAddr, r.location);
  }

  /** The error is that of the first command, in the order they are issued, that does not succeed. */
  lemma FirstFailureIsReported(p: Podman, localAddr: Text, registry: Registry, r: ManifestReference, os: Outcomes)
    requires IsProduction(r)
    ensures var result := Synchronize(p, localAddr, registry, r, os).1;
            var fetched := Production(registry, r.location).Some?;
            && (result == Err(Removing) <==> !os.rm.Succeeds?)
            && (result == Err(LoggingIn) <==> os.rm.Succeeds? && !os.login.Succeeds?)
            && (result == Err(Pulling) <==>
                  os.rm.Succeeds? && os.login.Succeeds? && !(os.pull.Succeeds? && fetched))
            && (result == Err(Inspecting) <==>
                  os.rm.Succeeds? && os.login.Succeeds? && os.pull.Succeeds? && fetched && !os.inspect.Succeeds?)
            && (result == Err(PreparingVolumes) <==>
                  && os.rm.Succeeds? && os.login.Succeeds? && os.pull.Succeeds? && fetched && os.inspect.Succeeds?
                  && !os.volumes.Succeeds?)
            && (result == Err(Running) <==>
                  && os.rm.Succeeds? && os.login.Succeeds? && os.pull.Succeeds? && fetched && os.inspect.Succeeds?
                  && os.volumes.Succeeds? && !os.run.Succeeds?)
  {
    hide ContainerName, ImageUrl, Fetch, Production;
    ImageUrlFetches(registry, localAddr, r.location);
  }

  /** Containers of one location share one name, so there is at most one. */
  lemma OneContainerPerLocation(p: Podman, a: Text, b: Text)
    requires a in p.containers && b in p.containers
    requires ParseName(a).Some? && ParseName(a) == ParseName(b)
    ensures a == b
  {
    NameOfParse(a);
    NameOfParse(b);
  }

  // ---------- Runs ----------

  /** What the registry holds under each tag, and podman. */
  datatype System = System(tags: map<TagKey, Bytes>, podman: Podman)

  /** A stored manifest with its hook, or a container ending on its own, which may remove its image. */
  datatype Event =
    | Push(target: ManifestReference, body: Bytes, outcomes: Outcomes)
    | Exit(name: Text, withImage: bool)

  function Current(tags: map<TagKey, Bytes>, location: ImageLocation): Option<Bytes> {
    var key := TagKey(location, PRODUCTION_TAG);
    if key in tags then Some(tags[key]) else None
  }

  function Held(tags: map<TagKey, Bytes>, r: ManifestReference): Option<Bytes> {
    if r.reference.ByDigest? then None
    else
      var key := TagKey(r.location, r.reference.tag);
      if key in tags then Some(tags[key]) else None
  }

  /** A registry of these tags; no image URL asks by digest. */
  function Serving(tags: map<TagKey, Bytes>): Registry {
    r => Held(tags, r)
  }

  lemma ServesCurrent(tags: map<TagKey, Bytes>, location: ImageLocation)
    ensures Production(Serving(tags), location) == if NamesFit(location) then Current(tags, location) else None
  {
  }

  /** A push by digest is refused and calls no hook. */
  function Happen(s: System, localAddr: Text, e: Event): System {
    match e
    case Push(target, body, outcomes) =>
      if target.reference.ByDigest? then s
      else
        var tags := s.tags[TagKey(target.location, target.reference.tag) := body];
        System(tags, Synchronize(s.podman, localAddr, Serving(tags), target, outcomes).0)
    case Exit(name, withImage) =>
      var images := if withImage && name in s.podman.containers
                    then s.podman.images - {s.podman.containers[name].image} else s.podman.images;
      s.(podman := Podman(s.podman.containers - {name}, images))
  }

  function HappenAll(s: System, localAddr: Text, events: seq<Event>): System {
    if events == [] then s
    else Happen(HappenAll(s, localAddr, events[..|events| - 1]), localAddr, events[|events| - 1])
  }

  predicate Deploys(e: Event, location: ImageLocation) {
    e.Push? && IsProduction(e.target) && e.target.location == location
  }

  /** The container of a location, if any, runs what the registry holds under its production tag. */
  predicate UpToDate(s: System, localAddr: Text, location: ImageLocation) {
    var name := ContainerName(location);
    name in s.podman.containers ==>
      Current(s.tags, location).Some?
      && s.podman.containers[name] == Container(ImageUrl(localAddr, location), Current(s.tags, location).value)
  }

  /** The last deployment of the location failed without having removed the container. */
  predicate RemovalMissed(events: seq<Event>, location: ImageLocation) {
    if events == [] then false
    else
      var last := events[|events| - 1];
      if Deploys(last, location) then last.outcomes.rm.FailsUndone?
      else RemovalMissed(events[..|events| - 1], location)
  }

  /** A push to the production tag of another location that removes the location's container: they share its name. */
  predicate Takes(e: Event, location: ImageLocation) {
    && e.Push? && IsProduction(e.target) && e.target.location != location
    && ContainerName(e.target.location) == ContainerName(location) && !e.outcomes.rm.FailsUndone?
  }

  /**
   The last deployment of the location failed without having removed the container, or another
   location has taken the container since.
   */
  predicate Displaced(events: seq<Event>, location: ImageLocation) {
    if events == [] then false
    else
      var last := events[|events| - 1];
      if Deploys(last, location) then last.outcomes.rm.FailsUndone?
      else Takes(last, location) || Displaced(events[..|events| - 1], location)
  }

  /**
   The last deployment of the location succeeded, which takes names without slashes, and its container
   neither ended nor was taken since.
   */
  predicate Deployed(events: seq<Event>, location: ImageLocation) {
    if events == [] then false
    else
      var last := events[|events| - 1];
      if Deploys(last, location) then AllSucceed(last.outcomes) && NamesFit(location)
      else
        && !(last.Exit? && last.name == ContainerName(location))
        && !Takes(last, location)
        && Deployed(events[..|events| - 1], location)
  }

  lemma OtherEventsKeep(s: System, localAddr: Text, e: Event, location: ImageLocation)
    requires !Deploys(e, location) && !Takes(e, location)
    ensures var s' := Happen(s, localAddr, e);
            var name := ContainerName(location);
            && Current(s'.tags, location) == Current(s.tags, location)
            && (name in s'.podman.containers ==>
                  name in s.podman.containers && s'.podman.containers[name] == s.podman.containers[name])
            && (name in s.podman.containers && !(e.Exit? && e.name == name) ==> name in s'.podman.containers)
  {
    hide ContainerName, ImageUrl, Synchronize;
    if e.Push? && e.target.reference.Tag? {
      var tags := s.tags[TagKey(e.target.location, e.target.reference.tag) := e.body];
      var p, q := s.podman, Synchronize(s.podman, localAddr, Serving(tags), e.target, e.outcomes).0;
      if IsProduction(e.target) {
        SynchronizeEffect(s.podman, localAddr, Serving(tags), e.target, e.outcomes);
        if ContainerName(e.target.location) != ContainerName(location) {
          OtherNameKept(p, q, ContainerName(e.target.location), ContainerName(location));
        }
      } else {
        OnlyProductionSynchronizes(p, localAddr, Serving(tags), e.target, e.outcomes);
      }
    }
  }

  lemma OtherNameKept(p: Podman, q: Podman, name: Text, other: Text)
    requires SameButFor(p, q, name) && other != name
    ensures other in p.containers <==> other in q.containers
    ensures other in p.containers ==> p.containers[other] == q.containers[other]
  {
    assert other in p.containers <==> other in p.containers - {name};
    assert other in q.containers <==> other in q.containers - {name};
    if other in p.containers {
      assert (p.containers - {name})[other] == (q.containers - {name})[other];
    }
  }

  lemma OnlyProductionSynchronizes(p: Podman, localAddr: Text, registry: Registry, r: ManifestReference, os: Outcomes)
    ensures r.reference != Tag("prod") <==> Synchronize(p, localAddr, registry, r, os) == (p, Ok(false))
  {
    hide ContainerName, ImageUrl, Fetch;
  }

  /**
   Over any run of pushes and exits, with commands failing anywhere: unless the last deployment of a
   location could not remove the old container, or a location of the same container name took it since,
   no container but the current production manifest runs for it. If that deployment succeeded, its
   container is there until it ends or is taken.
   */
  lemma {:induction false} RunKeepsUpToDate(s: System, localAddr: Text, events: seq<Event>, location: ImageLocation)
    requires UpToDate(s, localAddr, location)
    ensures var s' := HappenAll(s, localAddr, events);
            && (!Displaced(events, location) ==> UpToDate(s', localAddr, location))
            && (Deployed(events, location) ==>
                  UpToDate(s', localAddr, location) && ContainerName(location) in s'.podman.containers)
  {
    hide ContainerName, ImageUrl, Synchronize, Happen, Takes;
    if events != [] {
      var n := |events| - 1;
      var front, last := events[..n], events[n];
      var before := HappenAll(s, localAddr, front);
      RunKeepsUpToDate(s, localAddr, front, location);
      if Deploys(last, location) {
        DeploymentIsUpToDate(before, localAddr, last, location);
      } else if !Takes(last, location) {
        OtherEventsKeep(before, localAddr, last, location);
        DeployedIsInPlace(front, location);
      }
    }
  }

  lemma DeploymentIsUpToDate(s: System, localAddr: Text, e: Event, location: ImageLocation)
    requires Deploys(e, location)
    ensures var s' := Happen(s, localAddr, e);
            && Current(s'.tags, location) == Some(e.body)
            && (!e.outcomes.rm.FailsUndone? ==> UpToDate(s', localAddr, location))
            && (AllSucceed(e.outcomes) && NamesFit(location) ==> ContainerName(location) in s'.podman.containers)
  {
    hide ContainerName, ImageUrl, Synchronize, Production, Serving, NamesFit;
    var tags := s.tags[TagKey(location, PRODUCTION_TAG) := e.body];
    SynchronizeEffect(s.podman, localAddr, Serving(tags), e.target, e.outcomes);
    ServesCurrent(tags, location);
  }

  /** The last thing that happened to a container name is that its container ended. */
  predicate Exited(events: seq<Event>, name: Text) {
    if events == [] then false
    else
      var last := events[|events| - 1];
      if last.Exit? && last.name == name then true
      else
        && !(last.Push? && IsProduction(last.target) && ContainerName(last.target.location) == name)
        && Exited(events[..|events| - 1], name)
  }

  /** A container that ended is gone until the next push to its name, and with its image if that was to be removed. */
  lemma {:induction false} ExitedIsGone(s: System, localAddr: Text, events: seq<Event>, location: ImageLocation)
    ensures Exited(events, ContainerName(location)) ==>
              ContainerName(location) !in HappenAll(s, localAddr, events).podman.containers
    ensures events != [] && events[|events| - 1] == Exit(ContainerName(location), true) ==>
              var before := HappenAll(s, localAddr, events[..|events| - 1]).podman;
              ContainerName(location) in before.containers ==>
                before.containers[ContainerName(location)].image !in HappenAll(s, localAddr, events).podman.images
  {
    hide ContainerName, Synchronize, ImageUrl;
    if events != [] {
      var n := |events| - 1;
      var last, before := events[n], HappenAll(s, localAddr, events[..n]);
      ExitedIsGone(s, localAddr, events[..n], location);
      if Exited(events, ContainerName(location)) && !(last.Exit? && last.name == ContainerName(location)) {
        OtherEventsKeep(before, localAddr, last, location);
      }
    }
  }

  /**
   Right after a deployment, exactly: the removal had its effect, or there was nothing to remove, or
   what was left running happens to be the new image.
   */
  lemma DeploymentExactly(s: System, localAddr: Text, e: Event, location: ImageLocation)
    requires Deploys(e, location)
    ensures var name := ContainerName(location);
            UpToDate(Happen(s, localAddr, e), localAddr, location)
            <==> || !e.outcomes.rm.FailsUndone?
                 || name !in s.podman.containers
                 || s.podman.containers[name] == Container(ImageUrl(localAddr, location), e.body)
  {
    hide ContainerName, ImageUrl, Synchronize;
    DeploymentIsUpToDate(s, localAddr, e, location);
    var tags := s.tags[TagKey(location, PRODUCTION_TAG) := e.body];
    SynchronizeEffect(s.podman, localAddr, Serving(tags), e.target, e.outcomes);
    ServesCurrent(tags, location);
  }

  lemma {:induction false} DeployedIsInPlace(events: seq<Event>, location: ImageLocation)
    ensures Deployed(events, location) ==> !Displaced(events, location)
  {
    if events != [] {
      DeployedIsInPlace(events[..|events| - 1], location);
    }
  }

  predicate IsNamedPush(e: Event) {
    e.Push? ==> IsNamed(e.target.location)
  }

  /** All pushes are to locations that a route accepts. */
  predicate NamedPushes(events: seq<Event>) {
    forall i | 0 <= i < |events| :: IsNamedPush(events[i])
  }

  lemma {:induction false} OwnersAreNotDisplaced(events: seq<Event>, location: ImageLocation)
    requires OwnsName(location) && NamedPushes(events)
    ensures Displaced(events, location) == RemovalMissed(events, location)
  {
    hide OwnsName, ContainerName;
    OwnsNameExactly(location);
    if events != [] {
      assert IsNamedPush(events[|events| - 1]);
      OwnersAreNotDisplaced(events[..|events| - 1], location);
    }
  }

  const ALL_FINE := Outcomes(Succeeds, Succeeds, Succeeds, Succeeds, Succeeds, Succeeds)

  function ProductionPush(location: ImageLocation, body: Bytes, outcomes: Outcomes): Event {
    Push(ManifestReference(location, Tag(PRODUCTION_TAG)), body, outcomes)
  }

  /**
   A location is up to date after every run whose last removal for it had its effect, exactly when
   no other location a route accepts claims its container name, or its names have a slash and nothing is
   ever started for it.
   */
  lemma UpToDateInEveryRun(localAddr: Text, location: ImageLocation)
    ensures (NamesFit(location) ==> OwnsName(location))
            <==> forall events | NamedPushes(events) && !RemovalMissed(events, location) ::
                   UpToDate(HappenAll(System(map[], IDLE), localAddr, events), localAddr, location)
  {
    hide OwnsName, ContainerName, ImageUrl, UpToDate, HappenAll, RemovalMissed, Displaced, NamesFit;
    var start := System(map[], IDLE);
    NothingIsUpToDate(localAddr, location, start);
    if !NamesFit(location) {
      forall events: seq<Event>
        ensures UpToDate(HappenAll(start, localAddr, events), localAddr, location)
      {
        NeverStarted(localAddr, events, location);
        NothingIsUpToDate(localAddr, location, HappenAll(start, localAddr, events));
      }
    } else if OwnsName(location) {
      forall events | NamedPushes(events) && !RemovalMissed(events, location)
        ensures UpToDate(HappenAll(start, localAddr, events), localAddr, location)
      {
        RunKeepsUpToDate(start, localAddr, events, location);
        OwnersAreNotDisplaced(events, location);
      }
    } else {
      OwnsNameExactly(location);
      var rival :| IsNamed(rival) && ContainerName(rival) == ContainerName(location) && rival != location;
      var events := [ProductionPush(rival, [], ALL_FINE)];
      RivalStandsIn(localAddr, location, rival, []);
    }
  }

  /** No container is ever started under a name with a slash. */
  lemma {:induction false} NeverStarted(localAddr: Text, events: seq<Event>, location: ImageLocation)
    requires !NamesFit(location)
    ensures ContainerName(location) !in HappenAll(System(map[], IDLE), localAddr, events).podman.containers
  {
    hide ContainerName, Happen, NamesFit;
    if events != [] {
      var n := |events| - 1;
      NeverStarted(localAddr, events[..n], location);
      SlashNeverStarts(HappenAll(System(map[], IDLE), localAddr, events[..n]), localAddr, events[n], location);
    }
  }

  lemma SlashNeverStarts(s: System, localAddr: Text, e: Event, location: ImageLocation)
    requires !NamesFit(location) && ContainerName(location) !in s.podman.containers
    ensures ContainerName(location) !in Happen(s, localAddr, e).podman.containers
  {
    hide ContainerName, ImageUrl, Synchronize, NamesFit;
    if e.Push? && e.target.reference.Tag? {
      var tags := s.tags[TagKey(e.target.location, e.target.reference.tag) := e.body];
      OnlyProductionSynchronizes(s.podman, localAddr, Serving(tags), e.target, e.outcomes);
      if IsProduction(e.target) {
        SynchronizeEffect(s.podman, localAddr, Serving(tags), e.target, e.outcomes);
        if ContainerName(e.target.location) == ContainerName(location) {
          SlashesAreShared(e.target.location, location);
        } else {
          OtherNameKept(s.podman, Happen(s, localAddr, e).podman, ContainerName(e.target.location),
                        ContainerName(location));
        }
      }
    }
  }

  lemma NothingIsUpToDate(localAddr: Text, location: ImageLocation, s: System)
    requires ContainerName(location) !in s.podman.containers
    ensures UpToDate(s, localAddr, location)
  {
  }

  lemma RivalStandsIn(localAddr: Text, location: ImageLocation, rival: ImageLocation, body: Bytes)
    requires NamesFit(location) && rival != location && ContainerName(rival) == ContainerName(location)
    ensures var events := [ProductionPush(rival, body, ALL_FINE)];
            && !RemovalMissed(events, location)
            && !UpToDate(HappenAll(System(map[], IDLE), localAddr, events), localAddr, location)
  {
    hide ContainerName, ImageUrl;
    var push := ProductionPush(rival, body, ALL_FINE);
    assert [push][..0] == [];
    SlashesAreShared(location, rival);
    DeploymentIsUpToDate(System(map[], IDLE), localAddr, push, rival);
  }

  lemma HappenTwo(s: System, localAddr: Text, first: Event, second: Event)
    ensures HappenAll(s, localAddr, [first, second]) == Happen(Happen(s, localAddr, first), localAddr, second)
  {
    hide Happen;
    assert [first, second][..1] == [first] && [first][..0] == [];
    assert HappenAll(s, localAddr, [first]) == Happen(HappenAll(s, localAddr, []), localAddr, first);
  }

  /** Two pushes in which every command succeeds, and the second replaces the container of the first. */
  lemma RivalReplaces(localAddr: Text, location: ImageLocation, rival: ImageLocation, older: Bytes, newer: Bytes)
    requires NamesFit(location) && rival != location && older != newer
    requires ContainerName(rival) == ContainerName(location)
    ensures var events := [ProductionPush(location, older, ALL_FINE), ProductionPush(rival, newer, ALL_FINE)];
            var s := HappenAll(System(map[], IDLE), localAddr, events);
            && !RemovalMissed(events, location) && Current(s.tags, location) == Some(older)
            && ContainerName(location) in s.podman.containers
            && s.podman.containers[ContainerName(location)] == Container(ImageUrl(localAddr, rival), newer)
            && !UpToDate(s, localAddr, location)
  {
    hide ContainerName, ImageUrl, Synchronize;
    var first, second := ProductionPush(location, older, ALL_FINE), ProductionPush(rival, newer, ALL_FINE);
    HappenTwo(System(map[], IDLE), localAddr, first, second);
    var s1 := Happen(System(map[], IDLE), localAddr, first);
    DeploymentIsUpToDate(System(map[], IDLE), localAddr, first, location);
    SlashesAreShared(location, rival);
    DeploymentIsUpToDate(s1, localAddr, second, rival);
  }

  /** The body of the last push to the production tag, if any. */
  function LastPushed(events: seq<Event>, location: ImageLocation): Option<Bytes> {
    if events == [] then None
    else
      var last := events[|events| - 1];
      if Deploys(last, location) then Some(last.body) else LastPushed(events[..|events| - 1], location)
  }

  lemma {:induction false} RegistryHoldsLastPushed(s: System, localAddr: Text, events: seq<Event>,
                                                   location: ImageLocation)
    ensures Current(HappenAll(s, localAddr, events).tags, location)
            == if LastPushed(events, location).Some? then LastPushed(events, location) else Current(s.tags, location)
  {
    hide Synchronize;
    if events != [] {
      RegistryHoldsLastPushed(s, localAddr, events[..|events| - 1], location);
    }
  }

  /** From an empty system: after a deployment that succeeded, what runs is what was pushed last. */
  lemma WhatRunsIsWhatWasPushed(localAddr: Text, events: seq<Event>, location: ImageLocation)
    requires Deployed(events, location)
    ensures var s := HappenAll(System(map[], IDLE), localAddr, events);
            && LastPushed(events, location).Some?
            && ContainerName(location) in s.podman.containers
            && s.podman.containers[ContainerName(location)]
               == Container(ImageUrl(localAddr, location), LastPushed(events, location).value)
  {
    hide ContainerName, ImageUrl, Happen;
    RunKeepsUpToDate(System(map[], IDLE), localAddr, events, location);
    RegistryHoldsLastPushed(System(map[], IDLE), localAddr, events, location);
  }

  /** A failed removal does leave an older container running. */
  lemma MissedRemovalLeavesOld(localAddr: Text, location: ImageLocation, older: Bytes, newer: Bytes)
    requires NamesFit(location) && older != newer
    ensures var events := [ProductionPush(location, older, ALL_FINE),
                           ProductionPush(location, newer, ALL_FINE.(rm := FailsUndone))];
            && RemovalMissed(events, location)
            && !UpToDate(HappenAll(System(map[], IDLE), localAddr, events), localAddr, location)
  {
    hide ContainerName, ImageUrl, Synchronize;
    var first, second := ProductionPush(location, older, ALL_FINE),
                         ProductionPush(location, newer, ALL_FINE.(rm := FailsUndone));
    HappenTwo(System(map[], IDLE), localAddr, first, second);
    var s1 := Happen(System(map[], IDLE), localAddr, first);
    DeploymentIsUpToDate(System(map[], IDLE), localAddr, first, location);
    DeploymentExactly(s1, localAddr, second, location);
  }
}
