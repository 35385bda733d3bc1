/**
 Per-container configuration: files below a directory, saved through an internal URL
 and loaded again at each refresh of the published set.
 */
module Configs {
  import opened Prelude
  import opened Digests
  import opened Texts
  import opened Paths
  import opened ContainerNames
  import opened Routing

  /** The TOML writer and reader are whatever they are. */
  datatype Toml = Toml(ser: RuntimeConfig -> Option<Text>, de: Text -> Option<RuntimeConfig>)

  const DEFAULT_CONFIG := RuntimeConfig(None)

  /** A file with its text, a file that is not UTF-8, or what can neither be read nor written, such as a directory. */
  datatype Entry = Readable(text: Text) | Undecodable | Closed

  /** The configuration directory and what exists, by where it is. */
  datatype ConfigDir = ConfigDir(base: Text, entries: map<seq<Text>, Entry>)

  /** The file of a reference: the path below the base directory, followed to where it leads. */
  function ConfigPath(base: Text, r: ManifestReference): seq<Text> {
    Directory(NamespacedDir(base, r))
  }

  datatype ConfigError = CannotRead | CannotParse | CannotSerialize | CannotWrite

  /**
   How a write can go wrong: not at all begun, or cut off, since it is not an atomic replacement. A cut
   inside a character leaves what is not UTF-8.
   */
  datatype WriteFault = NotBegun | CutOff(length: nat, insideCharacter: bool)

  function LoadConfig(toml: Toml, dir: ConfigDir, r: ManifestReference): Result<RuntimeConfig, ConfigError> {
    var p := ConfigPath(dir.base, r);
    if p !in dir.entries then Ok(DEFAULT_CONFIG)
    else if !dir.entries[p].Readable? then Err(CannotRead)
    else
      match toml.de(dir.entries[p].text)
      case Some(config) => Ok(config)
      case None => Err(CannotParse)
  }

  predicate IsClosed(dir: ConfigDir, r: ManifestReference) {
    var p := ConfigPath(dir.base, r);
    p in dir.entries && dir.entries[p].Closed?
  }

  function Written(dir: ConfigDir, r: ManifestReference, entry: Entry): ConfigDir {
    dir.(entries := dir.entries[ConfigPath(dir.base, r) := entry])
  }

  /** What a cut leaves of a text. */
  function CutText(text: Text, length: nat, insideCharacter: bool): Entry {
    if length >= |text| then Readable(text)
    else if insideCharacter then Undecodable
    else Readable(text[..length])
  }

  /** Serializes, writes over whatever file is there, and reads back. */
  function SaveConfig(toml: Toml, dir: ConfigDir, r: ManifestReference, config: RuntimeConfig,
                      fault: Option<WriteFault>): (ConfigDir, Result<RuntimeConfig, ConfigError>)
  {
    match toml.ser(config)
    case None => (dir, Err(CannotSerialize))
    case Some(text) =>
      if IsClosed(dir, r) then (dir, Err(CannotWrite))
      else
        match fault
        case Some(NotBegun) => (dir, Err(CannotWrite))
        case Some(CutOff(n, insideCharacter)) =>
          (Written(dir, r, CutText(text, n, insideCharacter)), Err(CannotWrite))
        case None =>
          var saved := Written(dir, r, Readable(text));
          (saved, LoadConfig(toml, saved, r))
  }

  /** What the configuration reader and writer must satisfy on one configuration. */
  predicate Survives(toml: Toml, config: RuntimeConfig) {
    toml.ser(config).Some? && toml.de(toml.ser(config).value) == Some(config)
  }

  // ---------- The configuration URL ----------

  const CONFIG_PREFIX := "/_rockslide/config/"

  function ConfigUrl(location: ImageLocation): Text {
    CONFIG_PREFIX + (location.repository + "/" + location.image + "/" + PRODUCTION_TAG)
  }

  function ParseConfigUrl(path: Text): Option<ManifestReference> {
    match StripPrefix(path, CONFIG_PREFIX)
    case None => None
    case Some(remainder) =>
      var parts := Split(remainder);
      if |parts| != 3 || parts[2] != PRODUCTION_TAG then None
      else Some(ManifestReference(ImageLocation(parts[0], parts[1]), Tag(parts[2])))
  }

  lemma JoinThree(a: Text, b: Text, c: Text)
    ensures Joined([a, b, c]) == a + "/" + b + "/" + c
  {
    assert [a, b, c][1..] == [b, c];
    assert [b, c][1..] == [c];
    assert Joined([b, c]) == b + "/" + c;
    assert a + "/" + (b + "/" + c) == a + "/" + b + "/" + c;
  }

  /** A location survives its configuration URL exactly when its names have no slash. */
  lemma ConfigUrlRoundTrip(location: ImageLocation)
    ensures ConfigUrl(location)
            == "/_rockslide/config/" + location.repository + "/" + location.image + "/prod"
    ensures ParseConfigUrl(ConfigUrl(location)) == Some(ManifestReference(location, Tag("prod")))
            <==> '/' !in location.repository && '/' !in location.image
  {
    assert ConfigUrl(location)
           == "/_rockslide/config/" + location.repository + "/" + location.image + "/prod";
    var remainder := location.repository + "/" + location.image + "/" + PRODUCTION_TAG;
    assert ConfigUrl(location)[|CONFIG_PREFIX|..] == remainder;
    JoinThree(location.repository, location.image, PRODUCTION_TAG);
    if '/' !in location.repository && '/' !in location.image {
      SplitOfJoin([location.repository, location.image, PRODUCTION_TAG]);
    }
  }

  /** The only paths accepted are the configuration URLs of what they parse to. */
  lemma ConfigUrlOfParse(path: Text)
    requires ParseConfigUrl(path).Some?
    ensures var r := ParseConfigUrl(path).value;
            r.reference == Tag(PRODUCTION_TAG) && path == ConfigUrl(r.location)
  {
    var remainder := path[|CONFIG_PREFIX|..];
    var parts := Split(remainder);
    JoinOfSplit(remainder);
    JoinThree(parts[0], parts[1], parts[2]);
    assert parts == [parts[0], parts[1], parts[2]];
    assert path == CONFIG_PREFIX + remainder;
  }

  /** The path is the configuration URL of a location whose names have no slash. */
  predicate NamesConfig(path: Text, location: ImageLocation) {
    && '/' !in location.repository && '/' !in location.image
    && path == "/_rockslide/config/" + location.repository + "/" + location.image + "/prod"
  }

  /** Those URLs, and no others, are taken for configuration URLs, each for that of its location. */
  lemma ConfigUrlsExactly(path: Text, location: ImageLocation)
    ensures NamesConfig(path, location) <==> ParseConfigUrl(path) == Some(ManifestReference(location, Tag("prod")))
    ensures ParseConfigUrl(path).Some? ==> ParseConfigUrl(path).value.reference == Tag("prod")
  {
    hide ParseConfigUrl, ConfigUrl;
    ConfigUrlRoundTrip(location);
    if ParseConfigUrl(path).Some? {
      ConfigUrlOfParse(path);
    }
  }

  /** Without a host that names a container, configuration URLs stay internal. */
  lemma ConfigUrlStays(t: RoutingTable, location: ImageLocation, query: Option<Text>)
    ensures Route(t, Request(None, Uri(ConfigUrl(location), query))) == Internal(Uri(ConfigUrl(location), query))
  {
    hide Route;
    assert ConfigUrl(location)[..|"/_rockslide"|] == "/_rockslide";
    InternalPathsStay(t, Uri(ConfigUrl(location), query));
  }

  /** What is stored in a file; without a file, the configuration that asks for no password. */
  predicate ConfiguredAt(toml: Toml, dir: ConfigDir, file: seq<Text>, config: RuntimeConfig) {
    if file in dir.entries then dir.entries[file].Readable? && toml.de(dir.entries[file].text) == Some(config)
    else config == RuntimeConfig(None)
  }

  /** Where the configuration of a location is kept. */
  function ConfigFile(dir: ConfigDir, location: ImageLocation): seq<Text> {
    Follow(Directory(dir.base), [location.repository, location.image, "prod"])
  }

  /** The production tag, with or without its colon, loads what is in the location's file. */
  lemma LoadedExactly(toml: Toml, dir: ConfigDir, location: ImageLocation, tag: Text, config: RuntimeConfig)
    requires '/' !in location.repository && '/' !in location.image && (tag == "prod" || tag == ":prod")
    ensures ConfigPath(dir.base, ManifestReference(location, Tag(tag))) == ConfigFile(dir, location)
    ensures LoadConfig(toml, dir, ManifestReference(location, Tag(tag))) == Ok(config)
            <==> ConfiguredAt(toml, dir, ConfigFile(dir, location), config)
  {
    hide ConfigPath, Follow, Directory, TrimStart;
    TrimmedTag();
    assert forall i | 0 <= i < |"prod"| :: "prod"[i] != '/';
    PathOfNames(dir, ManifestReference(location, Tag(tag)));
  }

  // ---------- Loading the containers podman reports ----------

  datatype RefreshError = PodmanFailed | BadConfig(error: ConfigError) | NoHostAddr

  /** Containers without a recognizable name, tag or port are skipped. */
  predicate IsManaged(c: ContainerJson) {
    RecoveredReference(c).Some? && c.ports != []
  }

  /** A container is managed exactly when one of its names parses, its image has a colon, and it has a port. */
  lemma ManagedExactly(c: ContainerJson)
    ensures IsManaged(c) <==>
              (exists name :: name in c.names && ParseName(name).Some?) && ':' in c.image && |c.ports| > 0
  {
    hide ParseName;
    SomeNameParses(c.names);
  }

  lemma {:induction false} SomeNameParses(names: seq<Text>)
    ensures LocationFromNames(names).Some? <==> exists name :: name in names && ParseName(name).Some?
  {
    hide ParseName;
    if names != [] {
      SomeNameParses(names[1..]);
      assert names[0] in names;
      assert forall name :: name in names <==> name == names[0] || name in names[1..];
    }
  }

  function LoadContainer(toml: Toml, dir: ConfigDir, c: ContainerJson)
    : Result<Option<PublishedContainer>, RefreshError>
  {
    if !IsManaged(c) then Ok(None)
    else
      match LoadConfig(toml, dir, RecoveredReference(c).value)
      case Err(e) => Err(BadConfig(e))
      case Ok(config) =>
        if c.ports[0].hostAddr.None? then Err(NoHostAddr)
        else Ok(Some(PublishedContainer(c.ports[0].hostAddr.value, RecoveredReference(c).value, config)))
  }

  /** All managed containers of a listing in its order; the first failure fails the whole. */
  function LoadAll(toml: Toml, dir: ConfigDir, listing: seq<ContainerJson>)
    : Result<seq<PublishedContainer>, RefreshError>
  {
    if listing == [] then Ok([])
    else
      match LoadAll(toml, dir, listing[..|listing| - 1])
      case Err(e) => Err(e)
      case Ok(front) =>
        match LoadContainer(toml, dir, listing[|listing| - 1])
        case Err(e) => Err(e)
        case Ok(None) => Ok(front)
        case Ok(Some(c)) => Ok(front + [c])
  }

  /** Once a container fails, the listing fails, whatever follows. */
  lemma {:induction false} FailureStays(toml: Toml, dir: ConfigDir, listing: seq<ContainerJson>, n: nat)
    requires n <= |listing| && LoadAll(toml, dir, listing[..n]).Err?
    ensures LoadAll(toml, dir, listing) == LoadAll(toml, dir, listing[..n])
  {
    if n == |listing| {
      assert listing[..n] == listing;
    } else {
      var front := listing[..|listing| - 1];
      assert front[..n] == listing[..n];
      FailureStays(toml, dir, front, n);
    }
  }

  /** A refresh succeeds exactly when every managed container has a host address and a readable configuration. */
  lemma {:induction false} LoadsExactly(toml: Toml, dir: ConfigDir, listing: seq<ContainerJson>)
    ensures LoadAll(toml, dir, listing).Ok? <==> forall i | 0 <= i < |listing| && IsManaged(listing[i]) ::
              listing[i].ports[0].hostAddr.Some? && LoadConfig(toml, dir, RecoveredReference(listing[i]).value).Ok?
  {
    hide LoadConfig, RecoveredReference;
    if listing != [] {
      var n := |listing| - 1;
      LoadsExactly(toml, dir, listing[..n]);
      assert forall i | 0 <= i < n :: listing[..n][i] == listing[i];
    }
  }

  /** The order of the listing is kept: loading in two parts is loading the whole. */
  lemma {:induction false} LoadsInOrder(toml: Toml, dir: ConfigDir, a: seq<ContainerJson>, b: seq<ContainerJson>)
    requires LoadAll(toml, dir, a + b).Ok?
    ensures LoadAll(toml, dir, a).Ok? && LoadAll(toml, dir, b).Ok?
    ensures LoadAll(toml, dir, a + b).value == LoadAll(toml, dir, a).value + LoadAll(toml, dir, b).value
    decreases |b|
  {
    hide LoadContainer;
    if b == [] {
      assert a + b == a;
    } else {
      var n := |b| - 1;
      assert (a + b)[..|a| + n] == a + b[..n];
      assert (a + b)[|a| + n] == b[n];
      LoadsInOrder(toml, dir, a, b[..n]);
    }
  }

  /** A published container is one of the listing, with its recovered reference and its stored configuration. */
  predicate Publishes(toml: Toml, dir: ConfigDir, c: ContainerJson, pc: PublishedContainer) {
    && IsManaged(c)
    && c.ports[0].hostAddr == Some(pc.hostAddr)
    && RecoveredReference(c) == Some(pc.reference)
    && LoadConfig(toml, dir, pc.reference) == Ok(pc.config)
  }

  /** Nothing is invented and nothing managed is left out. */
  lemma {:induction false} LoadedAreListed(toml: Toml, dir: ConfigDir, listing: seq<ContainerJson>)
    requires LoadAll(toml, dir, listing).Ok?
    ensures forall pc | pc in LoadAll(toml, dir, listing).value ::
              exists c :: c in listing && Publishes(toml, dir, c, pc)
    ensures forall c | c in listing && IsManaged(c) ::
              exists pc :: pc in LoadAll(toml, dir, listing).value && Publishes(toml, dir, c, pc)
  {
    hide LoadConfig, RecoveredReference;
    if listing != [] {
      var n := |listing| - 1;
      var front, last := listing[..n], listing[n];
      LoadedAreListed(toml, dir, front);
      var before, all := LoadAll(toml, dir, front).value, LoadAll(toml, dir, listing).value;
      assert listing == front + [last];
      forall pc | pc in all
        ensures exists c :: c in listing && Publishes(toml, dir, c, pc)
      {
        if pc in before {
          var c :| c in front && Publishes(toml, dir, c, pc);
          assert c in listing;
        } else {
          assert Publishes(toml, dir, last, pc);
          assert last in listing;
        }
      }
      forall c | c in listing && IsManaged(c)
        ensures exists pc :: pc in all && Publishes(toml, dir, c, pc)
      {
        if c in front {
          var pc :| pc in before && Publishes(toml, dir, c, pc);
          assert pc in all;
        } else {
          var pc := LoadContainer(toml, dir, last).value.value;
          assert pc in all && Publishes(toml, dir, last, pc);
        }
      }
    }
  }

  // ---------- A saved configuration reaches its containers ----------

  /** Saving touches one file: references that lead elsewhere load what they did before. */
  lemma SavingIsLocal(toml: Toml, dir: ConfigDir, r: ManifestReference, config: RuntimeConfig,
                      fault: Option<WriteFault>, other: ManifestReference)
    requires ConfigPath(dir.base, other) != ConfigPath(dir.base, r)
    ensures LoadConfig(toml, SaveConfig(toml, dir, r, config, fault).0, other) == LoadConfig(toml, dir, other)
  {
    hide ConfigPath;
  }

  /**
   A save that is not cut off returns what was saved, exactly when the writer and reader agree on it and
   there is no directory in its place. Any file that was there before, readable or not, is replaced.
   */
  lemma SavedIsLoaded(toml: Toml, dir: ConfigDir, r: ManifestReference, config: RuntimeConfig)
    ensures SaveConfig(toml, dir, r, config, None).1 == Ok(config) <==> Survives(toml, config) && !IsClosed(dir, r)
  {
    hide ConfigPath;
    if toml.ser(config).Some? && !IsClosed(dir, r) {
      var saved := SaveConfig(toml, dir, r, config, None).0;
      assert saved.entries[ConfigPath(dir.base, r)] == Readable(toml.ser(config).value);
    }
  }

  /** Three names in a row lead where following them does. */
  lemma PathOfNames(dir: ConfigDir, r: ManifestReference)
    requires NoSlashes(r)
    ensures ConfigPath(dir.base, r)
            == Follow(Directory(dir.base),
                      [r.location.repository, r.location.image, TrimStart(ShowReference(r.reference), ':')])
  {
    hide Split, Follow, Pushed, TrimStart, ShowReference;
    var a, b, c := r.location.repository, r.location.image, TrimStart(ShowReference(r.reference), ':');
    PushedName(dir.base, a);
    PushedName(Pushed(dir.base, a), b);
    PushedName(Pushed(Pushed(dir.base, a), b), c);
    FollowInTwo(Directory(dir.base), [a], [b]);
    FollowInTwo(Directory(dir.base), [a, b], [c]);
    assert [a] + [b] == [a, b] && [a, b] + [c] == [a, b, c];
  }

  lemma PushedName(buffer: Text, name: Text)
    requires '/' !in name
    ensures Directory(Pushed(buffer, name)) == Follow(Directory(buffer), [name])
  {
    hide Split, Follow, Pushed;
    assert name != "" ==> name[0] in name;
    PushedDirectory(buffer, name);
    WordIsOnePiece(name);
  }

  predicate NoSlashes(r: ManifestReference) {
    && '/' !in r.location.repository && '/' !in r.location.image
    && '/' !in TrimStart(ShowReference(r.reference), ':')
  }

  /** Repository, image and trimmed tag are directory entries of their own. */
  predicate PlainNames(r: ManifestReference) {
    && NoSlashes(r)
    && IsName(r.location.repository) && IsName(r.location.image)
    && IsName(TrimStart(ShowReference(r.reference), ':'))
  }

  /**
   Two references by plain names share a file exactly when they have one location, and tags equal up to
   leading colons.
   */
  lemma SamePathSameContainer(dir: ConfigDir, a: ManifestReference, b: ManifestReference)
    requires PlainNames(a) && PlainNames(b)
    ensures ConfigPath(dir.base, a) == ConfigPath(dir.base, b)
            <==> a.location == b.location
                 && TrimStart(ShowReference(a.reference), ':') == TrimStart(ShowReference(b.reference), ':')
  {
    hide ConfigPath, TrimStart, ShowReference;
    PlainPath(dir, a);
    PlainPath(dir, b);
    var p, q, n := ConfigPath(dir.base, a), ConfigPath(dir.base, b), |Directory(dir.base)|;
    if p == q {
      assert p[n] == q[n] && p[n + 1] == q[n + 1] && p[n + 2] == q[n + 2];
    }
  }

  lemma PlainPath(dir: ConfigDir, r: ManifestReference)
    requires PlainNames(r)
    ensures ConfigPath(dir.base, r)
            == Directory(dir.base)
               + [r.location.repository, r.location.image, TrimStart(ShowReference(r.reference), ':')]
  {
    hide ConfigPath, TrimStart, ShowReference, Directory;
    PathOfNames(dir, r);
    var a, b, c := r.location.repository, r.location.image, TrimStart(ShowReference(r.reference), ':');
    FollowNames(Directory(dir.base), a, b, c);
  }

  lemma FollowNames(at: seq<Text>, a: Text, b: Text, c: Text)
    requires IsName(a) && IsName(b) && IsName(c)
    ensures Follow(at, [a, b, c]) == at + [a, b, c]
  {
    FollowDown(at, [a, b, c]);
    assert [a, b, c][1..] == [b, c] && [b, c][1..] == [c];
    assert Names([c]) == [c];
    assert Names([b, c]) == [b, c];
  }

  /** The directory configurations are kept in, below the runtime directory. */
  const CONFIGS_NAME := "configs"

  predicate IsConfigsDir(at: seq<Text>) {
    at != [] && at[|at| - 1] == "configs"
  }

  lemma ConfigsDirBelow(runtimeDir: Text)
    ensures IsConfigsDir(Directory(Pushed(runtimeDir, CONFIGS_NAME)))
  {
    hide Directory, Pushed;
    assert '/' !in CONFIGS_NAME;
    PushedName(runtimeDir, CONFIGS_NAME);
  }

  /** What a caller can check of a location: its names do not climb out of the directory, or climb back in. */
  predicate StaysBelow(location: ImageLocation) {
    && (location.repository == ".." ==> location.image == "configs")
    && (location.repository == "" || location.repository == "." ==> location.image != "..")
  }

  /** The file that a configuration URL leads to is below the configuration directory exactly then. */
  lemma PathStaysBelowExactly(dir: ConfigDir, location: ImageLocation)
    requires IsConfigsDir(Directory(dir.base)) && '/' !in location.repository && '/' !in location.image
    ensures Directory(dir.base) <= ConfigPath(dir.base, ManifestReference(location, Tag(PRODUCTION_TAG)))
            <==> StaysBelow(location)
  {
    hide ConfigPath, Directory, Follow, Entered;
    var at, a, b := Directory(dir.base), location.repository, location.image;
    TrimmedTag();
    assert '/' !in PRODUCTION_TAG;
    PathOfNames(dir, ManifestReference(location, Tag(PRODUCTION_TAG)));
    FollowThree(at, a, b, PRODUCTION_TAG);
    EnteredProduction(Entered(Entered(at, a), b));
    BelowExactly(at, location);
  }

  lemma EnteredProduction(at: seq<Text>)
    ensures Entered(at, PRODUCTION_TAG) == at + [PRODUCTION_TAG]
  {
  }

  /** A path one entry below some place lies below a directory of another name exactly if that place does. */
  lemma BelowOneMore(at: seq<Text>, place: seq<Text>)
    requires IsConfigsDir(at)
    ensures at <= place + [PRODUCTION_TAG] <==> at <= place
  {
    assert (place + [PRODUCTION_TAG])[|place|] == PRODUCTION_TAG;
    if |at| <= |place| {
      assert (place + [PRODUCTION_TAG])[..|at|] == place[..|at|];
    }
  }

  lemma BelowExactly(at: seq<Text>, location: ImageLocation)
    requires IsConfigsDir(at)
    ensures at <= Entered(Entered(at, location.repository), location.image) + [PRODUCTION_TAG] <==> StaysBelow(location)
  {
    var a, b := location.repository, location.image;
    var place := Entered(Entered(at, a), b);
    BelowOneMore(at, place);
    if a == ".." {
      var front := at[..|at| - 1];
      assert at == front + ["configs"];
      if IsName(b) {
        assert place == front + [b] && place[|front|] == b;
      }
    } else if IsName(a) {
      assert at + [a] + [b] == at + [a, b];
      assert b == ".." ==> place == at;
    }
  }

  function Entered(at: seq<Text>, piece: Text): seq<Text> {
    if piece == "" || piece == "." then at
    else if piece == ".." then (if at == [] then [] else at[..|at| - 1])
    else at + [piece]
  }

  lemma FollowThree(at: seq<Text>, a: Text, b: Text, c: Text)
    ensures Follow(at, [a, b, c]) == Entered(Entered(Entered(at, a), b), c)
  {
    assert [a, b, c][1..] == [b, c] && [b, c][1..] == [c] && [c][1..] == [];
    FollowOne(at, a, [b, c]);
    FollowOne(Entered(at, a), b, [c]);
    FollowOne(Entered(Entered(at, a), b), c, []);
  }

  lemma FollowOne(at: seq<Text>, piece: Text, rest: seq<Text>)
    ensures Follow(at, [piece] + rest) == Follow(Entered(at, piece), rest)
  {
    assert ([piece] + rest)[1..] == rest;
  }

  /** With dots, different locations share a file. */
  lemma DotsShareAFile(dir: ConfigDir, name: Text)
    requires IsName(name) && '/' !in name
    ensures ConfigPath(dir.base, ManifestReference(ImageLocation(name, "."), Tag(PRODUCTION_TAG)))
            == ConfigPath(dir.base, ManifestReference(ImageLocation(".", name), Tag(PRODUCTION_TAG)))
  {
    hide ConfigPath, Directory;
    TrimmedTag();
    assert '/' !in PRODUCTION_TAG && '/' !in ".";
    PathOfNames(dir, ManifestReference(ImageLocation(name, "."), Tag(PRODUCTION_TAG)));
    PathOfNames(dir, ManifestReference(ImageLocation(".", name), Tag(PRODUCTION_TAG)));
    FollowThree(Directory(dir.base), name, ".", PRODUCTION_TAG);
    FollowThree(Directory(dir.base), ".", name, PRODUCTION_TAG);
  }

  /** In the refreshed table: the new configuration for the saved path, the stored one for any other. */
  ghost predicate CarriesConfig(toml: Toml, dir: ConfigDir, saved: ManifestReference, config: RuntimeConfig,
                                pc: PublishedContainer) {
    if ConfigPath(dir.base, pc.reference) == ConfigPath(dir.base, saved) then pc.config == config
    else LoadConfig(toml, dir, pc.reference) == Ok(pc.config)
  }

  lemma LoadedCarry(toml: Toml, dir: ConfigDir, r: ManifestReference, config: RuntimeConfig, stored: RuntimeConfig,
                    listing: seq<ContainerJson>)
    requires SaveConfig(toml, dir, r, config, None).1 == Ok(stored)
    requires LoadAll(toml, SaveConfig(toml, dir, r, config, None).0, listing).Ok?
    ensures forall pc | pc in LoadAll(toml, SaveConfig(toml, dir, r, config, None).0, listing).value ::
              CarriesConfig(toml, dir, r, stored, pc)
  {
    hide RecoveredReference, ConfigPath, LoadAll;
    var saved := SaveConfig(toml, dir, r, config, None).0;
    LoadedAreListed(toml, saved, listing);
    forall pc | pc in LoadAll(toml, saved, listing).value
      ensures CarriesConfig(toml, dir, r, stored, pc)
    {
      var c :| c in listing && Publishes(toml, saved, c, pc);
      if ConfigPath(dir.base, pc.reference) != ConfigPath(dir.base, r) {
        SavingIsLocal(toml, dir, r, config, None, pc.reference);
      }
    }
  }

  /**
   After a configuration is saved through its URL and the published set refreshed, every entry of
   both indexes carries what was read back, or the configuration stored for itself.
   */
  lemma SavedConfigReachesContainers(toml: Toml, dir: ConfigDir, path: Text, config: RuntimeConfig,
                                     stored: RuntimeConfig, listing: seq<ContainerJson>)
    requires ParseConfigUrl(path).Some?
    requires SaveConfig(toml, dir, ParseConfigUrl(path).value, config, None).1 == Ok(stored)
    requires LoadAll(toml, SaveConfig(toml, dir, ParseConfigUrl(path).value, config, None).0, listing).Ok?
    ensures var r := ParseConfigUrl(path).value;
            var running := LoadAll(toml, SaveConfig(toml, dir, r, config, None).0, listing).value;
            && (forall location | location in TableOf(running).pathMaps ::
                  CarriesConfig(toml, dir, r, stored, TableOf(running).pathMaps[location]))
            && (forall domain | domain in TableOf(running).domainMaps ::
                  CarriesConfig(toml, dir, r, stored, TableOf(running).domainMaps[domain]))
  {
    hide LoadAll, TableOf, CarriesConfig, LoadConfig, ParseConfigUrl, SaveConfig, Domain;
    var r := ParseConfigUrl(path).value;
    var running := LoadAll(toml, SaveConfig(toml, dir, r, config, None).0, listing).value;
    LoadedCarry(toml, dir, r, config, stored, listing);
    forall location | location in TableOf(running).pathMaps
      ensures CarriesConfig(toml, dir, r, stored, TableOf(running).pathMaps[location])
    {
      PathIndexHoldsLast(running, location);
    }
    forall domain | domain in TableOf(running).domainMaps
      ensures CarriesConfig(toml, dir, r, stored, TableOf(running).domainMaps[domain])
    {
      DomainIndexHoldsLast(running, domain);
    }
  }
}
