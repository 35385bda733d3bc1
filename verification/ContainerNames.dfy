/**
 Identities that travel through strings: an image location as a container name and
 back, an image URL to a tag, a tag to a configuration path.
 */
module ContainerNames {
  import opened Prelude
  import opened Digests
  import opened Texts
  import opened Paths

  const NAME_PREFIX := "rockslide---"
  const SEPARATOR := "---"
  const PRODUCTION_TAG := "prod"

  function ContainerName(location: ImageLocation): Text {
    NAME_PREFIX + (location.repository + SEPARATOR + location.image)
  }

  function StripPrefix(s: Text, prefix: Text): Option<Text> {
    if prefix <= s then Some(s[|prefix|..]) else None
  }

  /** Splits at the first separator. */
  function ParseName(name: Text): Option<ImageLocation> {
    match StripPrefix(name, NAME_PREFIX)
    case None => None
    case Some(rest) =>
      match Texts.Find(rest, SEPARATOR)
      case None => None
      case Some(i) => Some(ImageLocation(rest[..i], rest[i + |SEPARATOR|..]))
  }

  /** What a repository name must satisfy to survive in a container name. */
  predicate CleanRepository(repository: Text) {
    && (forall i | 0 <= i < |repository| :: !OccursAt(repository, SEPARATOR, i))
    && (repository != "" ==> repository[|repository| - 1] != '-')
  }

  lemma SeparatorAt(s: Text, i: nat)
    ensures OccursAt(s, SEPARATOR, i) <==> i + 3 <= |s| && s[i] == '-' && s[i + 1] == '-' && s[i + 2] == '-'
  {
    if i + 3 <= |s| {
      assert s[i..i + 3] == [s[i], s[i + 1], s[i + 2]];
    }
  }

  /** The separator occurs before the end of the repository exactly when the repository is not clean. */
  lemma FirstSeparator(repository: Text, image: Text)
    ensures var joined := repository + SEPARATOR + image;
            && OccursAt(joined, SEPARATOR, |repository|)
            && ((forall i | 0 <= i < |repository| :: !OccursAt(joined, SEPARATOR, i)) <==> CleanRepository(repository))
  {
    var joined, n := repository + SEPARATOR + image, |repository|;
    SeparatorAt(joined, n);
    if i :| 0 <= i < n && OccursAt(joined, SEPARATOR, i) {
      SeparatorAt(joined, i);
      SeparatorAt(repository, i);
      if i + 3 > n {
        assert joined[n - 1] == repository[n - 1] == '-';
      }
    }
    if n > 0 && repository[n - 1] == '-' {
      SeparatorAt(joined, n - 1);
    }
    if i :| 0 <= i < n && OccursAt(repository, SEPARATOR, i) {
      SeparatorAt(repository, i);
      SeparatorAt(joined, i);
    }
  }

  /** A location survives its container name exactly when its repository is clean. */
  lemma NameRoundTrip(location: ImageLocation)
    ensures ContainerName(location) == "rockslide---" + location.repository + "---" + location.image
    ensures ParseName(ContainerName(location)) == Some(location) <==> CleanRepository(location.repository)
  {
    assert NAME_PREFIX + (location.repository + SEPARATOR + location.image)
           == "rockslide---" + location.repository + "---" + location.image;
    var joined := location.repository + SEPARATOR + location.image;
    var n := |location.repository|;
    FirstSeparator(location.repository, location.image);
    assert ContainerName(location)[|NAME_PREFIX|..] == joined;
    var found := Texts.Find(joined, SEPARATOR);
    assert found.Some? && found.value <= n;
    if found.value == n {
      assert joined[..n] == location.repository && joined[n + 3..] == location.image;
    } else {
      assert |joined[..found.value]| < n;
    }
  }

  /** Whatever a name parses to prints as that very name: no two names share a location. */
  lemma NameOfParse(name: Text)
    requires ParseName(name).Some?
    ensures ContainerName(ParseName(name).value) == name
  {
    var rest := name[|NAME_PREFIX|..];
    var i := Texts.Find(rest, SEPARATOR).value;
    assert rest[i..i + 3] == SEPARATOR;
    assert rest == rest[..i] + SEPARATOR + rest[i + 3..];
    assert name == NAME_PREFIX + rest;
  }

  lemma CleanNamesDiffer(a: ImageLocation, b: ImageLocation)
    requires CleanRepository(a.repository) && CleanRepository(b.repository)
    ensures ContainerName(a) == ContainerName(b) <==> a == b
  {
    NameRoundTrip(a);
    NameRoundTrip(b);
  }

  /** Names a route accepts. */
  predicate IsNamed(location: ImageLocation) {
    location.repository != "" && location.image != ""
  }

  /** The separator stands in the joined names only where it joins them, or where one side of it would be empty. */
  predicate OwnsName(location: ImageLocation) {
    var joined := location.repository + SEPARATOR + location.image;
    forall i: nat | 0 < i && i + 3 < |joined| && i != |location.repository| :: !OccursAt(joined, SEPARATOR, i)
  }

  /** No other named location claims a location's container exactly then. */
  lemma OwnsNameExactly(a: ImageLocation)
    ensures OwnsName(a) <==> forall b :: IsNamed(b) && ContainerName(b) == ContainerName(a) ==> b == a
  {
    var joined := a.repository + SEPARATOR + a.image;
    if OwnsName(a) {
      forall b | IsNamed(b) && ContainerName(b) == ContainerName(a)
        ensures b == a
      {
        assert ContainerName(b)[|NAME_PREFIX|..] == b.repository + SEPARATOR + b.image;
        assert ContainerName(a)[|NAME_PREFIX|..] == joined;
        FirstSeparator(b.repository, b.image);
        assert b.repository == joined[..|b.repository|] && a.repository == joined[..|a.repository|];
        assert b.image == joined[|b.repository| + 3..] && a.image == joined[|a.repository| + 3..];
      }
    } else {
      var i: nat :| 0 < i && i + 3 < |joined| && i != |a.repository| && OccursAt(joined, SEPARATOR, i);
      var b := ImageLocation(joined[..i], joined[i + 3..]);
      assert joined[i..i + 3] == SEPARATOR;
      assert b.repository + SEPARATOR + b.image == joined;
      assert IsNamed(b) && ContainerName(b) == ContainerName(a);
      assert |b.repository| != |a.repository|;
    }
  }

  /** A named location that owns its name also survives it, exactly when its name does not begin with the separator. */
  lemma OwnersAreClean(location: ImageLocation)
    requires IsNamed(location) && OwnsName(location)
    ensures CleanRepository(location.repository) <==> !StartsWith(location.repository + SEPARATOR, SEPARATOR)
  {
    hide CleanRepository;
    var repository, joined := location.repository, location.repository + SEPARATOR + location.image;
    FirstSeparator(repository, location.image);
    assert joined[..|repository| + 3] == repository + SEPARATOR;
    assert joined[..3] == (repository + SEPARATOR)[..3];
    assert OccursAt(joined, SEPARATOR, 0) <==> StartsWith(repository + SEPARATOR, SEPARATOR);
  }

  /** Two locations can claim one container, even if the repository of one is clean. */
  lemma UncleanNamesClash()
    ensures ContainerName(ImageLocation("a---b", "c")) == ContainerName(ImageLocation("a", "b---c"))
    ensures CleanRepository("a") && !OwnsName(ImageLocation("a", "b---c"))
  {
    var a, b := ImageLocation("a", "b---c"), ImageLocation("a---b", "c");
    assert "a---b" + SEPARATOR + "c" == "a" + SEPARATOR + "b---c";
    assert IsNamed(b);
    OwnsNameExactly(a);
    SeparatorAt("a", 0);
  }

  // ---------- What podman reports ----------

  datatype PortMapping = PortMapping(hostAddr: Option<Text>)

  datatype ContainerJson = ContainerJson(image: Text, names: seq<Text>, ports: seq<PortMapping>)

  /** The first name that parses. */
  function LocationFromNames(names: seq<Text>): Option<ImageLocation> {
    if names == [] then None
    else if ParseName(names[0]).Some? then ParseName(names[0])
    else LocationFromNames(names[1..])
  }

  /** The text from the last colon on; the colon is kept. */
  function ImageTag(image: Text): Option<Reference> {
    match LastIndexOf(image, ':')
    case None => None
    case Some(i) => Some(Tag(image[i..]))
  }

  /** The location is that of the first name that parses. */
  lemma {:induction false} FirstNameDecides(names: seq<Text>, location: ImageLocation)
    ensures LocationFromNames(names) == Some(location)
            <==> exists i :: 0 <= i < |names| && ParseName(names[i]) == Some(location)
                             && forall j | 0 <= j < i :: ParseName(names[j]).None?
  {
    hide ParseName;
    if names != [] {
      var rest := names[1..];
      FirstNameDecides(rest, location);
      if ParseName(names[0]).None? {
        if i :| 0 <= i < |rest| && ParseName(rest[i]) == Some(location)
                && forall j | 0 <= j < i :: ParseName(rest[j]).None? {
          assert names[i + 1] == rest[i];
          forall j | 0 <= j < i + 1
            ensures ParseName(names[j]).None?
          {
            assert j > 0 ==> names[j] == rest[j - 1];
          }
        }
        if i :| 0 <= i < |names| && ParseName(names[i]) == Some(location)
                && forall j | 0 <= j < i :: ParseName(names[j]).None? {
          assert i > 0 && rest[i - 1] == names[i];
          assert forall j | 0 <= j < i - 1 :: rest[j] == names[j + 1];
        }
      } else if i :| 0 <= i < |names| && ParseName(names[i]) == Some(location)
                     && forall j | 0 <= j < i :: ParseName(names[j]).None? {
        assert i == 0;
      }
    }
  }

  /** The tag is what begins with the last colon. */
  lemma LastColonBegins(image: Text, tag: Text)
    ensures ImageTag(image) == Some(Tag(tag))
            <==> ":" <= tag && ':' !in tag[1..] && |tag| <= |image| && image[|image| - |tag|..] == tag
  {
    hide LastIndexOf;
    if ImageTag(image) == Some(Tag(tag)) {
      var i := LastIndexOf(image, ':').value;
      assert tag == image[i..] && tag[1..] == image[i + 1..];
    }
    if ":" <= tag && ':' !in tag[1..] && |tag| <= |image| && image[|image| - |tag|..] == tag {
      var i := |image| - |tag|;
      assert image[i] == tag[0];
      assert forall k | i < k < |image| :: image[k] == tag[1..][k - i - 1];
      LastIndexIs(image, ':', i);
    }
  }

  function RecoveredReference(c: ContainerJson): Option<ManifestReference> {
    match (LocationFromNames(c.names), ImageTag(c.image))
    case (Some(location), Some(tag)) => Some(ManifestReference(location, tag))
    case _ => None
  }

  function ImageUrl(localAddr: Text, location: ImageLocation): Text {
    localAddr + "/" + location.repository + "/" + location.image + ":" + PRODUCTION_TAG
  }

  /** What an image URL asks the registry at an address for: two names and a tag after the last colon. */
  function NamedBy(localAddr: Text, url: Text): Option<ManifestReference> {
    match StripPrefix(url, localAddr + "/")
    case None => None
    case Some(rest) =>
      var parts := Split(rest);
      if |parts| != 2 then None
      else
        match LastIndexOf(parts[1], ':')
        case None => None
        case Some(i) => Some(ManifestReference(ImageLocation(parts[0], parts[1][..i]), Tag(parts[1][i + 1..])))
  }

  predicate NamesFit(location: ImageLocation) {
    '/' !in location.repository && '/' !in location.image
  }

  /**
   The image URL of a location asks for its production manifest exactly when its names have no slash, and
   for nothing otherwise.
   */
  lemma ImageUrlNames(localAddr: Text, location: ImageLocation)
    ensures ImageUrl(localAddr, location) == localAddr + "/" + location.repository + "/" + location.image + ":prod"
    ensures NamedBy(localAddr, ImageUrl(localAddr, location))
            == if NamesFit(location) then Some(ManifestReference(location, Tag("prod"))) else None
  {
    hide Split, LastIndexOf;
    var last := location.image + ":prod";
    var rest := location.repository + "/" + last;
    var url := ImageUrl(localAddr, location);
    assert url == localAddr + "/" + rest;
    assert url[|localAddr + "/"|..] == rest;
    SplitAtSlash(location.repository, last);
    WordPieces(location.repository);
    WordPieces(last);
    if NamesFit(location) {
      assert '/' !in last;
      WordIsOnePiece(location.repository);
      WordIsOnePiece(last);
      assert Split(rest) == [location.repository, last];
      LastIndexIs(last, ':', |location.image|);
      assert last[..|location.image|] == location.image && last[|location.image| + 1..] == "prod";
    } else {
      assert forall i | 0 <= i < |location.image| :: last[i] == location.image[i];
      assert '/' in location.repository || '/' in last;
    }
  }

  /** Locations of one container name have a slash in their names both or neither. */
  lemma SlashesAreShared(a: ImageLocation, b: ImageLocation)
    requires ContainerName(a) == ContainerName(b)
    ensures NamesFit(a) == NamesFit(b)
  {
    SlashInName(a);
    SlashInName(b);
  }

  lemma SlashInName(location: ImageLocation)
    ensures NamesFit(location) <==> '/' !in ContainerName(location)
  {
    var r, i := location.repository, location.image;
    assert forall k | 0 <= k < |r| :: ContainerName(location)[|NAME_PREFIX| + k] == r[k];
    assert forall k | 0 <= k < |i| :: ContainerName(location)[|NAME_PREFIX| + |r| + 3 + k] == i[k];
  }

  /** A text without slashes is one piece, and any other is more. */
  lemma WordPieces(s: Text)
    ensures |Split(s)| == 1 <==> '/' !in s
    ensures |Split(s)| >= 1
  {
    hide Split;
    if '/' !in s {
      WordIsOnePiece(s);
    }
    JoinOfSplit(s);
    assert |Split(s)| == 1 ==> s == Split(s)[0];
  }

  /** Below a base directory: repository, image, and the reference without leading colons. */
  function NamespacedDir(base: Text, r: ManifestReference): Text {
    Pushed(Pushed(Pushed(base, r.location.repository), r.location.image), TrimStart(ShowReference(r.reference), ':'))
  }

  /** The production container of a location, as podman reports it. */
  predicate IsProductionContainer(c: ContainerJson, localAddr: Text, location: ImageLocation) {
    c.names == [ContainerName(location)] && c.image == ImageUrl(localAddr, location)
  }

  /** The tag of a production image URL comes back with its colon. */
  lemma ProductionTagKeepsColon(localAddr: Text, location: ImageLocation)
    ensures ImageTag(ImageUrl(localAddr, location)) == Some(Tag(":prod"))
  {
    var front := localAddr + "/" + location.repository + "/" + location.image;
    var url := ImageUrl(localAddr, location);
    assert url == front + ":prod";
    LastIndexIs(url, ':', |front|);
    var i := LastIndexOf(url, ':').value;
    assert url[i..] == ":prod";
  }

  lemma TrimmedTag()
    ensures TrimStart(":prod", ':') == "prod" == TrimStart("prod", ':')
  {
    assert ":prod"[1..] == "prod";
  }

  /**
   A production container is recovered under its own location exactly when the repository is clean.
   Its tag comes back with the colon, and still leads to the configuration path of the plain tag.
   */
  lemma ProductionIsRecovered(c: ContainerJson, localAddr: Text, location: ImageLocation)
    requires IsProductionContainer(c, localAddr, location)
    ensures RecoveredReference(c).Some? && RecoveredReference(c).value.reference == Tag(":prod")
    ensures RecoveredReference(c) == Some(ManifestReference(location, Tag(":prod")))
            <==> CleanRepository(location.repository)
    ensures CleanRepository(location.repository) ==>
              forall base :: NamespacedDir(base, RecoveredReference(c).value)
                             == NamespacedDir(base, ManifestReference(location, Tag(PRODUCTION_TAG)))
  {
    hide ParseName, ContainerName, CleanRepository, ImageTag, ImageUrl, TrimStart;
    NameRoundTrip(location);
    NameAlwaysParses(location);
    ProductionTagKeepsColon(localAddr, location);
    TrimmedTag();
    assert LocationFromNames(c.names) == ParseName(c.names[0]);
  }

  lemma NameAlwaysParses(location: ImageLocation)
    ensures ParseName(ContainerName(location)).Some?
  {
    FirstSeparator(location.repository, location.image);
    assert ContainerName(location)[|NAME_PREFIX|..] == location.repository + SEPARATOR + location.image;
  }

  /** No reference recovered from podman carries the plain production tag. */
  lemma RecoveredTagKeepsColon(c: ContainerJson)
    requires RecoveredReference(c).Some?
    ensures RecoveredReference(c).value.reference.Tag?
    ensures ":" <= RecoveredReference(c).value.reference.tag
    ensures RecoveredReference(c).value.reference != Tag(PRODUCTION_TAG)
  {
  }
}
