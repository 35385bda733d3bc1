/**
 How the registry store lays out its directory: uploads, blobs and manifests by
 name, and tags as relative links that resolve into the manifests.
 */
module Layout {
  import opened Prelude
  import opened Digests
  import opened Disk

  const TOP := {"uploads", "blobs", "manifests", "tags"}

  function BlobPath(d: Digest): Path { ["blobs", Hex(d)] }

  function UploadPath(upload: Text): Path { ["uploads", upload + ".partial"] }

  function ManifestEntry(name: Text): Path { ["manifests", name] }

  function ManifestPath(d: Digest): Path { ManifestEntry(Hex(d)) }

  /** The link text stored in a tag; it is relative to the directory holding the tag. */
  function LinkTo(name: Text): Path { ["..", "..", "..", "manifests", name] }

  function TagPath(location: ImageLocation, tag: Text): Path {
    ["tags", location.repository, location.image, tag]
  }

  function TagParent(location: ImageLocation): Path {
    ["tags", location.repository, location.image]
  }

  function RepositoryDir(location: ImageLocation): Path { ["tags", location.repository] }

  function TempTagPath(unique: Text): Path { ["tags", unique] }

  predicate ValidLocation(location: ImageLocation) {
    IsComponent(location.repository) && IsComponent(location.image)
  }

  predicate ValidReference(r: ManifestReference) {
    ValidLocation(r.location) && (r.reference.Tag? ==> IsComponent(r.reference.tag))
  }

  predicate IsLinkTo(target: Path) {
    |target| == 5 && target == LinkTo(target[4]) && IsComponent(target[4])
  }

  /** Which node may sit at which path. */
  predicate Fits(p: Path, node: Node) {
    if p == [] then node.Dir?
    else if |p| == 1 then node.Dir? && p[0] in TOP
    else if p[0] == "tags" then
      || (|p| == 2 && (node.Dir? || (node.Link? && IsLinkTo(node.target))))
      || (|p| == 3 && node.Dir?)
      || (|p| == 4 && node.Link? && IsLinkTo(node.target))
    else |p| == 2 && p[0] in TOP && node.File?
  }

  ghost predicate Shape(tree: Tree) {
    && [] in tree
    && (forall name | name in TOP :: [name] in tree)
    && (forall p {:trigger tree[p]} | p in tree :: Fits(p, tree[p]))
    && (forall p {:trigger Parent(p)} | p in tree && p != [] :: DirAt(tree, Parent(p)))
  }

  /** Every link's manifest exists. */
  ghost predicate LinksResolve(tree: Tree) {
    forall p {:trigger tree[p].target} | p in tree && tree[p].Link? && |tree[p].target| == 5 ::
      ManifestEntry(tree[p].target[4]) in tree
  }

  ghost predicate Inodes(disk: Disk) {
    && (forall p | p in disk.tree && disk.tree[p].File? ::
          disk.tree[p].ino in disk.data && disk.tree[p].ino < disk.next)
    && (forall i | i in disk.data :: i < disk.next)
    && (forall p, q | p in disk.tree && q in disk.tree && disk.tree[p].File? && disk.tree[p] == disk.tree[q] :: p == q)
  }

  ghost predicate WellFormed(disk: Disk) {
    Shape(disk.tree) && LinksResolve(disk.tree) && Inodes(disk)
  }

  /** The store `FilesystemStorage::new` sets up in an empty root. */
  const FRESH: Disk := Disk(
    map[[] := Dir, ["uploads"] := Dir, ["blobs"] := Dir, ["manifests"] := Dir, ["tags"] := Dir], map[], 0)

  lemma FreshIsWellFormed()
    ensures WellFormed(FRESH)
  {
  }

  // ---------- Lookups in closed form ----------

  lemma LookupTop(tree: Tree, name: Text)
    requires Shape(tree) && name in TOP
    ensures Lookup(tree, [name]) == Some([name]) && DirAt(tree, [name])
  {
    LookupTopEntry(tree, name, [], MAX_LINKS);
    assert [name] + [] == [name];
  }

  lemma LookupTopEntry(tree: Tree, top: Text, rest: Path, links: nat)
    requires Shape(tree) && top in TOP
    ensures Walk(tree, [], [top] + rest, links) == Walk(tree, [top], rest, links)
  {
    assert [] + [top] == [top];
    assert ([top] + rest)[1..] == rest;
  }

  lemma LookupFile(tree: Tree, top: Text, name: Text)
    requires Shape(tree) && top in TOP && top != "tags" && IsComponent(name)
    ensures Lookup(tree, [top, name]) == if [top, name] in tree then Some([top, name]) else None
  {
    LookupTopEntry(tree, top, [name], MAX_LINKS);
    assert [top] + [name] == [top, name];
    assert [name][1..] == [];
  }

  /** A link just below `tags` would climb above the root: it resolves to nothing. */
  lemma TempLinkDangles(tree: Tree, name: Text, rest: Path, links: nat)
    requires Shape(tree)
    ensures Walk(tree, ["tags"], LinkTo(name) + rest, links) == None
  {
    forall j | 0 <= j <= 1
      ensures DirAt(tree, ["tags"][..j])
    {
      assert ["tags"][..0] == [] && ["tags"][..1] == ["tags"];
    }
    assert Ups(3) == ["..", "..", ".."];
    assert LinkTo(name) + rest == Ups(3) + (["manifests", name] + rest);
    WalkUp(tree, ["tags"], 3, ["manifests", name] + rest, links);
  }

  lemma LookupRepositoryDir(tree: Tree, repository: Text)
    requires Shape(tree) && IsComponent(repository)
    ensures Lookup(tree, ["tags", repository])
            == if DirAt(tree, ["tags", repository]) then Some(["tags", repository]) else None
  {
    var p := ["tags", repository];
    LookupTopEntry(tree, "tags", [repository], MAX_LINKS);
    assert p == ["tags"] + [repository];
    assert [repository][1..] == [];
    if p in tree && tree[p].Link? {
      TempLinkDangles(tree, tree[p].target[4], [], MAX_LINKS - 1);
    }
  }

  lemma WalkPastRepository(tree: Tree, repository: Text, rest: Path)
    requires Shape(tree) && IsComponent(repository)
    ensures Lookup(tree, ["tags", repository] + rest)
            == if DirAt(tree, ["tags", repository]) then Walk(tree, ["tags", repository], rest, MAX_LINKS) else None
  {
    var p := ["tags", repository];
    LookupTopEntry(tree, "tags", [repository] + rest, MAX_LINKS);
    assert p + rest == ["tags"] + ([repository] + rest);
    assert ["tags"] + [repository] == p;
    assert ([repository] + rest)[1..] == rest;
    if p in tree && tree[p].Link? {
      TempLinkDangles(tree, tree[p].target[4], rest, MAX_LINKS - 1);
    }
  }

  lemma LookupTagParent(tree: Tree, location: ImageLocation)
    requires Shape(tree) && ValidLocation(location)
    ensures Lookup(tree, TagParent(location))
            == if TagParent(location) in tree then Some(TagParent(location)) else None
    ensures TagParent(location) in tree ==> DirAt(tree, RepositoryDir(location)) && DirAt(tree, TagParent(location))
  {
    var p := TagParent(location);
    assert p == RepositoryDir(location) + [location.image];
    assert Parent(p) == RepositoryDir(location);
    WalkPastRepository(tree, location.repository, [location.image]);
    assert [location.image][1..] == [];
  }

  /** From the directory of an installed tag, its link leads exactly to the manifest. */
  lemma LinkLands(tree: Tree, location: ImageLocation, name: Text, links: nat)
    requires Shape(tree) && TagParent(location) in tree && IsComponent(name)
    ensures Walk(tree, TagParent(location), LinkTo(name), links)
            == if ManifestEntry(name) in tree then Some(ManifestEntry(name)) else None
  {
    var p := TagParent(location);
    assert Parent(p) == RepositoryDir(location);
    forall j | 0 <= j <= 3
      ensures DirAt(tree, p[..j])
    {
      assert p[..0] == [] && p[..1] == ["tags"] && p[..2] == RepositoryDir(location) && p[..3] == p;
    }
    assert Ups(3) == ["..", "..", ".."];
    assert LinkTo(name) == Ups(3) + ManifestEntry(name);
    WalkUp(tree, p, 3, ManifestEntry(name), links);
    assert p[..0] == [];
    LookupTopEntry(tree, "manifests", [name], links);
    assert ["manifests"] + [name] == ManifestEntry(name);
    assert [name][1..] == [];
  }

  lemma LookupTag(tree: Tree, location: ImageLocation, tag: Text)
    requires Shape(tree) && LinksResolve(tree) && ValidLocation(location) && IsComponent(tag)
    ensures var p := TagPath(location, tag);
            Lookup(tree, p)
            == if p in tree then Some(ManifestEntry(tree[p].target[4])) else None
  {
    var p := TagPath(location, tag);
    var dir := TagParent(location);
    assert p == dir + [tag] && Parent(p) == dir && Parent(dir) == RepositoryDir(location);
    WalkPastRepository(tree, location.repository, [location.image, tag]);
    assert p == ["tags", location.repository] + [location.image, tag];
    assert dir == RepositoryDir(location) + [location.image];
    assert [location.image, tag][1..] == [tag];
    assert [tag][1..] == [];
    if p in tree {
      var name := tree[p].target[4];
      LinkLands(tree, location, name, MAX_LINKS - 1);
      assert LinkTo(name) + [] == LinkTo(name);
    }
  }

  /** A link of that text reaches the manifest exactly from directories two levels below `tags`. */
  lemma LinkLandsExactly(tree: Tree, below: Path, name: Text, links: nat)
    requires forall j | 0 <= j <= |below| + 1 :: DirAt(tree, (["tags"] + below)[..j])
    requires DirAt(tree, ["manifests"]) && ManifestEntry(name) in tree && IsComponent(name)
    requires forall p | p in tree :: !tree[p].Link?
    ensures Walk(tree, ["tags"] + below, LinkTo(name), links) == Some(ManifestEntry(name)) <==> |below| == 2
  {
    var cur := ["tags"] + below;
    assert Ups(3) == ["..", "..", ".."];
    assert LinkTo(name) == Ups(3) + ManifestEntry(name);
    assert cur[..0] == [];
    WalkUp(tree, cur, 3, ManifestEntry(name), links);
    if |below| >= 2 {
      var base := cur[..|below| - 2];
      assert ManifestEntry(name)[1..] == [name] && [name][1..] == [];
      assert base + ["manifests"] + [name] == base + ManifestEntry(name);
      var inner := base + ["manifests"];
      assert Walk(tree, base, ManifestEntry(name), links) == if inner in tree then Walk(tree, inner, [name], links) else None;
      if |below| == 2 {
        assert inner == ["manifests"];
        assert inner + [name] == ManifestEntry(name);
        assert Walk(tree, inner, [name], links) == Walk(tree, inner + [name], [], links);
      } else if inner in tree && DirAt(tree, inner) && inner + [name] in tree {
        assert |inner + [name]| > 2;
        assert Walk(tree, inner, [name], links) == Walk(tree, inner + [name], [], links);
      }
    }
  }

  /** Distinct locations or tags have distinct tag paths, none of them a temporary one. */
  lemma TagPathInjective(l1: ImageLocation, t1: Text, l2: ImageLocation, t2: Text)
    ensures TagPath(l1, t1) == TagPath(l2, t2) <==> l1 == l2 && t1 == t2
  {
    var p, q := TagPath(l1, t1), TagPath(l2, t2);
    if p == q {
      assert p[1] == q[1] && p[2] == q[2] && p[3] == q[3];
    }
  }

  lemma HexIsComponent(d: Digest)
    ensures IsComponent(Hex(d))
  {
    FromHexOfHex(d);
    FromHexDefined(Hex(d));
  }
}
