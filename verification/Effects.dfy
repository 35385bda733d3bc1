/**
 What each system call of the store does to a well-formed disk, in closed form.
 Every effect keeps the disk well-formed.
 */
module Effects {
  import opened Prelude
  import opened Digests
  import opened Disk
  import opened Layout

  function Truncated(disk: Disk, p: Path): Disk {
    if p in disk.tree && disk.tree[p].File? then disk.(data := disk.data[disk.tree[p].ino := []])
    else Disk(disk.tree[p := File(disk.next)], disk.data[disk.next := []], disk.next + 1)
  }

  lemma CreatedKeepsShape(disk: Disk, p: Path)
    requires WellFormed(disk) && p !in disk.tree && p != [] && DirAt(disk.tree, Parent(p))
    requires Fits(p, File(disk.next))
    ensures WellFormed(Disk(disk.tree[p := File(disk.next)], disk.data[disk.next := []], disk.next + 1))
  {
  }

  /** Adding a directory or a link to a stored manifest. */
  lemma AddedKeepsShape(disk: Disk, p: Path, node: Node)
    requires WellFormed(disk) && p != [] && DirAt(disk.tree, Parent(p))
    requires p !in disk.tree || disk.tree[p] == node
    requires Fits(p, node) && !node.File?
    requires node.Link? ==> ManifestEntry(node.target[4]) in disk.tree
    ensures WellFormed(disk.(tree := disk.tree[p := node]))
  {
    if p in disk.tree {
      assert disk.tree[p := node] == disk.tree;
    } else {
      AddedLinksResolve(disk.tree, p, node);
    }
  }

  lemma AddedLinksResolve(tree: Tree, p: Path, node: Node)
    requires LinksResolve(tree) && p !in tree
    requires node.Link? ==> |node.target| == 5 && ManifestEntry(node.target[4]) in tree
    ensures LinksResolve(tree[p := node])
  {
  }

  lemma OpenTruncateEffect(disk: Disk, top: Text, name: Text)
    requires WellFormed(disk) && top in TOP && top != "tags" && IsComponent(name)
    ensures var p := [top, name];
            var disk' := Truncated(disk, p);
            && p in disk'.tree && disk'.tree[p].File? && disk'.data[disk'.tree[p].ino] == []
            && OpenTruncate(disk, p) == Some((disk', disk'.tree[p].ino))
            && WellFormed(disk')
  {
    var p := [top, name];
    LookupFile(disk.tree, top, name);
    assert Parent(p) == [top] && Name(p) == name;
    LookupTop(disk.tree, top);
    assert [top] + [name] == p;
    if p !in disk.tree {
      CreatedKeepsShape(disk, p);
    }
  }

  lemma WriteKeepsShape(disk: Disk, ino: Ino, off: nat, chunk: Bytes)
    requires WellFormed(disk) && ino in disk.data
    ensures WellFormed(WriteAt(disk, ino, off, chunk)) && WellFormed(Append(disk, ino, chunk))
  {
  }

  lemma OpenExistingEffect(disk: Disk, top: Text, name: Text)
    requires WellFormed(disk) && top in TOP && top != "tags" && IsComponent(name)
    ensures var p := [top, name];
            && Exists(disk.tree, p) == (p in disk.tree)
            && (p in disk.tree ==> disk.tree[p].File?)
            && OpenExisting(disk, p) == if p in disk.tree then Some(disk.tree[p].ino) else None
  {
    LookupFile(disk.tree, top, name);
  }

  lemma EnsureRepositoryEffect(disk: Disk, location: ImageLocation)
    requires WellFormed(disk) && ValidLocation(location)
    ensures var p := RepositoryDir(location);
            var disk' := disk.(tree := disk.tree[p := Dir]);
            if p in disk.tree && disk.tree[p].Link? then EnsureDir(disk, p) == None
            else EnsureDir(disk, p) == Some(disk') && WellFormed(disk')
  {
    var p := RepositoryDir(location);
    assert Parent(p) == ["tags"] && Name(p) == location.repository;
    LookupTop(disk.tree, "tags");
    LookupRepositoryDir(disk.tree, location.repository);
    assert ["tags"] + [location.repository] == p;
    if p !in disk.tree || disk.tree[p].Dir? {
      AddedKeepsShape(disk, p, Dir);
    }
    if DirAt(disk.tree, p) {
      assert disk.tree[p := Dir] == disk.tree;
    }
  }

  lemma EnsureImageEffect(disk: Disk, location: ImageLocation)
    requires WellFormed(disk) && ValidLocation(location) && DirAt(disk.tree, RepositoryDir(location))
    ensures var p := TagParent(location);
            var disk' := disk.(tree := disk.tree[p := Dir]);
            EnsureDir(disk, p) == Some(disk') && WellFormed(disk')
  {
    var p := TagParent(location);
    assert Parent(p) == RepositoryDir(location) && Name(p) == location.image;
    LookupRepositoryDir(disk.tree, location.repository);
    LookupTagParent(disk.tree, location);
    assert RepositoryDir(location) + [location.image] == p;
    assert Fits(p, Dir) && (p in disk.tree ==> disk.tree[p].Dir?);
    AddedKeepsShape(disk, p, Dir);
    if DirAt(disk.tree, p) {
      assert disk.tree[p := Dir] == disk.tree;
    }
  }

  lemma SymlinkEffect(disk: Disk, name: Text, unique: Text)
    requires WellFormed(disk) && IsComponent(unique) && IsComponent(name) && ManifestEntry(name) in disk.tree
    ensures var p := TempTagPath(unique);
            var disk' := disk.(tree := disk.tree[p := Link(LinkTo(name))]);
            if p in disk.tree then Symlink(disk, LinkTo(name), p) == None
            else Symlink(disk, LinkTo(name), p) == Some(disk') && WellFormed(disk')
  {
    var p := TempTagPath(unique);
    assert Parent(p) == ["tags"] && Name(p) == unique;
    LookupTop(disk.tree, "tags");
    assert ["tags"] + [unique] == p;
    if p !in disk.tree {
      AddedKeepsShape(disk, p, Link(LinkTo(name)));
    }
  }

  function Moved(disk: Disk, src: Path, dst: Path): Disk
    requires src in disk.tree
  {
    disk.(tree := (disk.tree - {src})[dst := disk.tree[src]])
  }

  lemma InstallTagEffect(disk: Disk, unique: Text, location: ImageLocation, tag: Text)
    requires WellFormed(disk) && IsComponent(unique) && ValidLocation(location) && IsComponent(tag)
    requires TempTagPath(unique) in disk.tree && disk.tree[TempTagPath(unique)].Link?
    requires TagParent(location) in disk.tree
    ensures var src, dst := TempTagPath(unique), TagPath(location, tag);
            Rename(disk, src, dst) == Some(Moved(disk, src, dst)) && WellFormed(Moved(disk, src, dst))
  {
    var src, dst := TempTagPath(unique), TagPath(location, tag);
    assert Parent(src) == ["tags"] && Name(src) == unique;
    LookupTop(disk.tree, "tags");
    assert ["tags"] + [unique] == src;
    assert Parent(dst) == TagParent(location) && Name(dst) == tag;
    LookupTagParent(disk.tree, location);
    assert TagParent(location) + [tag] == dst;
    assert !DirAt(disk.tree, dst);
    MovedKeepsShape(disk, src, dst);
  }

  lemma MovedKeepsParents(disk: Disk, src: Path, dst: Path)
    requires WellFormed(disk) && src in disk.tree && dst != [] && !disk.tree[src].Dir?
    requires !DirAt(disk.tree, dst) && DirAt(disk.tree, Parent(dst)) && Fits(dst, disk.tree[src])
    ensures Shape(Moved(disk, src, dst).tree)
  {
    hide LinksResolve, Inodes, Fits;
    var disk' := Moved(disk, src, dst);
    forall p | p in disk'.tree
      ensures Fits(p, disk'.tree[p])
    {
      assert p != dst ==> Fits(p, disk.tree[p]);
    }
    forall p | p in disk'.tree && p != []
      ensures DirAt(disk'.tree, Parent(p))
    {
      if p != dst {
        assert p in disk.tree && DirAt(disk.tree, Parent(p));
      }
    }
    forall name | name in TOP
      ensures [name] in disk'.tree
    {
      TopIsDir(disk.tree, name);
    }
    TopIsDir(disk.tree, "tags");
    assert Parent(["tags"]) == [];
  }

  lemma TopIsDir(tree: Tree, name: Text)
    requires Shape(tree) && name in TOP
    ensures DirAt(tree, [name])
  {
    assert Fits([name], tree[[name]]);
  }

  lemma MovedKeepsLinks(disk: Disk, src: Path, dst: Path)
    requires WellFormed(disk) && src in disk.tree && dst != [] && !disk.tree[src].Dir?
    requires !DirAt(disk.tree, dst) && DirAt(disk.tree, Parent(dst)) && Fits(dst, disk.tree[src])
    requires ManifestEntry(Name(src)) != src
    ensures LinksResolve(Moved(disk, src, dst).tree)
  {
    hide Shape, Inodes;
    var disk' := Moved(disk, src, dst);
    forall p | p in disk'.tree && disk'.tree[p].Link? && |disk'.tree[p].target| == 5
      ensures ManifestEntry(disk'.tree[p].target[4]) in disk'.tree
    {
      var before := if p == dst then src else p;
      var entry := ManifestEntry(disk.tree[before].target[4]);
      assert entry in disk.tree;
      assert Name(entry) == disk.tree[before].target[4];
    }
  }

  lemma MovedKeepsInodes(disk: Disk, src: Path, dst: Path)
    requires Inodes(disk) && src in disk.tree
    ensures Inodes(Moved(disk, src, dst))
  {
  }

  lemma MovedKeepsShape(disk: Disk, src: Path, dst: Path)
    requires WellFormed(disk) && src in disk.tree && dst != [] && !disk.tree[src].Dir?
    requires !DirAt(disk.tree, dst) && DirAt(disk.tree, Parent(dst)) && Fits(dst, disk.tree[src])
    requires ManifestEntry(Name(src)) != src
    ensures WellFormed(Moved(disk, src, dst))
  {
    assert src != [] by {
      assert Fits(src, disk.tree[src]);
    }
    hide Shape, LinksResolve, Inodes, Moved;
    MovedKeepsParents(disk, src, dst);
    MovedKeepsLinks(disk, src, dst);
    MovedKeepsInodes(disk, src, dst);
  }

  lemma FinishUploadEffect(disk: Disk, upload: Text, d: Digest)
    requires WellFormed(disk) && IsComponent(upload)
    ensures var src, dst := UploadPath(upload), BlobPath(d);
            if src in disk.tree then
              Rename(disk, src, dst) == Some(Moved(disk, src, dst)) && WellFormed(Moved(disk, src, dst))
            else Rename(disk, src, dst) == None
  {
    var src, dst := UploadPath(upload), BlobPath(d);
    HexIsComponent(d);
    assert Parent(src) == ["uploads"] && Name(src) == upload + ".partial";
    LookupTop(disk.tree, "uploads");
    assert ["uploads"] + [Name(src)] == src;
    assert Parent(dst) == ["blobs"] && Name(dst) == Hex(d);
    LookupTop(disk.tree, "blobs");
    assert ["blobs"] + [Hex(d)] == dst;
    if src in disk.tree {
      assert !DirAt(disk.tree, dst);
      assert ManifestEntry(Name(src))[0] != src[0];
      MovedKeepsShape(disk, src, dst);
    }
  }

  lemma UploadNameIsComponent(upload: Text)
    requires IsComponent(upload)
    ensures IsComponent(upload + ".partial")
  {
  }

  lemma UploadPathInjective(u: Text, v: Text)
    ensures UploadPath(u) == UploadPath(v) <==> u == v
  {
    if UploadPath(u) == UploadPath(v) {
      assert UploadPath(u)[1] == UploadPath(v)[1];
      assert (u + ".partial")[..|u|] == u && (v + ".partial")[..|v|] == v;
    }
  }

  /** A tag read goes through its link to the manifest bytes. */
  lemma ReadTagEffect(disk: Disk, location: ImageLocation, tag: Text)
    requires WellFormed(disk) && ValidLocation(location) && IsComponent(tag)
    ensures var p := TagPath(location, tag);
            OpenExisting(disk, p)
            == if p in disk.tree then Some(disk.tree[ManifestEntry(disk.tree[p].target[4])].ino) else None
  {
    LookupTag(disk.tree, location, tag);
  }
}
