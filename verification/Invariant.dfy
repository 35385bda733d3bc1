/**
 What every interleaving keeps: the shape of the store, what each client holds
 open, and that an upload's file is exactly what was appended to it.
 */
module Invariant {
  import opened Prelude
  import opened Digests
  import opened Disk
  import opened Layout
  import opened Effects
  import opened Machine

  /** Files of uploads are theirs alone, and hold what was sent. */
  ghost predicate UploadsHold(w: World) {
    && (forall u | u in w.uploads ::
          && w.uploads[u].ino in w.disk.data
          && w.disk.data[w.uploads[u].ino] == w.uploads[u].sent)
    && (forall u, v | u in w.uploads && v in w.uploads && w.uploads[u].ino == w.uploads[v].ino :: u == v)
    && (forall u | u in w.uploads ::
          forall p | p in w.disk.tree && w.disk.tree[p] == File(w.uploads[u].ino) :: p != [] && p[0] != "manifests")
    && (forall u | UploadPath(u) in w.disk.tree ::
          u in w.uploads && w.disk.tree[UploadPath(u)] == File(w.uploads[u].ino))
  }

  /** Every blob is the file of the upload it came from. */
  ghost predicate BlobsHaveOrigin(w: World) {
    forall h | ["blobs", h] in w.disk.tree ::
      && h in w.origin
      && w.origin[h] in w.uploads
      && w.disk.tree[["blobs", h]] == File(w.uploads[w.origin[h]].ino)
  }

  /** What a client relies on at its program point. */
  ghost predicate Holds(env: Env, disk: Disk, uploads: map<Text, Upload>, pc: Proc) {
    match pc
    case PutStart(target, _) => ValidReference(target)
    case PutWriting(target, body, ino, off) =>
      && ValidReference(target)
      && off <= |body|
      && ManifestEntry(NameOf(env, body)) in disk.tree
      && disk.tree[ManifestEntry(NameOf(env, body))] == File(ino)
    case PutWritten(target, body) => ValidReference(target) && ManifestEntry(NameOf(env, body)) in disk.tree
    case PutRepository(target, body) =>
      ValidReference(target) && target.reference.Tag? && ManifestEntry(NameOf(env, body)) in disk.tree
    case PutImage(target, body) =>
      && ValidReference(target) && target.reference.Tag? && ManifestEntry(NameOf(env, body)) in disk.tree
      && DirAt(disk.tree, RepositoryDir(target.location))
    case PutLinking(target, body) =>
      && ValidReference(target) && target.reference.Tag? && ManifestEntry(NameOf(env, body)) in disk.tree
      && DirAt(disk.tree, TagParent(target.location))
    case PutRenaming(target, body, tmp) =>
      && ValidReference(target) && target.reference.Tag? && ManifestEntry(NameOf(env, body)) in disk.tree
      && DirAt(disk.tree, TagParent(target.location))
      && IsComponent(tmp)
    case GetStart(target) => ValidReference(target)
    case GetReading(_, name, ino, _, _) =>
      ManifestEntry(name) in disk.tree && disk.tree[ManifestEntry(name)] == File(ino)
    case Beginning => true
    case ChunkCheck(upload, _) => IsComponent(upload)
    case ChunkOpen(upload, _) => IsComponent(upload)
    case ChunkWriting(upload, ino, _, _) => upload in uploads && uploads[upload].ino == ino
    case FinalizeCheck(upload, _) => IsComponent(upload)
    case FinalizeOpen(upload, _) => IsComponent(upload)
    case FinalizeHashing(upload, _, ino, seen) =>
      && IsComponent(upload) && upload in uploads && uploads[upload].ino == ino
      && seen <= uploads[upload].sent
    case FinalizeRenaming(upload, _) => IsComponent(upload) && upload in uploads
    case Done(_) => true
  }

  /** Temporary links belong to one client each and point at its manifest. */
  ghost predicate TempLinks(env: Env, w: World) {
    && (forall c | c in w.procs && w.procs[c].PutRenaming? ::
          && TempTagPath(w.procs[c].tmp) in w.disk.tree
          && w.disk.tree[TempTagPath(w.procs[c].tmp)] == Link(LinkTo(NameOf(env, w.procs[c].body))))
    && (forall c, e | c in w.procs && e in w.procs && w.procs[c].PutRenaming? && w.procs[e].PutRenaming?
                      && w.procs[c].tmp == w.procs[e].tmp :: c == e)
  }

  ghost predicate ClientsHold(env: Env, w: World) {
    forall c | c in w.procs :: Holds(env, w.disk, w.uploads, w.procs[c])
  }

  ghost predicate Base(env: Env, w: World) {
    && WellFormed(w.disk)
    && UploadsHold(w)
    && BlobsHaveOrigin(w)
    && ClientsHold(env, w)
    && TempLinks(env, w)
  }

  // ---------- Framing ----------

  /** Directories and manifests stay, and uploads only grow. */
  ghost predicate Grows(w: World, w': World) {
    && (forall p | DirAt(w.disk.tree, p) :: DirAt(w'.disk.tree, p))
    && (forall n | ManifestEntry(n) in w.disk.tree ::
          ManifestEntry(n) in w'.disk.tree && w'.disk.tree[ManifestEntry(n)] == w.disk.tree[ManifestEntry(n)])
    && (forall u | u in w.uploads ::
          u in w'.uploads && w'.uploads[u].ino == w.uploads[u].ino && w.uploads[u].sent <= w'.uploads[u].sent)
  }

  lemma HoldsFramed(env: Env, w: World, w': World, pc: Proc)
    requires Grows(w, w') && Holds(env, w.disk, w.uploads, pc)
    ensures Holds(env, w'.disk, w'.uploads, pc)
  {
  }

  lemma ClientHolds(env: Env, w: World, c: Client)
    requires ClientsHold(env, w) && c in w.procs
    ensures Holds(env, w.disk, w.uploads, w.procs[c])
  {
  }

  lemma ClientsFramed(env: Env, w: World, w': World, c: Client)
    requires Grows(w, w') && ClientsHold(env, w)
    requires c in w'.procs && w'.procs == w.procs[c := w'.procs[c]]
    requires Holds(env, w'.disk, w'.uploads, w'.procs[c])
    ensures ClientsHold(env, w')
  {
    hide Holds;
    forall e | e in w'.procs
      ensures Holds(env, w'.disk, w'.uploads, w'.procs[e])
    {
      if e != c {
        assert e in w.procs && w'.procs[e] == w.procs[e];
        HoldsFramed(env, w, w', w.procs[e]);
      }
    }
  }

  /** Entries outside `tags` are untouched. */
  ghost predicate OnlyTagsChange(tree: Tree, tree': Tree) {
    && (forall p | p in tree' :: (p in tree && tree'[p] == tree[p]) || (p != [] && p[0] == "tags" && !tree'[p].File?))
    && (forall p | p in tree && (p == [] || p[0] != "tags") :: p in tree' && tree'[p] == tree[p])
  }

  lemma UploadsFramed(w: World, w': World)
    requires UploadsHold(w) && BlobsHaveOrigin(w)
    requires OnlyTagsChange(w.disk.tree, w'.disk.tree)
    requires w'.disk.data == w.disk.data && w'.uploads == w.uploads && w'.origin == w.origin
    ensures UploadsHold(w') && BlobsHaveOrigin(w')
  {
    forall u
      ensures UploadPath(u)[0] == "uploads" && ["blobs", u][0] == "blobs"
    {
    }
  }

  /** No temporary link goes away, and the moving client is not left holding one. */
  lemma TempFramed(env: Env, w: World, w': World, c: Client)
    requires TempLinks(env, w)
    requires c in w'.procs && w'.procs == w.procs[c := w'.procs[c]] && !w'.procs[c].PutRenaming?
    requires forall e | e in w.procs && e != c && w.procs[e].PutRenaming? ::
               var p := TempTagPath(w.procs[e].tmp);
               p in w.disk.tree ==> p in w'.disk.tree && w'.disk.tree[p] == w.disk.tree[p]
    ensures TempLinks(env, w')
  {
  }

  /** A step that changes nothing but where its own client stands. */
  lemma MovesOnly(env: Env, w: World, c: Client, pc: Proc)
    requires Base(env, w) && Holds(env, w.disk, w.uploads, pc) && !pc.PutRenaming?
    ensures Base(env, w.At(c, pc)) && Grows(w, w.At(c, pc))
  {
    hide WellFormed, Holds, UploadsHold, BlobsHaveOrigin;
    ClientsFramed(env, w, w.At(c, pc), c);
    UploadsFramed(w, w.At(c, pc));
    TempFramed(env, w, w.At(c, pc), c);
  }

  /** A step that changes entries below `tags` only. */
  lemma TagsStep(env: Env, w: World, w': World, c: Client)
    requires Base(env, w) && WellFormed(w'.disk) && TempLinks(env, w')
    requires OnlyTagsChange(w.disk.tree, w'.disk.tree)
    requires forall p | DirAt(w.disk.tree, p) :: DirAt(w'.disk.tree, p)
    requires w'.disk.data == w.disk.data && w'.uploads == w.uploads && w'.origin == w.origin
    requires c in w'.procs && w'.procs == w.procs[c := w'.procs[c]]
    requires Holds(env, w'.disk, w'.uploads, w'.procs[c])
    ensures Base(env, w') && Grows(w, w')
  {
    hide WellFormed, Holds, UploadsHold, BlobsHaveOrigin, ClientsHold, TempLinks;
    UploadsFramed(w, w');
    TagsStepGrows(w, w');
    ClientsFramed(env, w, w', c);
  }

  lemma TagsStepGrows(w: World, w': World)
    requires OnlyTagsChange(w.disk.tree, w'.disk.tree) && w'.uploads == w.uploads
    requires forall p | DirAt(w.disk.tree, p) :: DirAt(w'.disk.tree, p)
    ensures Grows(w, w')
  {
    forall n
      ensures ManifestEntry(n) != [] && ManifestEntry(n)[0] == "manifests"
    {
    }
  }

  // ---------- Steps ----------

  lemma PutStartKeeps(env: Env, w: World, c: Client)
    requires Base(env, w) && c in w.procs && w.procs[c].PutStart?
    ensures Base(env, StepPutStart(env, w, c, w.procs[c])) && Grows(w, StepPutStart(env, w, c, w.procs[c]))
  {
    hide WellFormed, UploadsHold, BlobsHaveOrigin, ClientsHold, TempLinks;
    var pc := w.procs[c];
    ClientHolds(env, w, c);
    var w' := StepPutStart(env, w, c, pc);
    if !env.parses(pc.body) {
      MovesOnly(env, w, c, Done(Failed(InvalidManifest)));
    } else {
      var p := ManifestEntry(NameOf(env, pc.body));
      HexIsComponent(env.sha(pc.body));
      OpenTruncateEffect(w.disk, "manifests", NameOf(env, pc.body));
      assert w'.disk == Truncated(w.disk, p);
      TruncateKeepsUploads(w, w', p);
      ClientsFramed(env, w, w', c);
      TempFramed(env, w, w', c);
    }
  }

  /** The inode emptied or created at a manifest path is no upload's. */
  lemma TruncationMissesUploads(w: World, p: Path)
    requires WellFormed(w.disk) && UploadsHold(w)
    requires |p| == 2 && p[0] == "manifests"
    ensures forall u | u in w.uploads ::
              w.uploads[u].ino != if p in w.disk.tree && w.disk.tree[p].File? then w.disk.tree[p].ino else w.disk.next
  {
    hide Shape, LinksResolve;
  }

  lemma TruncateKeepsEntries(w: World, w': World, p: Path)
    requires w'.disk == Truncated(w.disk, p) && w'.uploads == w.uploads
    requires p in w.disk.tree ==> w.disk.tree[p].File?
    ensures Grows(w, w')
  {
  }

  lemma TruncateKeepsFiles(w: World, w': World, p: Path)
    requires UploadsHold(w) && BlobsHaveOrigin(w)
    requires |p| == 2 && p[0] == "manifests" && w'.disk == Truncated(w.disk, p)
    requires w'.uploads == w.uploads && w'.origin == w.origin
    requires forall u | u in w.uploads ::
               w.uploads[u].ino != if p in w.disk.tree && w.disk.tree[p].File? then w.disk.tree[p].ino else w.disk.next
    ensures UploadsHold(w') && BlobsHaveOrigin(w')
  {
    forall u
      ensures UploadPath(u) != p && ["blobs", u] != p
    {
      assert UploadPath(u)[0] == "uploads" && ["blobs", u][0] == "blobs";
    }
  }

  lemma TruncateKeepsUploads(w: World, w': World, p: Path)
    requires WellFormed(w.disk) && UploadsHold(w) && BlobsHaveOrigin(w)
    requires |p| == 2 && p[0] == "manifests" && w'.disk == Truncated(w.disk, p)
    requires w'.uploads == w.uploads && w'.origin == w.origin
    ensures UploadsHold(w') && BlobsHaveOrigin(w') && Grows(w, w')
  {
    hide UploadsHold, BlobsHaveOrigin, Grows, Truncated, LinksResolve, Inodes;
    TruncationMissesUploads(w, p);
    assert p in w.disk.tree ==> Fits(p, w.disk.tree[p]);
    TruncateKeepsEntries(w, w', p);
    TruncateKeepsFiles(w, w', p);
  }

  lemma PutWritingKeeps(env: Env, w: World, c: Client, count: nat)
    requires Base(env, w) && c in w.procs && w.procs[c].PutWriting?
    requires StepPutWriting(w, c, w.procs[c], count).Some?
    ensures var w' := StepPutWriting(w, c, w.procs[c], count).value; Base(env, w') && Grows(w, w')
  {
    hide WellFormed, UploadsHold, BlobsHaveOrigin, ClientsHold, TempLinks;
    var pc := w.procs[c];
    ClientHolds(env, w, c);
    if count == 0 {
      MovesOnly(env, w, c, PutWritten(pc.target, pc.body));
    } else {
      var w' := StepPutWriting(w, c, pc, count).value;
      ManifestWriteKeeps(w, w', NameOf(env, pc.body), pc.off, pc.body[pc.off..pc.off + count]);
      ClientsFramed(env, w, w', c);
      TempFramed(env, w, w', c);
    }
  }

  lemma ManifestWriteKeeps(w: World, w': World, name: Text, off: nat, chunk: Bytes)
    requires WellFormed(w.disk) && UploadsHold(w) && BlobsHaveOrigin(w)
    requires ManifestEntry(name) in w.disk.tree && w.disk.tree[ManifestEntry(name)].File?
    requires w'.disk == WriteAt(w.disk, w.disk.tree[ManifestEntry(name)].ino, off, chunk)
    requires w'.uploads == w.uploads && w'.origin == w.origin
    ensures WellFormed(w'.disk) && UploadsHold(w') && BlobsHaveOrigin(w') && Grows(w, w')
  {
    hide WellFormed;
    var entry := ManifestEntry(name);
    assert entry[0] == "manifests";
    assert w.disk.tree[entry].ino in w.disk.data by {
      ManifestHasData(w.disk, name);
    }
    WriteKeepsShape(w.disk, w.disk.tree[entry].ino, off, chunk);
    assert forall u | u in w.uploads :: w.uploads[u].ino != w.disk.tree[entry].ino;
  }

  lemma ManifestHasData(disk: Disk, name: Text)
    requires WellFormed(disk) && ManifestEntry(name) in disk.tree
    ensures disk.tree[ManifestEntry(name)].File? && disk.tree[ManifestEntry(name)].ino in disk.data
  {
    assert Fits(ManifestEntry(name), disk.tree[ManifestEntry(name)]);
  }

  lemma PutWrittenKeeps(env: Env, w: World, c: Client)
    requires Base(env, w) && c in w.procs && w.procs[c].PutWritten?
    ensures Base(env, StepPutWritten(w, c, w.procs[c])) && Grows(w, StepPutWritten(w, c, w.procs[c]))
  {
    hide UploadsHold, BlobsHaveOrigin, ClientsHold, TempLinks, Inodes, LinksResolve, Grows, Shape;
    var pc := w.procs[c];
    ClientHolds(env, w, c);
    LookupTagParent(w.disk.tree, pc.target.location);
    var w' := StepPutWritten(w, c, pc);
    assert w' == w.At(c, w'.procs[c]);
    MovesOnly(env, w, c, w'.procs[c]);
  }

  lemma RepositoryEntry(disk: Disk, location: ImageLocation)
    requires WellFormed(disk) && RepositoryDir(location) in disk.tree
    ensures disk.tree[RepositoryDir(location)].Dir? || disk.tree[RepositoryDir(location)].Link?
  {
    assert Fits(RepositoryDir(location), disk.tree[RepositoryDir(location)]);
  }

  lemma EntryBelowTags(tree: Tree, p: Path)
    requires p in tree ==> tree[p] == Dir
    requires p != [] && p[0] == "tags"
    ensures OnlyTagsChange(tree, tree[p := Dir])
    ensures forall q | DirAt(tree, q) :: DirAt(tree[p := Dir], q)
  {
  }

  lemma PutRepositoryKeeps(env: Env, w: World, c: Client)
    requires Base(env, w) && c in w.procs && w.procs[c].PutRepository?
    ensures Base(env, StepPutRepository(w, c, w.procs[c])) && Grows(w, StepPutRepository(w, c, w.procs[c]))
  {
    hide WellFormed, UploadsHold, BlobsHaveOrigin, ClientsHold, TempLinks, Grows, EnsureDir;
    var pc := w.procs[c];
    ClientHolds(env, w, c);
    EnsureRepositoryEffect(w.disk, pc.target.location);
    var w' := StepPutRepository(w, c, pc);
    var p := RepositoryDir(pc.target.location);
    if p in w.disk.tree && w.disk.tree[p].Link? {
      MovesOnly(env, w, c, Done(Failed(Io)));
    } else {
      if p in w.disk.tree {
        RepositoryEntry(w.disk, pc.target.location);
      }
      EntryBelowTags(w.disk.tree, p);
      TempFramedByAdding(env, w, w', c, p, Dir);
      TagsStep(env, w, w', c);
    }
  }

  lemma TempFramedByAdding(env: Env, w: World, w': World, c: Client, p: Path, node: Node)
    requires TempLinks(env, w) && w'.disk.tree == w.disk.tree[p := node]
    requires c in w'.procs && w'.procs == w.procs[c := w'.procs[c]] && !w'.procs[c].PutRenaming?
    requires p in w.disk.tree ==> w.disk.tree[p] == node
    ensures TempLinks(env, w')
  {
    TempFramed(env, w, w', c);
  }

  lemma PutImageKeeps(env: Env, w: World, c: Client)
    requires Base(env, w) && c in w.procs && w.procs[c].PutImage?
    ensures Base(env, StepPutImage(w, c, w.procs[c])) && Grows(w, StepPutImage(w, c, w.procs[c]))
  {
    hide UploadsHold, BlobsHaveOrigin, ClientsHold, TempLinks, Grows, Inodes, LinksResolve, Shape;
    var pc := w.procs[c];
    ClientHolds(env, w, c);
    EnsureImageEffect(w.disk, pc.target.location);
    LookupTagParent(w.disk.tree, pc.target.location);
    var w' := StepPutImage(w, c, pc);
    var p := TagParent(pc.target.location);
    assert w'.disk.tree == w.disk.tree[p := Dir] && p[0] == "tags";
    TempFramedByAdding(env, w, w', c, p, Dir);
    TagsStep(env, w, w', c);
  }

  lemma PutLinkingKeeps(env: Env, w: World, c: Client, drawn: Text)
    requires Base(env, w) && c in w.procs && w.procs[c].PutLinking?
    requires StepPutLinking(env, w, c, w.procs[c], drawn).Some?
    ensures var w' := StepPutLinking(env, w, c, w.procs[c], drawn).value; Base(env, w') && Grows(w, w')
  {
    hide WellFormed, UploadsHold, BlobsHaveOrigin, ClientsHold, TempLinks, Grows;
    var pc := w.procs[c];
    ClientHolds(env, w, c);
    HexIsComponent(env.sha(pc.body));
    SymlinkEffect(w.disk, NameOf(env, pc.body), drawn);
    var w' := StepPutLinking(env, w, c, pc, drawn).value;
    var p := TempTagPath(drawn);
    if p in w.disk.tree {
      MovesOnly(env, w, c, Done(Failed(Io)));
    } else {
      assert w'.disk.tree == w.disk.tree[p := Link(LinkTo(NameOf(env, pc.body)))] && p[0] == "tags";
      LinkingKeepsTemp(env, w, w', c, drawn);
      TagsStep(env, w, w', c);
    }
  }

  lemma LinkingKeepsTemp(env: Env, w: World, w': World, c: Client, drawn: Text)
    requires TempLinks(env, w) && TempTagPath(drawn) !in w.disk.tree
    requires c in w'.procs && w'.procs == w.procs[c := w'.procs[c]]
    requires w'.procs[c].PutRenaming? && w'.procs[c].tmp == drawn
    requires w'.disk.tree == w.disk.tree[TempTagPath(drawn) := Link(LinkTo(NameOf(env, w'.procs[c].body)))]
    ensures TempLinks(env, w')
  {
    assert forall t :: TempTagPath(t)[1] == t;
  }

  lemma PutRenamingKeeps(env: Env, w: World, c: Client)
    requires Base(env, w) && c in w.procs && w.procs[c].PutRenaming?
    ensures StepPutRenaming(env, w, c, w.procs[c]).Some?
    ensures var w' := StepPutRenaming(env, w, c, w.procs[c]).value; Base(env, w') && Grows(w, w')
  {
    hide WellFormed, UploadsHold, BlobsHaveOrigin, ClientsHold, Grows, OnlyTagsChange, TempLinks, Rename;
    var pc := w.procs[c];
    ClientHolds(env, w, c);
    TempLinkOf(env, w, c);
    InstallTagEffect(w.disk, pc.tmp, pc.target.location, pc.target.reference.tag);
    var w' := StepPutRenaming(env, w, c, pc).value;
    InstallingKeepsTemp(env, w, w', c, TagPath(pc.target.location, pc.target.reference.tag));
    InstallingTouchesTags(w.disk, pc.tmp, TagPath(pc.target.location, pc.target.reference.tag));
    TagsStep(env, w, w', c);
  }

  lemma TempLinkOf(env: Env, w: World, c: Client)
    requires TempLinks(env, w) && c in w.procs && w.procs[c].PutRenaming?
    ensures var p := TempTagPath(w.procs[c].tmp);
            p in w.disk.tree && w.disk.tree[p] == Link(LinkTo(NameOf(env, w.procs[c].body)))
  {
  }

  lemma InstallingKeepsTemp(env: Env, w: World, w': World, c: Client, dst: Path)
    requires TempLinks(env, w) && c in w.procs && w.procs[c].PutRenaming? && |dst| == 4
    requires TempTagPath(w.procs[c].tmp) in w.disk.tree
    requires w'.disk == Moved(w.disk, TempTagPath(w.procs[c].tmp), dst)
    requires c in w'.procs && w'.procs == w.procs[c := w'.procs[c]] && !w'.procs[c].PutRenaming?
    ensures TempLinks(env, w')
  {
    assert forall t :: TempTagPath(t)[1] == t && |TempTagPath(t)| == 2;
    TempFramed(env, w, w', c);
  }

  lemma InstallingTouchesTags(disk: Disk, tmp: Text, dst: Path)
    requires WellFormed(disk) && |dst| == 4 && dst[0] == "tags"
    requires TempTagPath(tmp) in disk.tree && disk.tree[TempTagPath(tmp)].Link?
    ensures var tree' := Moved(disk, TempTagPath(tmp), dst).tree;
            && OnlyTagsChange(disk.tree, tree')
            && forall p | DirAt(disk.tree, p) :: DirAt(tree', p)
  {
    var src := TempTagPath(tmp);
    assert src[0] == "tags";
    assert dst in disk.tree ==> Fits(dst, disk.tree[dst]);
  }

  lemma GetStartKeeps(env: Env, w: World, c: Client)
    requires Base(env, w) && c in w.procs && w.procs[c].GetStart?
    ensures Base(env, StepGetStart(w, c, w.procs[c])) && Grows(w, StepGetStart(w, c, w.procs[c]))
  {
    hide UploadsHold, BlobsHaveOrigin, ClientsHold, TempLinks, Grows, Inodes;
    var pc := w.procs[c];
    ClientHolds(env, w, c);
    OpensManifest(w.disk, pc.target);
    var w' := StepGetStart(w, c, pc);
    assert w' == w.At(c, w'.procs[c]);
    MovesOnly(env, w, c, w'.procs[c]);
  }

  /** A read by tag or by digest opens a manifest or finds nothing. */
  lemma OpensManifest(disk: Disk, target: ManifestReference)
    requires Shape(disk.tree) && LinksResolve(disk.tree) && ValidReference(target)
    ensures Lookup(disk.tree, TargetPath(target)).Some? ==>
              var q := Lookup(disk.tree, TargetPath(target)).value;
              && q != [] && q == ManifestEntry(Name(q)) && q in disk.tree && disk.tree[q].File?
  {
    match target.reference {
      case Tag(tag) => LookupTag(disk.tree, target.location, tag);
      case ByDigest(digest) =>
        HexIsComponent(digest);
        LookupFile(disk.tree, "manifests", Hex(digest));
    }
  }

  lemma GetReadingKeeps(env: Env, w: World, c: Client, count: nat)
    requires Base(env, w) && c in w.procs && w.procs[c].GetReading?
    requires StepGetReading(w, c, w.procs[c], count).Some?
    ensures var w' := StepGetReading(w, c, w.procs[c], count).value; Base(env, w') && Grows(w, w')
  {
    hide WellFormed, UploadsHold, BlobsHaveOrigin, ClientsHold, TempLinks, Grows;
    ClientHolds(env, w, c);
    var w' := StepGetReading(w, c, w.procs[c], count).value;
    assert w' == w.At(c, w'.procs[c]);
    MovesOnly(env, w, c, w'.procs[c]);
  }

  lemma BeginningKeeps(env: Env, w: World, c: Client, drawn: Text)
    requires Base(env, w) && c in w.procs && w.procs[c].Beginning?
    requires StepBeginning(w, c, drawn).Some?
    ensures var w' := StepBeginning(w, c, drawn).value; Base(env, w') && Grows(w, w')
  {
    hide WellFormed, UploadsHold, BlobsHaveOrigin, ClientsHold, TempLinks, Grows;
    UploadNameIsComponent(drawn);
    OpenTruncateEffect(w.disk, "uploads", drawn + ".partial");
    DrawnIsUnused(w, drawn);
    var w' := StepBeginning(w, c, drawn).value;
    BeginningAddsUpload(w, w', drawn);
    ClientsFramed(env, w, w', c);
    TempFramed(env, w, w', c);
  }

  lemma DrawnIsUnused(w: World, drawn: Text)
    requires UploadsHold(w) && drawn !in w.uploads
    ensures UploadPath(drawn) !in w.disk.tree
  {
  }

  lemma BeginningAddsUpload(w: World, w': World, drawn: Text)
    requires WellFormed(w.disk) && UploadsHold(w) && BlobsHaveOrigin(w)
    requires drawn !in w.uploads && w'.disk == Truncated(w.disk, UploadPath(drawn))
    requires w'.uploads == w.uploads[drawn := Upload(w.disk.next, [])] && w'.origin == w.origin
    ensures UploadsHold(w') && BlobsHaveOrigin(w') && Grows(w, w')
  {
    hide Grows, WellFormed, BlobsHaveOrigin;
    var p := UploadPath(drawn);
    assert p !in w.disk.tree;
    assert Inodes(w.disk) by {
      InodesOf(w.disk);
    }
    forall u
      ensures UploadPath(u) == p <==> u == drawn
    {
      UploadPathInjective(u, drawn);
    }
    BeginningKeepsOrigin(w, w', p);
    BeginningGrows(w, w', p);
  }

  lemma InodesOf(disk: Disk)
    requires WellFormed(disk)
    ensures Inodes(disk)
  {
  }

  lemma BeginningKeepsOrigin(w: World, w': World, p: Path)
    requires BlobsHaveOrigin(w) && p !in w.disk.tree && w'.disk == Truncated(w.disk, p)
    requires p != [] && p[0] == "uploads" && w'.origin == w.origin
    requires forall u | u in w.uploads :: u in w'.uploads && w'.uploads[u] == w.uploads[u]
    ensures BlobsHaveOrigin(w')
  {
    assert forall h :: ["blobs", h][0] == "blobs";
  }

  lemma BeginningGrows(w: World, w': World, p: Path)
    requires p !in w.disk.tree && w'.disk == Truncated(w.disk, p)
    requires forall u | u in w.uploads :: u in w'.uploads && w'.uploads[u] == w.uploads[u]
    ensures Grows(w, w')
  {
  }

  lemma UploadFile(w: World, upload: Text)
    requires UploadsHold(w) && UploadPath(upload) in w.disk.tree
    ensures upload in w.uploads && w.disk.tree[UploadPath(upload)] == File(w.uploads[upload].ino)
  {
  }

  lemma OpenUploadKeeps(env: Env, w: World, c: Client)
    requires Base(env, w) && c in w.procs && (w.procs[c].ChunkOpen? || w.procs[c].FinalizeOpen?)
    ensures var pc := w.procs[c];
            var w' := if pc.ChunkOpen? then StepChunkOpen(w, c, pc) else StepFinalizeOpen(w, c, pc);
            Base(env, w') && Grows(w, w')
  {
    hide WellFormed, BlobsHaveOrigin, ClientsHold, TempLinks, Grows, OpenExisting, UploadsHold;
    var pc := w.procs[c];
    ClientHolds(env, w, c);
    UploadNameIsComponent(pc.upload);
    OpenExistingEffect(w.disk, "uploads", pc.upload + ".partial");
    if UploadPath(pc.upload) in w.disk.tree {
      UploadFile(w, pc.upload);
    }
    var w' := if pc.ChunkOpen? then StepChunkOpen(w, c, pc) else StepFinalizeOpen(w, c, pc);
    assert w' == w.At(c, w'.procs[c]);
    MovesOnly(env, w, c, w'.procs[c]);
  }

  lemma ChunkWritingKeeps(env: Env, w: World, c: Client, count: nat)
    requires Base(env, w) && c in w.procs && w.procs[c].ChunkWriting?
    requires StepChunkWriting(w, c, w.procs[c], count).Some?
    ensures var w' := StepChunkWriting(w, c, w.procs[c], count).value; Base(env, w') && Grows(w, w')
  {
    hide WellFormed, UploadsHold, BlobsHaveOrigin, ClientsHold, TempLinks;
    var pc := w.procs[c];
    ClientHolds(env, w, c);
    var w' := StepChunkWriting(w, c, pc, count).value;
    if count == 0 {
      MovesOnly(env, w, c, Done(Accepted(pc.completed)));
    } else {
      AppendKeeps(w, w', pc.upload, pc.rest[..count]);
      ClientsFramed(env, w, w', c);
      TempFramed(env, w, w', c);
    }
  }

  lemma AppendKeeps(w: World, w': World, u: Text, chunk: Bytes)
    requires WellFormed(w.disk) && UploadsHold(w) && BlobsHaveOrigin(w) && u in w.uploads
    requires w'.disk == Append(w.disk, w.uploads[u].ino, chunk)
    requires w'.uploads == w.uploads[u := Upload(w.uploads[u].ino, w.uploads[u].sent + chunk)]
    requires w'.origin == w.origin
    ensures WellFormed(w'.disk) && UploadsHold(w') && BlobsHaveOrigin(w')
  {
    hide WellFormed;
    WriteKeepsShape(w.disk, w.uploads[u].ino, 0, chunk);
  }

  lemma FinalizeHashingKeeps(env: Env, w: World, c: Client, count: nat)
    requires Base(env, w) && c in w.procs && w.procs[c].FinalizeHashing?
    requires StepFinalizeHashing(env, w, c, w.procs[c], count).Some?
    ensures var w' := StepFinalizeHashing(env, w, c, w.procs[c], count).value; Base(env, w') && Grows(w, w')
  {
    hide WellFormed, BlobsHaveOrigin, ClientsHold, TempLinks, Grows;
    ClientHolds(env, w, c);
    var w' := StepFinalizeHashing(env, w, c, w.procs[c], count).value;
    assert w' == w.At(c, w'.procs[c]);
    MovesOnly(env, w, c, w'.procs[c]);
  }

  lemma FinalizeRenamingKeeps(env: Env, w: World, c: Client)
    requires Base(env, w) && c in w.procs && w.procs[c].FinalizeRenaming?
    ensures Base(env, StepFinalizeRenaming(w, c, w.procs[c])) && Grows(w, StepFinalizeRenaming(w, c, w.procs[c]))
  {
    hide WellFormed, UploadsHold, BlobsHaveOrigin, ClientsHold, TempLinks, Grows, Rename;
    var pc := w.procs[c];
    ClientHolds(env, w, c);
    FinishUploadEffect(w.disk, pc.upload, pc.digest);
    var w' := StepFinalizeRenaming(w, c, pc);
    if UploadPath(pc.upload) in w.disk.tree {
      var src, dst := UploadPath(pc.upload), BlobPath(pc.digest);
      FinishedUploadHolds(w, w', pc.upload, pc.digest);
      ClientsFramed(env, w, w', c);
      assert forall t :: TempTagPath(t)[0] == "tags" && src[0] == "uploads" && dst[0] == "blobs";
      TempFramed(env, w, w', c);
    } else {
      MovesOnly(env, w, c, Done(Failed(Io)));
    }
  }

  lemma FinishedUploadKeepsOrigin(w: World, w': World, u: Text, d: Digest)
    requires UploadsHold(w) && BlobsHaveOrigin(w) && UploadPath(u) in w.disk.tree
    requires w'.disk == Moved(w.disk, UploadPath(u), BlobPath(d))
    requires w'.uploads == w.uploads && w'.origin == w.origin[Hex(d) := u]
    requires forall n :: (["blobs", n] == BlobPath(d) <==> n == Hex(d)) && ["blobs", n] != UploadPath(u)
    ensures BlobsHaveOrigin(w')
  {
  }

  lemma FinishedPathsDiffer(u: Text, d: Digest, n: Text)
    ensures ["blobs", n] == BlobPath(d) <==> n == Hex(d)
    ensures ["blobs", n] != UploadPath(u) && ManifestEntry(n) != UploadPath(u)
    ensures ManifestEntry(n) != BlobPath(d) && UploadPath(n) != BlobPath(d)
    ensures UploadPath(n) == UploadPath(u) <==> n == u
  {
    UploadPathInjective(n, u);
    assert ["blobs", n][1] == n && BlobPath(d)[1] == Hex(d);
    assert ["blobs", n][0] == BlobPath(d)[0] == "blobs" && ManifestEntry(n)[0] == "manifests";
    assert UploadPath(n)[0] == UploadPath(u)[0] == "uploads";
  }

  lemma FinishedUploadKeepsFiles(w: World, w': World, u: Text, d: Digest)
    requires WellFormed(w.disk) && UploadsHold(w) && UploadPath(u) in w.disk.tree
    requires w'.disk == Moved(w.disk, UploadPath(u), BlobPath(d)) && w'.uploads == w.uploads
    ensures UploadsHold(w')
  {
    hide Shape, LinksResolve;
    forall n
      ensures UploadPath(n) != BlobPath(d)
      ensures UploadPath(n) == UploadPath(u) <==> n == u
    {
      FinishedPathsDiffer(u, d, n);
    }
  }

  lemma FinishedUploadHolds(w: World, w': World, u: Text, d: Digest)
    requires WellFormed(w.disk) && UploadsHold(w) && BlobsHaveOrigin(w) && UploadPath(u) in w.disk.tree
    requires w'.disk == Moved(w.disk, UploadPath(u), BlobPath(d))
    requires w'.uploads == w.uploads && w'.origin == w.origin[Hex(d) := u]
    ensures UploadsHold(w') && BlobsHaveOrigin(w') && Grows(w, w')
  {
    hide WellFormed, UploadsHold, BlobsHaveOrigin, Grows, UploadPath, BlobPath;
    forall n
      ensures (["blobs", n] == BlobPath(d) <==> n == Hex(d)) && ["blobs", n] != UploadPath(u)
    {
      FinishedPathsDiffer(u, d, n);
    }
    FinishedUploadKeepsFiles(w, w', u, d);
    FinishedUploadKeepsOrigin(w, w', u, d);
    FinishedUploadGrows(w, w', u, d);
  }

  lemma FinishedUploadGrows(w: World, w': World, u: Text, d: Digest)
    requires WellFormed(w.disk) && UploadPath(u) in w.disk.tree
    requires w'.disk == Moved(w.disk, UploadPath(u), BlobPath(d)) && w'.uploads == w.uploads
    ensures Grows(w, w')
  {
    var src, dst := UploadPath(u), BlobPath(d);
    assert Fits(src, w.disk.tree[src]);
    assert dst in w.disk.tree ==> Fits(dst, w.disk.tree[dst]);
    forall n
      ensures ManifestEntry(n) != src && ManifestEntry(n) != dst
    {
      assert ManifestEntry(n)[0] == "manifests" && src[0] == "uploads" && dst[0] == "blobs";
    }
  }

  /** Every step of every client keeps the invariant. */
  lemma StepKeepsBase(env: Env, w: World, c: Client, act: Action)
    requires Base(env, w) && Step(env, w, c, act).Some?
    ensures Base(env, Step(env, w, c, act).value)
    ensures Grows(w, Step(env, w, c, act).value)
  {
    hide Base, Grows;
    match act
    case Call(request) => CallKeeps(env, w, c, request);
    case Fault => FaultKeeps(env, w, c);
    case Go(count, drawn) =>
      match w.procs[c] {
        case PutStart(_, _) => PutStartKeeps(env, w, c);
        case PutWriting(_, _, _, _) => PutWritingKeeps(env, w, c, count);
        case PutWritten(_, _) => PutWrittenKeeps(env, w, c);
        case PutRepository(_, _) => PutRepositoryKeeps(env, w, c);
        case PutImage(_, _) => PutImageKeeps(env, w, c);
        case PutLinking(_, _) => PutLinkingKeeps(env, w, c, drawn);
        case PutRenaming(_, _, _) => PutRenamingKeeps(env, w, c);
        case GetStart(_) => GetStartKeeps(env, w, c);
        case GetReading(_, _, _, _, _) => GetReadingKeeps(env, w, c, count);
        case Beginning => BeginningKeeps(env, w, c, drawn);
        case ChunkCheck(_, _) => CheckUploadKeeps(env, w, c);
        case ChunkOpen(_, _) => OpenUploadKeeps(env, w, c);
        case ChunkWriting(_, _, _, _) => ChunkWritingKeeps(env, w, c, count);
        case FinalizeCheck(_, _) => CheckUploadKeeps(env, w, c);
        case FinalizeOpen(_, _) => OpenUploadKeeps(env, w, c);
        case FinalizeHashing(_, _, _, _) => FinalizeHashingKeeps(env, w, c, count);
        case FinalizeRenaming(_, _) => FinalizeRenamingKeeps(env, w, c);
      }
  }

  lemma CallKeeps(env: Env, w: World, c: Client, request: Request)
    requires Base(env, w) && ValidRequest(request)
    ensures Base(env, w.At(c, Begin(request))) && Grows(w, w.At(c, Begin(request)))
  {
    hide Base, Grows;
    MovesOnly(env, w, c, Begin(request));
  }

  lemma FaultKeeps(env: Env, w: World, c: Client)
    requires Base(env, w)
    ensures Base(env, w.Fail(c, Io)) && Grows(w, w.Fail(c, Io))
  {
    hide Base, Grows;
    MovesOnly(env, w, c, Done(Failed(Io)));
  }

  lemma CheckUploadKeeps(env: Env, w: World, c: Client)
    requires Base(env, w) && c in w.procs && (w.procs[c].ChunkCheck? || w.procs[c].FinalizeCheck?)
    ensures var pc := w.procs[c];
            var w' := if pc.ChunkCheck? then StepChunkCheck(w, c, pc) else StepFinalizeCheck(w, c, pc);
            Base(env, w') && Grows(w, w')
  {
    hide WellFormed, UploadsHold, BlobsHaveOrigin, ClientsHold, TempLinks, Grows;
    var pc := w.procs[c];
    ClientHolds(env, w, c);
    var w' := if pc.ChunkCheck? then StepChunkCheck(w, c, pc) else StepFinalizeCheck(w, c, pc);
    assert w' == w.At(c, w'.procs[c]);
    MovesOnly(env, w, c, w'.procs[c]);
  }

  lemma {:induction false} RunKeepsBase(env: Env, w: World, schedule: seq<Label>)
    requires Base(env, w) && Run(env, w, schedule).Some?
    ensures Base(env, Run(env, w, schedule).value)
    decreases |schedule|
  {
    hide Base;
    if schedule != [] {
      StepKeepsBase(env, w, schedule[0].client, schedule[0].action);
      RunKeepsBase(env, Step(env, w, schedule[0].client, schedule[0].action).value, schedule[1..]);
    }
  }

  lemma EmptyIsBase(env: Env)
    ensures Base(env, EMPTY)
  {
    FreshIsWellFormed();
    forall u, h
      ensures UploadPath(u) !in FRESH.tree && ["blobs", h] !in FRESH.tree
    {
      assert |UploadPath(u)| == 2 && |["blobs", h]| == 2;
    }
  }
}
