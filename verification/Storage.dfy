/**
 The file-system store as one caller uses it: an object over a disk, changed in
 place by each operation.
 */
module Storage {
  import opened Prelude
  import opened Digests
  import opened Disk
  import opened Layout
  import opened Effects
  import opened Machine

  /** An open file read block by block; a read may come back short, but not empty before the end. */
  class OpenFile {
    const contents: Bytes
    var pos: nat

    ghost predicate Valid()
      reads this
    {
      pos <= |contents|
    }

    constructor (contents: Bytes)
      ensures Valid() && this.contents == contents && pos == 0
    {
      this.contents := contents;
      pos := 0;
    }

    method Read(buf: array<byte>) returns (n: nat)
      requires Valid() && buf.Length > 0
      modifies this`pos, buf
      ensures Valid() && pos == old(pos) + n && n <= buf.Length
      ensures n == 0 <==> old(pos) == |contents|
      ensures buf[..n] == contents[old(pos)..pos]
    {
      var left := |contents| - pos;
      if left == 0 {
        return 0;
      }
      n :| 0 < n <= left && n <= buf.Length;
      for i := 0 to n
        invariant pos == old(pos) && buf[..i] == contents[pos..pos + i]
      {
        buf[i] := contents[pos + i];
      }
      pos := pos + n;
    }
  }

  /** The incremental hasher: hashing piecewise is hashing the concatenation. */
  class Hasher {
    var absorbed: Bytes

    constructor ()
      ensures absorbed == []
    {
      absorbed := [];
    }

    method Update(block: Bytes)
      modifies this
      ensures absorbed == old(absorbed) + block
    {
      absorbed := absorbed + block;
    }
  }

  /** The block loop of a finalize: its digest is the hash of the whole file, however reads come back. */
  method HashBlocks(env: Env, src: OpenFile, bufferSize: nat) returns (digest: Digest)
    requires src.Valid() && src.pos == 0 && bufferSize > 0
    modifies src
    ensures digest == env.sha(src.contents)
  {
    var buf := new byte[bufferSize](_ => 0);
    var hasher := new Hasher();
    while true
      invariant src.Valid() && fresh(buf) && fresh(hasher) && buf.Length == bufferSize
      invariant hasher.absorbed == src.contents[..src.pos]
      decreases |src.contents| - src.pos
    {
      var read := src.Read(buf);
      if read == 0 {
        break;
      }
      hasher.Update(buf[..read]);
    }
    assert src.contents[..src.pos] == src.contents;
    digest := env.sha(hasher.absorbed);
  }

  // ---------- The store ----------

  predicate HasLink(tree: Tree, p: Path) {
    p in tree && tree[p].Link?
  }

  /** What `put_manifest` may change besides the tags `moved`: its own manifest and new directories. */
  ghost predicate OnlyStores(before: Disk, after: Disk, name: Text, moved: set<Path>) {
    && (forall p | p in before.tree && p !in moved :: p in after.tree && after.tree[p] == before.tree[p])
    && (forall p | p in after.tree && p !in before.tree && p !in moved && p != ManifestEntry(name) :: after.tree[p] == Dir)
    && (forall i | i in before.data && (ManifestEntry(name) in before.tree ==> before.tree[ManifestEntry(name)] != File(i)) ::
          i in after.data && after.data[i] == before.data[i])
  }

  lemma FilesHaveData(disk: Disk, p: Path)
    requires WellFormed(disk) && p in disk.tree && disk.tree[p].File?
    ensures disk.tree[p].ino in disk.data
  {
  }

  /** What comes after the manifest is stored: links and directories, and no data. */
  lemma StoringComposes(before: Disk, stored: Disk, after: Disk, name: Text, moved: set<Path>)
    requires OnlyStores(before, stored, name, {}) && after.data == stored.data
    requires forall p | p in stored.tree && p !in moved :: p in after.tree && after.tree[p] == stored.tree[p]
    requires forall p | p in after.tree && p !in stored.tree && p !in moved :: after.tree[p] == Dir
    ensures OnlyStores(before, after, name, moved)
  {
  }

  lemma NothingStored(disk: Disk, name: Text)
    ensures OnlyStores(disk, disk, name, {})
  {
  }

  lemma ManifestReadKept(before: Disk, after: Disk, digest: Digest)
    requires WellFormed(before) && WellFormed(after) && after.data == before.data
    requires ManifestPath(digest) in before.tree && ManifestPath(digest) in after.tree
    requires after.tree[ManifestPath(digest)] == before.tree[ManifestPath(digest)]
    ensures ReadFile(after, ManifestPath(digest)) == ReadFile(before, ManifestPath(digest))
  {
    hide Inodes;
    HexIsComponent(digest);
    OpenExistingEffect(before, "manifests", Hex(digest));
    OpenExistingEffect(after, "manifests", Hex(digest));
  }

  lemma StoredIsTagged(disk: Disk, digest: Digest, location: ImageLocation, tag: Text)
    requires WellFormed(disk) && ValidLocation(location) && IsComponent(tag)
    requires TagPath(location, tag) in disk.tree && disk.tree[TagPath(location, tag)] == Link(LinkTo(Hex(digest)))
    ensures ReadFile(disk, TagPath(location, tag)) == ReadFile(disk, ManifestPath(digest))
  {
    hide Inodes;
    HexIsComponent(digest);
    ReadTagEffect(disk, location, tag);
    OpenExistingEffect(disk, "manifests", Hex(digest));
    assert disk.tree[TagPath(location, tag)].target[4] == Hex(digest);
  }

  /** Whether the failure cuts this many bytes short. */
  predicate Cuts(failsAfter: Option<nat>, length: nat) {
    failsAfter.Some? && failsAfter.value < length
  }

  /** Whether there is a failure at all: before the first byte, between bytes, or after the last. */
  predicate Fails(failsAfter: Option<nat>, length: nat) {
    failsAfter.Some? && failsAfter.value <= length
  }

  /** What of a body gets written before the failure, if there is one. */
  function WrittenOf(body: Bytes, failsAfter: Option<nat>): Bytes {
    if Cuts(failsAfter, |body|) then body[..failsAfter.value] else body
  }

  /** The bytes up to a place within piece `k` are those of the pieces before it and its own front. */
  lemma FlattenFront(chunks: seq<Bytes>, k: nat, n: nat)
    requires k < |chunks| && |Flatten(chunks[..k])| <= n < |Flatten(chunks[..k])| + |chunks[k]|
    ensures n < |Flatten(chunks)|
    ensures Flatten(chunks)[..n] == Flatten(chunks[..k]) + chunks[k][..n - |Flatten(chunks[..k])|]
  {
    FlattenSnoc(chunks[..k], chunks[k]);
    assert chunks[..k + 1] == chunks[..k] + [chunks[k]];
    FlattenConcat(chunks[..k + 1], chunks[k + 1..]);
    assert chunks == chunks[..k + 1] + chunks[k + 1..];
  }

  lemma CutOff(chunks: seq<Bytes>, k: nat, failsAfter: Option<nat>, written: Bytes)
    requires k < |chunks| && failsAfter.Some?
    requires |Flatten(chunks[..k])| <= failsAfter.value < |Flatten(chunks[..k])| + |chunks[k]|
    requires written == chunks[k][..failsAfter.value - |Flatten(chunks[..k])|]
    ensures failsAfter.value < |Flatten(chunks)|
    ensures WrittenOf(Flatten(chunks), failsAfter) == Flatten(chunks[..k]) + written
  {
    hide Flatten;
    FlattenFront(chunks, k, failsAfter.value);
  }

  lemma NothingCut(body: Bytes, failsAfter: Option<nat>)
    requires !Cuts(failsAfter, |body|)
    ensures WrittenOf(body, failsAfter) == body
  {
  }

  /** One file has grown by some bytes, and nothing else has changed. */
  ghost predicate GrowsBy(before: Disk, after: Disk, ino: Ino, more: Bytes) {
    && after.tree == before.tree
    && ino in before.data && ino in after.data && after.data[ino] == before.data[ino] + more
    && forall i | i in before.data && i != ino :: i in after.data && after.data[i] == before.data[i]
  }

  lemma GrowsByNothing(disk: Disk, ino: Ino)
    requires ino in disk.data
    ensures GrowsBy(disk, disk, ino, [])
  {
    assert disk.data[ino] + [] == disk.data[ino];
  }

  lemma GrowsFurther(before: Disk, disk: Disk, ino: Ino, more: Bytes, chunk: Bytes)
    requires WellFormed(disk) && GrowsBy(before, disk, ino, more)
    ensures WellFormed(Append(disk, ino, chunk)) && GrowsBy(before, Append(disk, ino, chunk), ino, more + chunk)
  {
    hide WellFormed;
    WriteKeepsShape(disk, ino, 0, chunk);
    assert before.data[ino] + more + chunk == before.data[ino] + (more + chunk);
  }

  lemma ReadsGrown(before: Disk, after: Disk, upload: Text, more: Bytes)
    requires WellFormed(before) && WellFormed(after) && IsComponent(upload) && UploadPath(upload) in before.tree
    requires before.tree[UploadPath(upload)].File?
    requires GrowsBy(before, after, before.tree[UploadPath(upload)].ino, more)
    ensures ReadFile(before, UploadPath(upload)).Some?
    ensures ReadFile(after, UploadPath(upload)) == Some(ReadFile(before, UploadPath(upload)).value + more)
    ensures after.tree == before.tree
    ensures forall i | i in before.data && i != after.tree[UploadPath(upload)].ino ::
              i in after.data && after.data[i] == before.data[i]
  {
    hide WellFormed;
    UploadNameIsComponent(upload);
    OpenExistingEffect(before, "uploads", upload + ".partial");
    OpenExistingEffect(after, "uploads", upload + ".partial");
  }

  /**
   The operation of a put that fails: opening the manifest file, writing it after some bytes, making the
   tag's directories before or after the first of them, linking, or renaming.
   */
  datatype PutFault = Opening | Writing(length: nat) | Directories(oneMade: bool) | Linking | Renaming

  predicate StoringFails(fault: Option<PutFault>) {
    fault.Some? && (fault.value.Opening? || fault.value.Writing?)
  }

  predicate DirectoriesFail(fault: Option<PutFault>) {
    fault.Some? && fault.value.Directories?
  }

  /** Directories are only made when the last of them is not there yet. */
  predicate TaggingFails(fault: Option<PutFault>, parentExists: bool) {
    fault == Some(Linking) || fault == Some(Renaming) || (DirectoriesFail(fault) && !parentExists)
  }

  /** What of a manifest is in its file afterwards. */
  function StoredPart(manifest: Bytes, fault: Option<PutFault>): Bytes {
    if fault.Some? && fault.value.Writing? && fault.value.length < |manifest| then manifest[..fault.value.length]
    else manifest
  }

  lemma StoringKeepsEntries(before: Disk, after: Disk, name: Text)
    requires OnlyStores(before, after, name, {})
    ensures forall p | p in before.tree :: p in after.tree && after.tree[p] == before.tree[p]
  {
  }

  class FilesystemStorage {
    const env: Env
    var disk: Disk

    ghost predicate Valid()
      reads this
    {
      WellFormed(disk)
    }

    /** Opens a store in an empty root. */
    constructor (env: Env)
      ensures Valid() && this.env == env && disk == FRESH
    {
      this.env := env;
      disk := FRESH;
      FreshIsWellFormed();
    }

    method BeginNewUpload(drawn: Text)
      requires Valid() && IsComponent(drawn) && UploadPath(drawn) !in disk.tree
      modifies this`disk
      ensures Valid()
      ensures ReadFile(disk, UploadPath(drawn)) == Some([])
      ensures disk.tree == old(disk.tree)[UploadPath(drawn) := File(old(disk).next)]
      ensures disk.data == old(disk.data)[old(disk).next := []]
    {
      UploadNameIsComponent(drawn);
      OpenTruncateEffect(disk, "uploads", drawn + ".partial");
      disk := OpenTruncate(disk, UploadPath(drawn)).value.0;
      OpenExistingEffect(disk, "uploads", drawn + ".partial");
    }

    /**
     The chunk handler: the body arrives in pieces, each appended; the count is of this request only.
     Opening, receiving, writing or flushing may fail after any number of bytes: then those bytes are there.
     */
    method AddChunk(upload: Text, chunks: seq<Bytes>, failsAfter: Option<nat>) returns (r: Result<nat, Error>)
      requires Valid() && IsComponent(upload)
      modifies this`disk
      ensures Valid() && disk.tree == old(disk.tree)
      ensures UploadPath(upload) !in old(disk.tree) ==> r == Err(UploadDoesNotExist) && disk == old(disk)
      ensures UploadPath(upload) in old(disk.tree) ==>
                && r == (if failsAfter.Some? && failsAfter.value <= |Flatten(chunks)| then Err(Io)
                         else Ok(|Flatten(chunks)|))
                && ReadFile(old(disk), UploadPath(upload)).Some?
                && ReadFile(disk, UploadPath(upload))
                   == Some(ReadFile(old(disk), UploadPath(upload)).value + WrittenOf(Flatten(chunks), failsAfter))
                && forall i | i in old(disk.data) && i != disk.tree[UploadPath(upload)].ino ::
                     i in disk.data && disk.data[i] == old(disk.data)[i]
    {
      assert Flatten(chunks[..0]) == [];
      hide WellFormed, Flatten, Append, GrowsBy, OpenExisting, ReadFile, Exists, IsComponent, WrittenOf;
      UploadNameIsComponent(upload);
      OpenExistingEffect(disk, "uploads", upload + ".partial");
      if !Exists(disk.tree, UploadPath(upload)) {
        return Err(UploadDoesNotExist);
      }
      FilesHaveData(disk, UploadPath(upload));
      var ino := OpenExisting(disk, UploadPath(upload)).value;
      var completed := 0;
      GrowsByNothing(disk, ino);
      for k := 0 to |chunks|
        invariant WellFormed(disk) && GrowsBy(old(disk), disk, ino, Flatten(chunks[..k]))
        invariant completed == |Flatten(chunks[..k])| && !Cuts(failsAfter, completed)
      {
        FlattenSnoc(chunks[..k], chunks[k]);
        assert chunks[..k + 1] == chunks[..k] + [chunks[k]];
        if Cuts(failsAfter, completed + |chunks[k]|) {
          var written := chunks[k][..failsAfter.value - completed];
          GrowsFurther(old(disk), disk, ino, Flatten(chunks[..k]), written);
          disk := Append(disk, ino, written);
          CutOff(chunks, k, failsAfter, written);
          ReadsGrown(old(disk), disk, upload, WrittenOf(Flatten(chunks), failsAfter));
          return Err(Io);
        }
        completed := completed + |chunks[k]|;
        GrowsFurther(old(disk), disk, ino, Flatten(chunks[..k]), chunks[k]);
        disk := Append(disk, ino, chunks[k]);
      }
      assert chunks[..|chunks|] == chunks;
      NothingCut(Flatten(chunks), failsAfter);
      ReadsGrown(old(disk), disk, upload, Flatten(chunks));
      if Fails(failsAfter, completed) {
        return Err(Io);
      }
      r := Ok(completed);
    }

    /** Validates and moves an upload; on a mismatch the store is as before and the upload can go on. */
    method FinalizeUpload(upload: Text, digest: Digest, readFails: bool, renameFails: bool)
      returns (r: Result<(), Error>)
      requires Valid() && IsComponent(upload)
      modifies this`disk
      ensures Valid()
      ensures r.Err? ==> disk == old(disk)
      ensures r == Err(UploadDoesNotExist) <==> UploadPath(upload) !in old(disk.tree)
      ensures UploadPath(upload) in old(disk.tree) ==>
                && ReadFile(old(disk), UploadPath(upload)).Some?
                && var content := ReadFile(old(disk), UploadPath(upload)).value;
                && (r == Err(DigestMismatch) <==> !readFails && env.sha(content) != digest)
                && (r == Err(Io) <==> readFails || (env.sha(content) == digest && renameFails))
                && (r.Ok? <==> !readFails && env.sha(content) == digest && !renameFails)
                && (r.Ok? ==> ReadFile(disk, BlobPath(digest)) == Some(content) && UploadPath(upload) !in disk.tree)
      ensures forall p | p != UploadPath(upload) && p != BlobPath(digest) ::
                (p in disk.tree <==> p in old(disk.tree)) && (p in disk.tree ==> disk.tree[p] == old(disk.tree)[p])
      ensures disk.data == old(disk.data)
    {
      hide WellFormed;
      UploadNameIsComponent(upload);
      HexIsComponent(digest);
      OpenExistingEffect(disk, "uploads", upload + ".partial");
      if !Exists(disk.tree, UploadPath(upload)) {
        return Err(UploadDoesNotExist);
      }
      if readFails {
        return Err(Io);
      }
      var src := new OpenFile(ReadFile(disk, UploadPath(upload)).value);
      var actual := HashBlocks(env, src, BUFFER_SIZE);
      if actual != digest {
        return Err(DigestMismatch);
      }
      if renameFails {
        return Err(Io);
      }
      FinishUploadEffect(disk, upload, digest);
      assert UploadPath(upload)[0] == "uploads" && BlobPath(digest)[0] == "blobs";
      disk := Rename(disk, UploadPath(upload), BlobPath(digest)).value;
      OpenExistingEffect(disk, "blobs", Hex(digest));
      r := Ok(());
    }

    method GetManifest(target: ManifestReference) returns (r: Option<Bytes>)
      requires Valid() && ValidReference(target)
      ensures r == ReadFile(disk, TargetPath(target))
      ensures target.reference.ByDigest? ==>
                r == if ManifestPath(target.reference.digest) in disk.tree
                     then Some(disk.data[disk.tree[ManifestPath(target.reference.digest)].ino]) else None
      ensures target.reference.Tag? ==>
                var p := TagPath(target.location, target.reference.tag);
                r == if p in disk.tree
                     then Some(disk.data[disk.tree[ManifestEntry(disk.tree[p].target[4])].ino]) else None
    {
      match target.reference {
        case Tag(tag) =>
          ReadTagEffect(disk, target.location, tag);
          LookupTag(disk.tree, target.location, tag);
        case ByDigest(d) =>
          HexIsComponent(d);
          OpenExistingEffect(disk, "manifests", Hex(d));
      }
      r := ReadFile(disk, TargetPath(target));
    }

    /**
     Stores a manifest under its digest and moves one tag to it. Nothing is checked about blobs.
     A reference by digest is refused after the manifest has been stored. `fault` is the operation the
     file system refuses, if any.
     */
    method PutManifest(target: ManifestReference, manifest: Bytes, drawn: Text, fault: Option<PutFault>)
      returns (r: Result<Digest, Error>)
      requires Valid() && ValidReference(target) && IsComponent(drawn)
      modifies this`disk
      ensures Valid()
      ensures r == Err(InvalidManifest) <==> !env.parses(manifest)
      ensures r.Err? ==> r.error.InvalidManifest? || r.error.NotATag? || r.error.Io?
      ensures r == Err(InvalidManifest) || fault == Some(Opening) ==> disk == old(disk)
      ensures env.parses(manifest) && fault != Some(Opening) ==>
                ReadFile(disk, ManifestPath(env.sha(manifest))) == Some(StoredPart(manifest, fault))
      ensures r == Err(NotATag) <==> env.parses(manifest) && target.reference.ByDigest? && !StoringFails(fault)
      ensures r == Err(Io) <==>
                && env.parses(manifest)
                && (StoringFails(fault)
                    || (target.reference.Tag?
                        && (|| HasLink(old(disk.tree), RepositoryDir(target.location))
                            || TempTagPath(drawn) in old(disk.tree)
                            || drawn == target.location.repository
                            || TaggingFails(fault, TagParent(target.location) in old(disk.tree)))))
      ensures r.Ok? ==> && r.value == env.sha(manifest) && target.reference.Tag?
                        && ReadFile(disk, TagPath(target.location, target.reference.tag)) == Some(manifest)
      ensures OnlyStores(old(disk), disk, Hex(env.sha(manifest)),
                         if r.Ok? then {TagPath(target.location, target.reference.tag)}
                         else if fault == Some(Renaming) && r == Err(Io) then {TempTagPath(drawn)} else {})
      ensures r.Err? ==> forall p | p in old(disk.tree) :: p in disk.tree && disk.tree[p] == old(disk.tree)[p]
    {
      hide WellFormed, OnlyStores, ReadFile;
      NothingStored(disk, Hex(env.sha(manifest)));
      if !env.parses(manifest) {
        return Err(InvalidManifest);
      }
      if fault == Some(Opening) {
        return Err(Io);
      }
      var digest := env.sha(manifest);
      HexIsComponent(digest);
      StoreManifest(digest, StoredPart(manifest, fault));
      StoringKeepsEntries(old(disk), disk, Hex(digest));
      if StoringFails(fault) {
        return Err(Io);
      }
      if target.reference.ByDigest? {
        return Err(NotATag);
      }
      r := PlaceTag(digest, target.location, target.reference.tag, drawn, fault);
      if r.Ok? {
        StoredIsTagged(disk, digest, target.location, target.reference.tag);
      }
    }

    /** The part of a put that follows once the manifest is stored. */
    method PlaceTag(digest: Digest, location: ImageLocation, tag: Text, drawn: Text, fault: Option<PutFault>)
      returns (r: Result<Digest, Error>)
      requires Valid() && ValidLocation(location) && IsComponent(tag) && IsComponent(drawn)
      requires ManifestPath(digest) in disk.tree && disk.tree[ManifestPath(digest)].File?
      modifies this`disk
      ensures Valid() && disk.data == old(disk.data)
      ensures r == if || HasLink(old(disk.tree), RepositoryDir(location))
                      || TempTagPath(drawn) in old(disk.tree)
                      || drawn == location.repository
                      || TaggingFails(fault, TagParent(location) in old(disk.tree)) then Err(Io) else Ok(digest)
      ensures ReadFile(disk, ManifestPath(digest)) == ReadFile(old(disk), ManifestPath(digest))
      ensures r.Ok? ==> TagPath(location, tag) in disk.tree && disk.tree[TagPath(location, tag)] == Link(LinkTo(Hex(digest)))
      ensures forall before, name {:trigger OnlyStores(before, old(disk), name, {})} |
                OnlyStores(before, old(disk), name, {}) ::
                OnlyStores(before, disk, name,
                           if r.Ok? then {TagPath(location, tag)}
                           else if fault == Some(Renaming) then {TempTagPath(drawn)} else {})
      ensures r.Err? ==> forall p | p in old(disk.tree) :: p in disk.tree && disk.tree[p] == old(disk.tree)[p]
    {
      hide WellFormed, OnlyStores, ReadFile;
      ghost var stored := disk;
      ghost var moved := if fault == Some(Renaming) then {TempTagPath(drawn)} else {};
      var ok := EnsureTagParent(location, fault);
      if !ok {
        ManifestReadKept(stored, disk, digest);
        forall before, name | OnlyStores(before, stored, name, {})
          ensures OnlyStores(before, disk, name, moved)
        {
          StoringComposes(before, stored, disk, name, moved);
        }
        return Err(Io);
      }
      ok := MoveTag(digest, drawn, location, tag, fault);
      moved := if ok then {TagPath(location, tag)} else moved;
      assert |TagPath(location, tag)| == 4 && |ManifestPath(digest)| == |TempTagPath(drawn)| == 2;
      assert ManifestPath(digest)[0] == "manifests" && TempTagPath(drawn)[0] == "tags";
      ManifestReadKept(stored, disk, digest);
      forall before, name | OnlyStores(before, stored, name, {})
        ensures OnlyStores(before, disk, name, moved)
      {
        StoringComposes(before, stored, disk, name, moved);
      }
      r := if ok then Ok(digest) else Err(Io);
    }

    method EnsureTagParent(location: ImageLocation, fault: Option<PutFault>) returns (ok: bool)
      requires Valid() && ValidLocation(location)
      modifies this`disk
      ensures Valid() && disk.data == old(disk.data)
      ensures ok <==> !HasLink(old(disk.tree), RepositoryDir(location))
                      && !(DirectoriesFail(fault) && TagParent(location) !in old(disk.tree))
      ensures !ok ==> disk.tree == if fault == Some(Directories(true)) && !HasLink(old(disk.tree), RepositoryDir(location))
                                   then old(disk.tree)[RepositoryDir(location) := Dir] else old(disk.tree)
      ensures ok ==> disk.tree == old(disk.tree)[RepositoryDir(location) := Dir][TagParent(location) := Dir]
      ensures forall p | p in old(disk.tree) :: disk.tree[p] == old(disk.tree)[p]
    {
      hide LinksResolve, Inodes;
      LookupTagParent(disk.tree, location);
      if !Exists(disk.tree, TagParent(location)) {
        if fault == Some(Directories(false)) {
          return false;
        }
        EnsureRepositoryEffect(disk, location);
        var step := EnsureDir(disk, RepositoryDir(location));
        if step.None? {
          return false;
        }
        disk := step.value;
        if fault == Some(Directories(true)) {
          return false;
        }
        EnsureImageEffect(disk, location);
        LookupTagParent(disk.tree, location);
        disk := EnsureDir(disk, TagParent(location)).value;
      }
      ok := true;
    }

    /** Links under a temporary name and renames over the tag; a rename that fails leaves the temporary link. */
    method MoveTag(digest: Digest, drawn: Text, location: ImageLocation, tag: Text, fault: Option<PutFault>)
      returns (ok: bool)
      requires Valid() && ValidLocation(location) && IsComponent(tag) && IsComponent(drawn)
      requires TagParent(location) in disk.tree && ManifestPath(digest) in disk.tree
      modifies this`disk
      ensures Valid() && disk.data == old(disk.data)
      ensures ok <==> TempTagPath(drawn) !in old(disk.tree) && fault != Some(Linking) && fault != Some(Renaming)
      ensures disk.tree
              == if ok then old(disk.tree)[TagPath(location, tag) := Link(LinkTo(Hex(digest)))]
                 else if TempTagPath(drawn) !in old(disk.tree) && fault == Some(Renaming) then
                   old(disk.tree)[TempTagPath(drawn) := Link(LinkTo(Hex(digest)))]
                 else old(disk.tree)
    {
      hide WellFormed;
      HexIsComponent(digest);
      SymlinkEffect(disk, Hex(digest), drawn);
      var linked := Symlink(disk, LinkTo(Hex(digest)), TempTagPath(drawn));
      if linked.None? || fault == Some(Linking) {
        return false;
      }
      disk := linked.value;
      if fault == Some(Renaming) {
        return false;
      }
      InstallTagEffect(disk, drawn, location, tag);
      disk := Rename(disk, TempTagPath(drawn), TagPath(location, tag)).value;
      assert |TempTagPath(drawn)| == 2 && |TagPath(location, tag)| == 4;
      ok := true;
    }

    method StoreManifest(digest: Digest, manifest: Bytes)
      requires Valid()
      modifies this`disk
      ensures Valid()
      ensures ReadFile(disk, ManifestPath(digest)) == Some(manifest)
      ensures ManifestPath(digest) in disk.tree && disk.tree[ManifestPath(digest)].File?
      ensures ManifestPath(digest) in old(disk.tree) ==> disk.tree[ManifestPath(digest)] == old(disk.tree)[ManifestPath(digest)]
      ensures OnlyStores(old(disk), disk, Hex(digest), {})
      ensures forall p | p != ManifestPath(digest) :: p in disk.tree <==> p in old(disk.tree)
    {
      HexIsComponent(digest);
      OpenTruncateEffect(disk, "manifests", Hex(digest));
      var (emptied, ino) := OpenTruncate(disk, ManifestPath(digest)).value;
      WriteKeepsShape(emptied, ino, 0, manifest);
      disk := WriteAt(emptied, ino, 0, manifest);
      OpenExistingEffect(disk, "manifests", Hex(digest));
      assert Overwrite([], 0, manifest) == manifest;
    }
  }

  // ---------- Opening ----------

  const DIRECTORIES: seq<Text> := ["uploads", "blobs", "manifests", "tags"]

  /** An empty root directory. */
  const EMPTY_ROOT := Disk(map[[] := Dir], map[], 0)

  /** Makes each directory of a list that does not exist; fails where one cannot be made. */
  function Opened(disk: Disk, names: seq<Text>): Option<Disk>
    decreases |names|
  {
    if names == [] then Some(disk)
    else if Exists(disk.tree, [names[0]]) then Opened(disk, names[1..])
    else
      match Mkdir(disk, [names[0]])
      case Some(made) => Opened(made, names[1..])
      case None => None
  }

  /** Opening a root with anything in it, or nothing. */
  method Open(env: Env, root: Disk) returns (r: Result<FilesystemStorage, Error>)
    ensures Opened(root, DIRECTORIES).None? ==> r == Err(Io)
    ensures Opened(root, DIRECTORIES).Some? ==>
              && r.Ok? && fresh(r.value) && r.value.env == env
              && r.value.disk == Opened(root, DIRECTORIES).value
  {
    var disk := root;
    for k := 0 to |DIRECTORIES|
      invariant Opened(root, DIRECTORIES) == Opened(disk, DIRECTORIES[k..])
    {
      assert DIRECTORIES[k..][1..] == DIRECTORIES[k + 1..];
      if !Exists(disk.tree, [DIRECTORIES[k]]) {
        var made := Mkdir(disk, [DIRECTORIES[k]]);
        if made.None? {
          return Err(Io);
        }
        disk := made.value;
      }
    }
    var storage := new FilesystemStorage(env);
    storage.disk := disk;
    r := Ok(storage);
  }

  /** Opening adds directories of the list and nothing else, and keeps all there was. */
  lemma {:induction false} OpeningKeeps(disk: Disk, names: seq<Text>)
    requires Opened(disk, names).Some?
    requires forall i | 0 <= i < |names| :: IsComponent(names[i])
    ensures var result := Opened(disk, names).value;
            && result.data == disk.data && result.next == disk.next
            && (forall p | p in disk.tree :: p in result.tree && result.tree[p] == disk.tree[p])
            && (forall p | p in result.tree && p !in disk.tree ::
                  result.tree[p] == Dir && |p| == 1 && p[0] in names)
    decreases |names|
  {
    if names != [] {
      var name := names[0];
      if Exists(disk.tree, [name]) {
        OpeningKeeps(disk, names[1..]);
      } else {
        MkdirAtRoot(disk, name);
        OpeningKeeps(Mkdir(disk, [name]).value, names[1..]);
      }
    }
  }

  lemma MkdirAtRoot(disk: Disk, name: Text)
    requires Mkdir(disk, [name]).Some?
    ensures [name] !in disk.tree && Mkdir(disk, [name]) == Some(disk.(tree := disk.tree[[name] := Dir]))
  {
    assert Parent([name]) == [] && Name([name]) == name;
    assert [] + [name] == [name];
  }

  /** A store that is there is taken as it is: reopening it after any run finds what that run left. */
  lemma ReopeningFindsTheStore(disk: Disk)
    requires WellFormed(disk)
    ensures Opened(disk, DIRECTORIES) == Some(disk)
  {
    hide Inodes, LinksResolve;
    LookupTop(disk.tree, "uploads");
    LookupTop(disk.tree, "blobs");
    LookupTop(disk.tree, "manifests");
    LookupTop(disk.tree, "tags");
    hide Exists;
    AllExist(disk, DIRECTORIES);
  }

  lemma {:induction false} AllExist(disk: Disk, names: seq<Text>)
    requires forall i | 0 <= i < |names| :: Exists(disk.tree, [names[i]])
    ensures Opened(disk, names) == Some(disk)
  {
    hide Exists;
    if names != [] {
      AllExist(disk, names[1..]);
    }
  }

  lemma MakingTop(tree: Tree, name: Text)
    requires [] in tree && tree[[]].Dir? && [name] !in tree && IsComponent(name)
    ensures !Exists(tree, [name])
    ensures forall data, next :: Mkdir(Disk(tree, data, next), [name]) == Some(Disk(tree[[name] := Dir], data, next))
  {
    assert Parent([name]) == [] && Name([name]) == name;
    assert [] + [name] == [name] && [name][1..] == [];
  }

  lemma OpenedOne(disk: Disk, name: Text, rest: seq<Text>)
    requires [] in disk.tree && disk.tree[[]].Dir? && [name] !in disk.tree && IsComponent(name)
    ensures Opened(disk, [name] + rest) == Opened(disk.(tree := disk.tree[[name] := Dir]), rest)
  {
    hide Exists, Mkdir;
    MakingTop(disk.tree, name);
    assert ([name] + rest)[1..] == rest;
    assert Mkdir(Disk(disk.tree, disk.data, disk.next), [name]).Some?;
  }

  /** An empty root becomes the empty store. */
  lemma OpeningMakesTheStore()
    ensures Opened(EMPTY_ROOT, DIRECTORIES) == Some(FRESH)
  {
    hide Opened;
    var d1 := EMPTY_ROOT.(tree := EMPTY_ROOT.tree[["uploads"] := Dir]);
    var d2 := d1.(tree := d1.tree[["blobs"] := Dir]);
    var d3 := d2.(tree := d2.tree[["manifests"] := Dir]);
    var t3: seq<Text> := ["tags"] + [];
    var t2 := ["manifests"] + t3;
    var t1 := ["blobs"] + t2;
    assert DIRECTORIES == ["uploads"] + t1;
    OpenedOne(EMPTY_ROOT, "uploads", t1);
    OpenedOne(d1, "blobs", t2);
    OpenedOne(d2, "manifests", t3);
    OpenedOne(d3, "tags", []);
    OpenedNone(d3.(tree := d3.tree[["tags"] := Dir]));
  }

  lemma OpenedNone(disk: Disk)
    ensures Opened(disk, []) == Some(disk)
  {
  }
}
