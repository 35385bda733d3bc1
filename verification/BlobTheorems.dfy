/**
 Blobs under concurrent uploads: what a blob holds, when it hashes to its name,
 and that a blob never goes away.
 */
module BlobTheorems {
  import opened Prelude
  import opened Digests
  import opened Disk
  import opened Layout
  import opened Effects
  import opened Machine
  import opened Invariant
  import opened Refinement
  import opened ManifestTheorems

  function BlobEntry(name: Text): Path { ["blobs", name] }

  ghost predicate BlobFrom(w: World, name: Text, u: Text) {
    BlobEntry(name) in w.disk.tree && name in w.origin && w.origin[name] == u
  }

  ghost predicate FinalizingConfirmed(w: World, u: Text) {
    exists c :: c in w.procs && w.procs[c].FinalizeRenaming? && w.procs[c].upload == u
  }

  /**
   The step appends to an upload whose digest a finalize has already confirmed, or which is a
   blob already. The code takes no lock that would prevent this.
   */
  ghost predicate Overlaps(w: World, c: Client, act: Action) {
    && act.Go? && act.count > 0 && c in w.procs && w.procs[c].ChunkWriting?
    && (FinalizingConfirmed(w, w.procs[c].upload) || exists name :: BlobFrom(w, name, w.procs[c].upload))
  }

  ghost predicate Disciplined(env: Env, w: World, schedule: seq<Label>)
    decreases |schedule|
  {
    schedule != [] ==>
      && !Overlaps(w, schedule[0].client, schedule[0].action)
      && (match Step(env, w, schedule[0].client, schedule[0].action)
          case Some(next) => Disciplined(env, next, schedule[1..])
          case None => true)
  }

  /** Blobs, and uploads about to become blobs, hash to their names. */
  ghost predicate BlobsHash(env: Env, w: World) {
    && (forall name, u | BlobFrom(w, name, u) && u in w.uploads :: NameOf(env, w.uploads[u].sent) == name)
    && (forall c | c in w.procs && w.procs[c].FinalizeRenaming? && w.procs[c].upload in w.uploads ::
          env.sha(w.uploads[w.procs[c].upload].sent) == w.procs[c].digest)
  }

  lemma BlobHolds(w: World, name: Text)
    requires WellFormed(w.disk) && UploadsHold(w) && BlobsHaveOrigin(w)
    requires BlobEntry(name) in w.disk.tree && IsComponent(name)
    ensures BlobFrom(w, name, w.origin[name]) && w.origin[name] in w.uploads
    ensures ReadFile(w.disk, BlobEntry(name)) == Some(w.uploads[w.origin[name]].sent)
  {
    OpenExistingEffect(w.disk, "blobs", name);
  }

  // ---------- One step ----------

  /** At the end of its file the hash loop has seen all of it, and the verdict is exact. */
  lemma FinalizeDecides(env: Env, w: World, c: Client)
    requires Base(env, w) && c in w.procs && w.procs[c].FinalizeHashing?
    requires StepFinalizeHashing(env, w, c, w.procs[c], 0).Some?
    ensures var pc := w.procs[c];
            var w' := StepFinalizeHashing(env, w, c, pc, 0).value;
            && pc.upload in w.uploads && pc.seen == w.uploads[pc.upload].sent
            && w'.disk == w.disk && w'.uploads == w.uploads
            && w'.procs[c] == if env.sha(w.uploads[pc.upload].sent) == pc.digest
                              then FinalizeRenaming(pc.upload, pc.digest)
                              else Done(Failed(DigestMismatch))
  {
    hide WellFormed, BlobsHaveOrigin, TempLinks, ClientsHold;
    ClientHolds(env, w, c);
  }

  /** The loop can always go on: it reads another block or reaches its verdict. */
  lemma HashingProgresses(env: Env, w: World, c: Client)
    requires c in w.procs && w.procs[c].FinalizeHashing?
    ensures var pc := w.procs[c];
            var left := |Contents(w.disk, pc.ino)| - |pc.seen|;
            if left <= 0 then StepFinalizeHashing(env, w, c, pc, 0).Some?
            else forall k | 1 <= k <= left && k <= BUFFER_SIZE ::
                   StepFinalizeHashing(env, w, c, pc, k) == Some(w.At(c, StepFinalizeHashing(env, w, c, pc, k).value.procs[c]))
                   && StepFinalizeHashing(env, w, c, pc, k).value.procs[c].FinalizeHashing?
                   && |Contents(w.disk, pc.ino)| - |StepFinalizeHashing(env, w, c, pc, k).value.procs[c].seen| == left - k
  {
  }

  /** The same blobs from the same uploads, and no bytes appended. */
  ghost predicate SameBlobs(w: World, w': World) {
    && (forall name :: BlobEntry(name) in w.disk.tree <==> BlobEntry(name) in w'.disk.tree)
    && w'.origin == w.origin && w'.uploads == w.uploads
  }

  lemma BlobsFramed(env: Env, w: World, w': World, c: Client)
    requires BlobsHash(env, w) && SameBlobs(w, w') && MovesOne(w, w', c) && !w'.procs[c].FinalizeRenaming?
    ensures BlobsHash(env, w')
  {
    assert forall name, u | BlobFrom(w', name, u) :: BlobFrom(w, name, u);
  }

  ghost predicate TouchesBlobs(pc: Proc) {
    pc.Beginning? || pc.ChunkWriting? || pc.FinalizeHashing? || pc.FinalizeRenaming?
  }

  lemma PutKeepsBlobs(env: Env, w: World, c: Client, count: nat, drawn: Text)
    requires Base(env, w) && c in w.procs && Step(env, w, c, Go(count, drawn)).Some?
    requires !TouchesBlobs(w.procs[c])
    ensures SameBlobs(w, Step(env, w, c, Go(count, drawn)).value)
  {
    hide WellFormed, UploadsHold, BlobsHaveOrigin, ClientsHold, TempLinks, SameBlobs,
      Rename, EnsureDir, Symlink, OpenTruncate, OpenExisting, Lookup, Exists;
    var pc := w.procs[c];
    ClientHolds(env, w, c);
    var w' := Step(env, w, c, Go(count, drawn)).value;
    if pc.PutStart? && env.parses(pc.body) {
      HexIsComponent(env.sha(pc.body));
      OpenTruncateEffect(w.disk, "manifests", NameOf(env, pc.body));
      EntryKeepsBlobs(w, w', ManifestEntry(NameOf(env, pc.body)));
    } else if pc.PutRepository? {
      EnsureRepositoryEffect(w.disk, pc.target.location);
      EntryKeepsBlobs(w, w', RepositoryDir(pc.target.location));
    } else if pc.PutImage? {
      EnsureImageEffect(w.disk, pc.target.location);
      EntryKeepsBlobs(w, w', TagParent(pc.target.location));
    } else if pc.PutLinking? {
      HexIsComponent(env.sha(pc.body));
      SymlinkEffect(w.disk, NameOf(env, pc.body), drawn);
      EntryKeepsBlobs(w, w', TempTagPath(drawn));
    } else if pc.PutRenaming? {
      TempLinkOf(env, w, c);
      InstallTagEffect(w.disk, pc.tmp, pc.target.location, pc.target.reference.tag);
      RenamingKeepsBlobs(w, w', pc.tmp, TagPath(pc.target.location, pc.target.reference.tag));
    } else {
      assert w'.disk.tree == w.disk.tree && w'.origin == w.origin && w'.uploads == w.uploads;
      SameTreeKeepsBlobs(w, w');
    }
  }

  lemma SameTreeKeepsBlobs(w: World, w': World)
    requires w'.disk.tree == w.disk.tree && w'.origin == w.origin && w'.uploads == w.uploads
    ensures SameBlobs(w, w')
  {
  }

  lemma EntryKeepsBlobs(w: World, w': World, p: Path)
    requires p != [] && p[0] != "blobs" && w'.origin == w.origin && w'.uploads == w.uploads
    requires forall q | q != p :: q in w'.disk.tree <==> q in w.disk.tree
    ensures SameBlobs(w, w')
  {
    assert forall name :: BlobEntry(name)[0] == "blobs";
  }

  lemma RenamingKeepsBlobs(w: World, w': World, tmp: Text, dst: Path)
    requires TempTagPath(tmp) in w.disk.tree && |dst| == 4
    requires w'.disk == Moved(w.disk, TempTagPath(tmp), dst) && w'.origin == w.origin && w'.uploads == w.uploads
    ensures SameBlobs(w, w')
  {
    assert forall name :: BlobEntry(name)[0] == "blobs" && |BlobEntry(name)| == 2;
    assert TempTagPath(tmp)[0] == "tags";
  }

  lemma BeginningKeepsBlobs(env: Env, w: World, c: Client, drawn: Text)
    requires Base(env, w) && BlobsHash(env, w) && c in w.procs && w.procs[c].Beginning?
    requires StepBeginning(w, c, drawn).Some?
    ensures var w' := StepBeginning(w, c, drawn).value;
            && BlobsHash(env, w')
            && forall name | BlobEntry(name) in w.disk.tree :: BlobEntry(name) in w'.disk.tree
  {
    hide WellFormed, UploadsHold, TempLinks;
    UploadNameIsComponent(drawn);
    OpenTruncateEffect(w.disk, "uploads", drawn + ".partial");
    var w' := StepBeginning(w, c, drawn).value;
    assert UploadPath(drawn)[0] == "uploads";
    forall name
      ensures BlobEntry(name) != UploadPath(drawn)
    {
      assert BlobEntry(name)[0] == "blobs";
    }
    forall name, u | BlobFrom(w', name, u) && u in w'.uploads
      ensures NameOf(env, w'.uploads[u].sent) == name
    {
      assert BlobFrom(w, name, u) && u in w.uploads;
    }
  }

  lemma FinishingKeepsBlobs(env: Env, w: World, c: Client)
    requires Base(env, w) && BlobsHash(env, w) && c in w.procs && w.procs[c].FinalizeRenaming?
    ensures var w' := StepFinalizeRenaming(w, c, w.procs[c]);
            && BlobsHash(env, w')
            && forall name | BlobEntry(name) in w.disk.tree :: BlobEntry(name) in w'.disk.tree
  {
    hide WellFormed, UploadsHold, TempLinks, ClientsHold;
    var pc := w.procs[c];
    ClientHolds(env, w, c);
    FinishUploadEffect(w.disk, pc.upload, pc.digest);
    var w' := StepFinalizeRenaming(w, c, pc);
    assert UploadPath(pc.upload)[0] == "uploads";
    assert BlobPath(pc.digest) == BlobEntry(Hex(pc.digest));
    forall name
      ensures BlobEntry(name) != UploadPath(pc.upload)
      ensures BlobEntry(name) == BlobPath(pc.digest) <==> name == Hex(pc.digest)
    {
      assert BlobEntry(name)[0] == "blobs" && BlobEntry(name)[1] == name && BlobPath(pc.digest)[1] == Hex(pc.digest);
    }
    forall name, u | BlobFrom(w', name, u) && u in w'.uploads
      ensures NameOf(env, w'.uploads[u].sent) == name
    {
      if name != Hex(pc.digest) || UploadPath(pc.upload) !in w.disk.tree {
        assert BlobFrom(w, name, u);
      }
    }
  }

  lemma HashingKeepsBlobs(env: Env, w: World, c: Client, count: nat)
    requires Base(env, w) && BlobsHash(env, w) && c in w.procs && w.procs[c].FinalizeHashing?
    requires StepFinalizeHashing(env, w, c, w.procs[c], count).Some?
    ensures var w' := StepFinalizeHashing(env, w, c, w.procs[c], count).value;
            BlobsHash(env, w') && SameBlobs(w, w')
  {
    hide Base;
    var w' := StepFinalizeHashing(env, w, c, w.procs[c], count).value;
    if count == 0 {
      FinalizeDecides(env, w, c);
    }
    assert forall name, u | BlobFrom(w', name, u) :: BlobFrom(w, name, u);
  }

  /**
   An append keeps the promise about blobs exactly when it overlaps no finalize and no blob,
   or the longer content happens to have the same hash.
   */
  lemma AppendKeepsBlobsExactly(env: Env, w: World, c: Client, count: nat)
    requires Base(env, w) && BlobsHash(env, w) && c in w.procs && w.procs[c].ChunkWriting? && count > 0
    requires StepChunkWriting(w, c, w.procs[c], count).Some?
    ensures var pc := w.procs[c];
            var w' := StepChunkWriting(w, c, pc, count).value;
            && SameBlobs(w, w'.(uploads := w.uploads))
            && (BlobsHash(env, w') <==>
                  !Overlaps(w, c, Go(count, ""))
                  || env.sha(w.uploads[pc.upload].sent + pc.rest[..count]) == env.sha(w.uploads[pc.upload].sent))
  {
    hide WellFormed, UploadsHold, BlobsHaveOrigin, TempLinks, ClientsHold;
    var pc := w.procs[c];
    var u := pc.upload;
    var w' := StepChunkWriting(w, c, pc, count).value;
    var before, after := w.uploads[u].sent, w.uploads[u].sent + pc.rest[..count];
    assert forall name, v :: BlobFrom(w', name, v) <==> BlobFrom(w, name, v);
    if BlobsHash(env, w') && Overlaps(w, c, Go(count, "")) {
      if FinalizingConfirmed(w, u) {
        var e :| e in w.procs && w.procs[e].FinalizeRenaming? && w.procs[e].upload == u;
        assert w'.procs[e] == w.procs[e];
      } else {
        var name :| BlobFrom(w, name, u);
        assert BlobFrom(w', name, u);
        HexInjective(env.sha(before), env.sha(after));
      }
    }
  }

  // ---------- Whole runs ----------

  lemma StepKeepsBlobs(env: Env, w: World, c: Client, act: Action)
    requires Base(env, w) && BlobsHash(env, w) && Step(env, w, c, act).Some? && !Overlaps(w, c, act)
    ensures BlobsHash(env, Step(env, w, c, act).value)
  {
    hide Base, BlobsHash, SameBlobs, Overlaps;
    StepMovesOne(env, w, c, act);
    var w' := Step(env, w, c, act).value;
    if !act.Go? {
      SameTreeKeepsBlobs(w, w');
      BlobsFramed(env, w, w', c);
    } else {
      var pc := w.procs[c];
      match pc {
        case Beginning => BeginningKeepsBlobs(env, w, c, act.drawn);
        case FinalizeHashing(_, _, _, _) => HashingKeepsBlobs(env, w, c, act.count);
        case FinalizeRenaming(_, _) => FinishingKeepsBlobs(env, w, c);
        case ChunkWriting(_, _, _, _) =>
          if act.count > 0 {
            OverlapIgnoresDraw(w, c, act.count, act.drawn);
            AppendKeepsBlobsExactly(env, w, c, act.count);
          } else {
            SameTreeKeepsBlobs(w, w');
            BlobsFramed(env, w, w', c);
          }
        case _ =>
          PutKeepsBlobs(env, w, c, act.count, act.drawn);
          NotRenaming(env, w, c, act.count, act.drawn);
          BlobsFramed(env, w, w', c);
      }
    }
  }

  lemma OverlapIgnoresDraw(w: World, c: Client, count: nat, drawn: Text)
    ensures Overlaps(w, c, Go(count, drawn)) == Overlaps(w, c, Go(count, ""))
  {
  }

  lemma NotRenaming(env: Env, w: World, c: Client, count: nat, drawn: Text)
    requires c in w.procs && !TouchesBlobs(w.procs[c]) && Step(env, w, c, Go(count, drawn)).Some?
    requires c in Step(env, w, c, Go(count, drawn)).value.procs
    ensures !Step(env, w, c, Go(count, drawn)).value.procs[c].FinalizeRenaming?
  {
    hide OpenTruncate, EnsureDir, Symlink, Rename, Lookup, OpenExisting, BeingWritten;
  }

  lemma {:induction false} RunKeepsBlobs(env: Env, w: World, schedule: seq<Label>)
    requires Base(env, w) && BlobsHash(env, w) && Run(env, w, schedule).Some? && Disciplined(env, w, schedule)
    ensures Base(env, Run(env, w, schedule).value) && BlobsHash(env, Run(env, w, schedule).value)
    decreases |schedule|
  {
    hide Base, BlobsHash, Overlaps;
    if schedule != [] {
      var l := schedule[0];
      StepKeepsBase(env, w, l.client, l.action);
      StepKeepsBlobs(env, w, l.client, l.action);
      RunKeepsBlobs(env, Step(env, w, l.client, l.action).value, schedule[1..]);
    }
  }

  /** The bytes one step appends to upload `u`. */
  function ChunkOf(w: World, l: Label, u: Text): Bytes {
    if l.action.Go? && l.action.count > 0 && l.client in w.procs && w.procs[l.client].ChunkWriting?
       && w.procs[l.client].upload == u && l.action.count <= |w.procs[l.client].rest|
    then w.procs[l.client].rest[..l.action.count]
    else []
  }

  /** The bytes a schedule appends to upload `u`, in order. */
  ghost function Appended(env: Env, w: World, schedule: seq<Label>, u: Text): Bytes
    requires Run(env, w, schedule).Some?
    decreases |schedule|
  {
    if schedule == [] then []
    else
      var l := schedule[0];
      ChunkOf(w, l, u) + Appended(env, Step(env, w, l.client, l.action).value, schedule[1..], u)
  }

  function SentTo(w: World, u: Text): Bytes {
    if u in w.uploads then w.uploads[u].sent else []
  }

  lemma StepAppends(env: Env, w: World, l: Label, u: Text)
    requires Step(env, w, l.client, l.action).Some?
    ensures SentTo(Step(env, w, l.client, l.action).value, u) == SentTo(w, u) + ChunkOf(w, l, u)
  {
    hide OpenTruncate;
    if l.action.Go? && l.client in w.procs && (w.procs[l.client].ChunkWriting? || w.procs[l.client].Beginning?) {
      var chunk := ChunkOf(w, l, u);
      assert SentTo(w, u) + [] == SentTo(w, u);
    } else {
      OthersKeepUploads(env, w, l.client, l.action);
      assert SentTo(w, u) + [] == SentTo(w, u);
    }
  }

  lemma OthersKeepUploads(env: Env, w: World, c: Client, act: Action)
    requires Step(env, w, c, act).Some?
    requires act.Go? ==> !w.procs[c].ChunkWriting? && !w.procs[c].Beginning?
    ensures Step(env, w, c, act).value.uploads == w.uploads
  {
    hide OpenTruncate, EnsureDir, Symlink, Rename, Lookup, OpenExisting, BeingWritten;
  }

  lemma {:induction false} RunAppends(env: Env, w: World, schedule: seq<Label>, u: Text)
    requires Run(env, w, schedule).Some?
    ensures SentTo(Run(env, w, schedule).value, u) == SentTo(w, u) + Appended(env, w, schedule, u)
    decreases |schedule|
  {
    hide Step, SentTo, ChunkOf;
    if schedule != [] {
      var l := schedule[0];
      var next := Step(env, w, l.client, l.action).value;
      StepAppends(env, w, l, u);
      RunAppends(env, next, schedule[1..], u);
    }
  }

  /**
   In every disciplined run from an empty store, each blob hashes to its file name, and its
   bytes are, in order, all the chunk bytes appended to the upload whose finalize made it.
   */
  lemma BlobsAreWhatWasSent(env: Env, schedule: seq<Label>, name: Text)
    requires Run(env, EMPTY, schedule).Some? && Disciplined(env, EMPTY, schedule)
    requires IsComponent(name) && BlobEntry(name) in Run(env, EMPTY, schedule).value.disk.tree
    ensures var w := Run(env, EMPTY, schedule).value;
            && ReadFile(w.disk, BlobEntry(name)).Some?
            && NameOf(env, ReadFile(w.disk, BlobEntry(name)).value) == name
            && name in w.origin && w.origin[name] in w.uploads
            && ReadFile(w.disk, BlobEntry(name)).value == Appended(env, EMPTY, schedule, w.origin[name])
  {
    hide WellFormed, UploadsHold, BlobsHaveOrigin, ClientsHold, TempLinks, Run, Appended;
    EmptyIsBase(env);
    assert BlobsHash(env, EMPTY) by {
      assert forall n :: |BlobEntry(n)| == 2;
    }
    RunKeepsBlobs(env, EMPTY, schedule);
    var w := Run(env, EMPTY, schedule).value;
    BlobHolds(w, name);
    RunAppends(env, EMPTY, schedule, w.origin[name]);
    assert [] + Appended(env, EMPTY, schedule, w.origin[name]) == Appended(env, EMPTY, schedule, w.origin[name]);
  }

  lemma StepKeepsEntries(env: Env, w: World, c: Client, act: Action, name: Text)
    requires Base(env, w) && Step(env, w, c, act).Some? && BlobEntry(name) in w.disk.tree
    ensures BlobEntry(name) in Step(env, w, c, act).value.disk.tree
  {
    hide Base, BlobsHash;
    if act.Go? {
      var pc := w.procs[c];
      match pc {
        case Beginning => BeginningKeepsEntries(env, w, c, act.drawn, name);
        case FinalizeRenaming(_, _) => FinishingKeepsEntries(env, w, c, name);
        case FinalizeHashing(_, _, _, _) =>
        case ChunkWriting(_, _, _, _) =>
        case _ => PutKeepsBlobs(env, w, c, act.count, act.drawn);
      }
    }
  }

  lemma BeginningKeepsEntries(env: Env, w: World, c: Client, drawn: Text, name: Text)
    requires Base(env, w) && c in w.procs && StepBeginning(w, c, drawn).Some? && BlobEntry(name) in w.disk.tree
    ensures BlobEntry(name) in StepBeginning(w, c, drawn).value.disk.tree
  {
    hide WellFormed, UploadsHold, BlobsHaveOrigin, TempLinks, ClientsHold;
    if IsComponent(drawn) {
      UploadNameIsComponent(drawn);
      OpenTruncateEffect(w.disk, "uploads", drawn + ".partial");
    }
  }

  lemma FinishingKeepsEntries(env: Env, w: World, c: Client, name: Text)
    requires Base(env, w) && c in w.procs && w.procs[c].FinalizeRenaming? && BlobEntry(name) in w.disk.tree
    ensures BlobEntry(name) in StepFinalizeRenaming(w, c, w.procs[c]).disk.tree
  {
    hide WellFormed, UploadsHold, BlobsHaveOrigin, TempLinks, ClientsHold;
    ClientHolds(env, w, c);
    FinishUploadEffect(w.disk, w.procs[c].upload, w.procs[c].digest);
    assert BlobEntry(name)[0] == "blobs" && UploadPath(w.procs[c].upload)[0] == "uploads";
  }

  lemma {:induction false} RunKeepsEntries(env: Env, w: World, schedule: seq<Label>, name: Text)
    requires Base(env, w) && Run(env, w, schedule).Some? && BlobEntry(name) in w.disk.tree
    ensures BlobEntry(name) in Run(env, w, schedule).value.disk.tree
    decreases |schedule|
  {
    hide Base, Step;
    if schedule != [] {
      var l := schedule[0];
      StepKeepsBase(env, w, l.client, l.action);
      StepKeepsEntries(env, w, l.client, l.action, name);
      RunKeepsEntries(env, Step(env, w, l.client, l.action).value, schedule[1..], name);
    }
  }

  /**
   Once present, a blob stays through any disciplined schedule, and its bytes never change, unless
   its old and new bytes are two different texts with one hash.
   */
  lemma BlobsNeverChange(env: Env, w: World, schedule: seq<Label>, name: Text)
    requires Base(env, w) && BlobsHash(env, w) && Run(env, w, schedule).Some? && Disciplined(env, w, schedule)
    requires IsComponent(name) && BlobEntry(name) in w.disk.tree
    ensures var w' := Run(env, w, schedule).value;
            var before, after := ReadFile(w.disk, BlobEntry(name)), ReadFile(w'.disk, BlobEntry(name));
            && before.Some? && after.Some?
            && env.sha(before.value) == env.sha(after.value)
            && (NoCollisions(env, {before.value, after.value}) ==> before == after)
  {
    hide WellFormed, UploadsHold, BlobsHaveOrigin, ClientsHold, TempLinks, Run;
    RunKeepsBlobs(env, w, schedule);
    RunKeepsEntries(env, w, schedule, name);
    var w' := Run(env, w, schedule).value;
    BlobHolds(w, name);
    BlobHolds(w', name);
    HexInjective(env.sha(ReadFile(w.disk, BlobEntry(name)).value), env.sha(ReadFile(w'.disk, BlobEntry(name)).value));
  }

  // ---------- Without the discipline ----------

  /** A chunk request that opened its file before the upload is finalized, and writes after. */
  const LATE_CHUNK := [
    Label(0, Call(NewUpload)), Label(0, Go(0, "u")),
    Label(1, Call(AddChunk("u", [7]))), Label(1, Go(0, "")), Label(1, Go(0, ""))]

  function FinalizeEmpty(env: Env): seq<Label> {
    [Label(2, Call(Finalize("u", env.sha([])))), Label(2, Go(0, "")), Label(2, Go(0, "")),
     Label(2, Go(0, "")), Label(2, Go(0, ""))]
  }

  const UPLOADED: Disk := Disk(FRESH.tree[UploadPath("u") := File(0)], map[0 := []], 1)

  ghost predicate Steps(env: Env, w: World, l: Label, w': World) {
    Step(env, w, l.client, l.action) == Some(w')
  }

  lemma RunFive(env: Env, s: seq<Label>, w0: World, w1: World, w2: World, w3: World, w4: World, w5: World)
    requires |s| == 5
    requires Steps(env, w0, s[0], w1) && Steps(env, w1, s[1], w2) && Steps(env, w2, s[2], w3)
    requires Steps(env, w3, s[3], w4) && Steps(env, w4, s[4], w5)
    ensures Run(env, w0, s) == Some(w5)
  {
    hide Step;
    assert s[1..][1..] == s[2..] && s[2..][1..] == s[3..] && s[3..][1..] == s[4..] && s[4..][1..] == [];
    assert Run(env, w4, s[4..]) == Run(env, w5, []);
    assert Run(env, w3, s[3..]) == Run(env, w4, s[4..]);
    assert Run(env, w2, s[2..]) == Run(env, w3, s[3..]);
  }

  lemma FirstUploadBegins(env: Env)
    ensures StepBeginning(EMPTY.At(0, Beginning), 0, "u") == Some(BEGUN)
  {
    hide Walk, Lookup, OpenTruncate, WellFormed;
    var w1 := EMPTY.At(0, Beginning);
    FreshIsWellFormed();
    OpenTruncateEffect(FRESH, "uploads", "u.partial");
    assert "u" + ".partial" == "u.partial" && UploadPath("u") == ["uploads", "u.partial"];
    assert UploadPath("u") !in FRESH.tree;
    assert Truncated(FRESH, UploadPath("u")) == UPLOADED;
    assert w1.procs[0 := Done(Began("u"))] == BEGUN.procs;
  }

  const BEGUN := World(UPLOADED, map[0 := Done(Began("u"))], map["u" := Upload(0, [])], {}, map[])

  lemma LateChunkOpens(env: Env)
    ensures var w := Run(env, EMPTY, LATE_CHUNK);
            && w.Some? && w.value.disk == UPLOADED && w.value.uploads == map["u" := Upload(0, [])]
            && w.value.procs == map[0 := Done(Began("u")), 1 := ChunkWriting("u", 0, [7], 0)]
  {
    hide Walk, Lookup, OpenTruncate, OpenExisting, WellFormed, Run, StepBeginning;
    FirstUploadBegins(env);
    UploadedIsWellFormed();
    assert "u" + ".partial" == "u.partial" && UploadPath("u") == ["uploads", "u.partial"];
    OpenExistingEffect(UPLOADED, "uploads", "u.partial");
    var w1 := EMPTY.At(0, Beginning);
    var w3 := BEGUN.At(1, ChunkCheck("u", [7]));
    var w4 := w3.At(1, ChunkOpen("u", [7]));
    var w5 := w4.At(1, ChunkWriting("u", 0, [7], 0));
    RunFive(env, LATE_CHUNK, EMPTY, w1, BEGUN, w3, w4, w5);
  }

  /** The steps of a finalize on the empty upload. */
  lemma FinalizeSteps(env: Env, w: World, next: Proc)
    requires w.disk == UPLOADED && 2 in w.procs
    requires var d := env.sha([]);
             || (w.procs[2] == FinalizeCheck("u", d) && next == FinalizeOpen("u", d))
             || (w.procs[2] == FinalizeOpen("u", d) && next == FinalizeHashing("u", d, 0, []))
             || (w.procs[2] == FinalizeHashing("u", d, 0, []) && next == FinalizeRenaming("u", d))
    ensures Steps(env, w, Label(2, Go(0, "")), w.At(2, next))
  {
    hide Walk, Lookup, OpenExisting, WellFormed;
    assert "u" + ".partial" == "u.partial" && UploadPath("u") == ["uploads", "u.partial"];
    UploadedIsWellFormed();
    OpenExistingEffect(UPLOADED, "uploads", "u.partial");
  }

  lemma FinalizeMiddle(env: Env, w1: World)
    requires w1.disk == UPLOADED && 2 in w1.procs && w1.procs[2] == FinalizeCheck("u", env.sha([]))
    ensures var go, d := Label(2, Go(0, "")), env.sha([]);
            var w2 := w1.At(2, FinalizeOpen("u", d));
            var w3 := w2.At(2, FinalizeHashing("u", d, 0, []));
            && Steps(env, w1, go, w2) && Steps(env, w2, go, w3)
            && Steps(env, w3, go, w3.At(2, FinalizeRenaming("u", d)))
  {
    hide Steps;
    var d := env.sha([]);
    var w2 := w1.At(2, FinalizeOpen("u", d));
    FinalizeSteps(env, w1, FinalizeOpen("u", d));
    FinalizeSteps(env, w2, FinalizeHashing("u", d, 0, []));
    FinalizeSteps(env, w2.At(2, FinalizeHashing("u", d, 0, [])), FinalizeRenaming("u", d));
  }

  function Renamed(env: Env, w: World): World {
    w.(disk := Moved(UPLOADED, UploadPath("u"), BlobPath(env.sha([]))), origin := w.origin[Hex(env.sha([])) := "u"])
      .At(2, Done(Finalized))
  }

  lemma FinalizeLastStep(env: Env, w: World)
    requires w.disk == UPLOADED && 2 in w.procs && w.procs[2] == FinalizeRenaming("u", env.sha([]))
    ensures Steps(env, w, Label(2, Go(0, "")), Renamed(env, w))
  {
    hide Walk, Lookup, Rename, WellFormed, Moved;
    UploadedIsWellFormed();
    FinishUploadEffect(UPLOADED, "u", env.sha([]));
  }

  lemma RenamedForgetsClient(env: Env, w: World, w': World)
    requires w' == w.(procs := w'.procs) && w'.procs[2 := Done(Finalized)] == w.procs[2 := Done(Finalized)]
    ensures Renamed(env, w') == Renamed(env, w)
  {
    hide Moved;
  }

  lemma RenamedIsBlob(env: Env, w: World)
    requires w.disk == UPLOADED
    ensures BlobFrom(Renamed(env, w), Hex(env.sha([])), "u")
  {
    assert BlobPath(env.sha([])) == BlobEntry(Hex(env.sha([])));
  }

  lemma FinalizeEmptyRenames(env: Env, w: World)
    requires w.disk == UPLOADED && 2 !in w.procs
    ensures Run(env, w, FinalizeEmpty(env)) == Some(Renamed(env, w))
  {
    hide Run, Moved, Steps, Renamed, Hex;
    var d := env.sha([]);
    var w1 := w.At(2, FinalizeCheck("u", d));
    var w2 := w1.At(2, FinalizeOpen("u", d));
    var w3 := w2.At(2, FinalizeHashing("u", d, 0, []));
    var w4 := w3.At(2, FinalizeRenaming("u", d));
    assert w4.procs[2 := Done(Finalized)] == w.procs[2 := Done(Finalized)];
    RenamedForgetsClient(env, w, w4);
    CallSteps(env, w, 2, Finalize("u", d));
    FinalizeMiddle(env, w1);
    FinalizeLastStep(env, w4);
    RunFive(env, FinalizeEmpty(env), w, w1, w2, w3, w4, Renamed(env, w4));
  }

  lemma CallSteps(env: Env, w: World, c: Client, request: Request)
    requires ValidRequest(request) && c !in w.procs
    ensures Steps(env, w, Label(c, Call(request)), w.At(c, Begin(request)))
  {
  }

  lemma UploadedIsWellFormed()
    ensures WellFormed(UPLOADED)
  {
    hide WellFormed, OpenTruncate;
    FreshIsWellFormed();
    OpenTruncateEffect(FRESH, "uploads", "u.partial");
    assert "u" + ".partial" == "u.partial" && UploadPath("u") == ["uploads", "u.partial"];
    assert Truncated(FRESH, UploadPath("u")) == UPLOADED;
  }

  /**
   The discipline is needed: here a schedule from the empty store leaves a blob named after
   the empty text that holds one byte.
   */
  lemma LateChunkChangesABlob(env: Env)
    ensures var schedule := LATE_CHUNK + FinalizeEmpty(env) + [LATE];
            var name := Hex(env.sha([]));
            && Run(env, EMPTY, schedule).Some?
            && ReadFile(Run(env, EMPTY, schedule).value.disk, BlobEntry(name)) == Some([7])
            && (env.sha([7]) != env.sha([]) ==> NameOf(env, [7]) != name)
            && !Disciplined(env, EMPTY, schedule)
  {
    hide Base, ReadFile, Moved, Disciplined, Overlaps, FinalizeEmpty, Run, BlobFrom;
    var before := LATE_CHUNK + FinalizeEmpty(env);
    LateChunkOpens(env);
    var w1 := Run(env, EMPTY, LATE_CHUNK).value;
    FinalizeEmptyRenames(env, w1);
    var w2 := Renamed(env, w1);
    RunInTwo(env, EMPTY, LATE_CHUNK, FinalizeEmpty(env));
    RunInTwo(env, EMPTY, before, [LATE]);
    EmptyIsBase(env);
    RunKeepsBase(env, EMPTY, before);
    RenamedIsBlob(env, w1);
    LateStepAppends(env, w2);
    if env.sha([7]) != env.sha([]) && NameOf(env, [7]) == Hex(env.sha([])) {
      HexInjective(env.sha([7]), env.sha([]));
    }
    if Disciplined(env, EMPTY, before + [LATE]) {
      DisciplineHoldsAtTheEnd(env, EMPTY, before, [LATE]);
      LateStepOverlaps(env, w2, Hex(env.sha([])));
      assert false;
    }
  }

  const LATE := Label(1, Go(1, ""))

  lemma LateStepAppends(env: Env, w: World)
    requires Base(env, w) && 1 in w.procs && w.procs[1] == ChunkWriting("u", 0, [7], 0)
    requires w.uploads == map["u" := Upload(0, [])] && BlobFrom(w, Hex(env.sha([])), "u")
    ensures Run(env, w, [LATE]).Some?
    ensures ReadFile(Run(env, w, [LATE]).value.disk, BlobEntry(Hex(env.sha([])))) == Some([7])
  {
    hide Base, ReadFile;
    var name := Hex(env.sha([]));
    assert [7][..1] == [7] && [] + [7] == [7] && [LATE][1..] == [];
    var w' := StepChunkWriting(w, 1, w.procs[1], 1).value;
    StepKeepsBase(env, w, 1, LATE.action);
    HexIsComponent(env.sha([]));
    BlobOfBase(env, w', name);
  }

  lemma BlobOfBase(env: Env, w: World, name: Text)
    requires Base(env, w) && BlobEntry(name) in w.disk.tree && IsComponent(name)
    ensures name in w.origin && w.origin[name] in w.uploads
    ensures ReadFile(w.disk, BlobEntry(name)) == Some(w.uploads[w.origin[name]].sent)
  {
    BlobHolds(w, name);
  }

  lemma LateStepOverlaps(env: Env, w: World, name: Text)
    requires 1 in w.procs && w.procs[1] == ChunkWriting("u", 0, [7], 0) && BlobFrom(w, name, "u")
    ensures !Disciplined(env, w, [LATE])
  {
  }

  lemma {:induction false} DisciplineHoldsAtTheEnd(env: Env, w: World, s: seq<Label>, t: seq<Label>)
    requires Run(env, w, s).Some? && Disciplined(env, w, s + t)
    ensures Disciplined(env, Run(env, w, s).value, t)
    decreases |s|
  {
    if s == [] {
      assert s + t == t;
    } else {
      assert (s + t)[1..] == s[1..] + t;
      DisciplineHoldsAtTheEnd(env, Step(env, w, s[0].client, s[0].action).value, s[1..], t);
    }
  }
}
