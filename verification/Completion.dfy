/**
 A put or a finalize that is left alone completes; and a second put of the same manifest, while it
 rewrites the file, shows a reader an empty manifest under a tag that never moved.
 */
module Completion {
  import opened Prelude
  import opened Digests
  import opened Disk
  import opened Layout
  import opened Effects
  import opened Machine
  import opened Invariant
  import opened Refinement
  import opened ManifestTheorems
  import opened BlobTheorems

  /** Nothing stands in the way of a put that draws this temporary name. */
  predicate Clear(tree: Tree, location: ImageLocation, drawn: Text) {
    && (RepositoryDir(location) in tree ==> tree[RepositoryDir(location)].Dir?)
    && TempTagPath(drawn) !in tree
    && IsComponent(drawn) && drawn != location.repository
  }

  /** A put to a tag that has not come to its rename yet. */
  predicate Preparing(pc: Proc, target: ManifestReference, body: Bytes) {
    && target.reference.Tag?
    && (|| pc.PutStart? || (pc.PutWriting? && pc.off <= |pc.body|) || pc.PutWritten? || pc.PutRepository?
        || pc.PutImage? || pc.PutLinking?)
    && pc.target == target && pc.body == body
  }

  predicate AtRename(pc: Proc, target: ManifestReference, body: Bytes) {
    pc.PutRenaming? && pc.target == target && pc.body == body
  }

  /** How many steps are left before the rename. */
  function StepsLeft(pc: Proc): nat {
    match pc
    case PutStart(_, _) => 7
    case PutWriting(_, body, _, off) => if off < |body| then 6 else 5
    case PutWritten(_, _) => 4
    case PutRepository(_, _) => 3
    case PutImage(_, _) => 2
    case PutLinking(_, _) => 1
    case _ => 0
  }

  /** Writes all there is in one call. */
  function PutCount(pc: Proc): nat {
    if pc.PutWriting? && pc.off < |pc.body| then |pc.body| - pc.off else 0
  }

  /** A step brought the put nearer to its rename, and nothing into its way. */
  predicate Nearer(w: World, w': World, c: Client, target: ManifestReference, body: Bytes, drawn: Text) {
    && c in w.procs && c in w'.procs
    && w'.payloads <= w.payloads + {body}
    && StepsLeft(w'.procs[c]) < StepsLeft(w.procs[c])
    && (AtRename(w'.procs[c], target, body)
        || (Preparing(w'.procs[c], target, body) && Clear(w'.disk.tree, target.location, drawn)))
  }

  lemma WritingComesNearer(env: Env, w: World, c: Client, target: ManifestReference, body: Bytes, drawn: Text)
    requires Base(env, w) && c in w.procs && Preparing(w.procs[c], target, body) && env.parses(body)
    requires Clear(w.disk.tree, target.location, drawn) && (w.procs[c].PutStart? || w.procs[c].PutWriting?)
    ensures var next := Step(env, w, c, Go(PutCount(w.procs[c]), drawn));
            next.Some? && Nearer(w, next.value, c, target, body, drawn)
  {
    hide WellFormed, UploadsHold, BlobsHaveOrigin, ClientsHold, TempLinks, OpenTruncate, WriteAt;
    if w.procs[c].PutStart? {
      HexIsComponent(env.sha(body));
      OpenTruncateEffect(w.disk, "manifests", NameOf(env, body));
      var p := ManifestEntry(NameOf(env, body));
      assert p[0] == "manifests" && TempTagPath(drawn)[0] == RepositoryDir(target.location)[0] == "tags";
    } else {
      var pc, count := w.procs[c], PutCount(w.procs[c]);
      if count > 0 {
        WritingKeepsTree(w.disk, pc.ino, pc.off, pc.body[pc.off..pc.off + count]);
      }
    }
  }

  lemma WritingKeepsTree(disk: Disk, ino: Ino, off: nat, chunk: Bytes)
    ensures WriteAt(disk, ino, off, chunk).tree == disk.tree
  {
  }

  lemma LinkingComesNearer(env: Env, w: World, c: Client, target: ManifestReference, body: Bytes, drawn: Text)
    requires Base(env, w) && c in w.procs && Preparing(w.procs[c], target, body)
    requires Clear(w.disk.tree, target.location, drawn) && !w.procs[c].PutStart? && !w.procs[c].PutWriting?
    ensures var next := Step(env, w, c, Go(PutCount(w.procs[c]), drawn));
            next.Some? && Nearer(w, next.value, c, target, body, drawn)
  {
    hide Shape, LinksResolve, Inodes, UploadsHold, BlobsHaveOrigin, ClientsHold, TempLinks, EnsureDir, Symlink, Lookup;
    var pc := w.procs[c];
    ClientHolds(env, w, c);
    if pc.PutWritten? {
      LookupTagParent(w.disk.tree, target.location);
    } else if pc.PutRepository? {
      EnsureRepositoryEffect(w.disk, target.location);
      assert TempTagPath(drawn)[1] == drawn && RepositoryDir(target.location)[1] == target.location.repository;
    } else if pc.PutImage? {
      EnsureImageEffect(w.disk, target.location);
      assert |TagParent(target.location)| == 3 && |TempTagPath(drawn)| == 2 && |RepositoryDir(target.location)| == 2;
    } else {
      HexIsComponent(env.sha(body));
      SymlinkEffect(w.disk, NameOf(env, body), drawn);
    }
  }

  /** Every step is the client's own. */
  predicate OnlyBy(schedule: seq<Label>, c: Client) {
    forall l | l in schedule :: l.client == c && l.action.Go?
  }

  lemma RunCons(env: Env, w: World, first: Label, next: World, rest: seq<Label>)
    requires Step(env, w, first.client, first.action) == Some(next)
    ensures Run(env, w, [first] + rest) == Run(env, next, rest)
  {
    hide Step;
    assert ([first] + rest)[1..] == rest;
  }

  lemma {:induction false} ReachesRename(env: Env, w: World, c: Client, target: ManifestReference, body: Bytes,
                                         drawn: Text)
    returns (schedule: seq<Label>, w': World)
    requires Base(env, w) && c in w.procs && Preparing(w.procs[c], target, body) && env.parses(body)
    requires Clear(w.disk.tree, target.location, drawn)
    ensures Run(env, w, schedule) == Some(w') && OnlyBy(schedule, c)
    ensures c in w'.procs && AtRename(w'.procs[c], target, body) && w'.procs == w.procs[c := w'.procs[c]]
    ensures w'.payloads <= w.payloads + {body}
    decreases StepsLeft(w.procs[c])
  {
    hide Base, Step, Clear, Run;
    var l := Label(c, Go(PutCount(w.procs[c]), drawn));
    if w.procs[c].PutStart? || w.procs[c].PutWriting? {
      WritingComesNearer(env, w, c, target, body, drawn);
    } else {
      LinkingComesNearer(env, w, c, target, body, drawn);
    }
    var next := Step(env, w, c, l.action).value;
    StepKeepsBase(env, w, c, l.action);
    StepMovesOne(env, w, c, l.action);
    if AtRename(next.procs[c], target, body) {
      RunCons(env, w, l, next, []);
      RunNothing(env, next);
      schedule, w' := [l] + [], next;
    } else {
      var rest, last := ReachesRename(env, next, c, target, body, drawn);
      RunCons(env, w, l, next, rest);
      schedule, w' := [l] + rest, last;
    }
  }

  lemma RunNothing(env: Env, w: World)
    ensures Run(env, w, []) == Some(w)
  {
  }

  /**
   From any state the store reaches, a put to a tag that is left alone completes: it is stored, its tag
   gives its bytes, and no other client has moved.
   */
  lemma PutCompletes(env: Env, w: World, a: Registry, c: Client, target: ManifestReference, body: Bytes, drawn: Text)
    returns (schedule: seq<Label>, w': World, a': Registry)
    requires Refines(env, w, a) && c in w.procs && w.procs[c] == PutStart(target, body) && env.parses(body)
    requires target.reference.Tag? && Clear(w.disk.tree, target.location, drawn)
    requires NoCollisions(env, w.payloads + {body})
    ensures Run(env, w, schedule) == Some(w') && OnlyBy(schedule, c)
    ensures w'.procs == w.procs[c := Done(Stored(env.sha(body)))] && w'.payloads <= w.payloads + {body}
    ensures Refines(env, w', a') && Find(a', target) == Some(body)
  {
    hide Refines, Clear, Step, Run, Trace, AcceptAll, StepPutRenaming;
    RefinesIsBase(env, w, a);
    var first, mid := ReachesRename(env, w, c, target, body, drawn);
    assert NoCollisions(env, mid.payloads);
    RunRefines(env, w, a, first);
    var between := AcceptAll(a, Trace(env, w, first)).value;
    FinishedPutIsVisible(env, mid, between, c, drawn);
    RenamingKeepsPayloads(env, mid, c);
    w' := StepPutRenaming(env, mid, c, mid.procs[c]).value;
    a' := between.(tags := between.tags[TagKey(target.location, target.reference.tag) := body]);
    var last := [Label(c, Go(0, drawn))] + [];
    RunCons(env, mid, Label(c, Go(0, drawn)), w', []);
    RunNothing(env, w');
    RunInTwo(env, w, first, last);
    schedule := first + last;
  }

  lemma RefinesIsBase(env: Env, w: World, a: Registry)
    requires Refines(env, w, a)
    ensures Base(env, w)
  {
    hide Base;
  }

  lemma RenamingKeepsPayloads(env: Env, w: World, c: Client)
    requires c in w.procs && w.procs[c].PutRenaming? && StepPutRenaming(env, w, c, w.procs[c]).Some?
    ensures StepPutRenaming(env, w, c, w.procs[c]).value.payloads == w.payloads
  {
    hide Rename;
  }

  // ---------- A finalize left alone ----------

  /** What a finalize that nobody disturbs replies. */
  ghost function Verdict(env: Env, w: World, upload: Text, digest: Digest): Reply {
    if UploadPath(upload) !in w.disk.tree || upload !in w.uploads then Failed(UploadDoesNotExist)
    else if env.sha(w.uploads[upload].sent) != digest then Failed(DigestMismatch)
    else Finalized
  }

  lemma HashingStep(env: Env, w: World, c: Client, drawn: Text)
    requires Base(env, w) && c in w.procs && w.procs[c].FinalizeHashing?
    ensures var pc := w.procs[c];
            && pc.upload in w.uploads && |pc.seen| <= |w.uploads[pc.upload].sent|
            && var left := |w.uploads[pc.upload].sent| - |pc.seen|;
            && (left > 0 ==>
                  exists next :: Step(env, w, c, Go(1, drawn)) == Some(w.At(c, next)) && next.FinalizeHashing?
                    && next.upload == pc.upload && next.digest == pc.digest && |next.seen| == |pc.seen| + 1)
            && (left == 0 ==>
                  Step(env, w, c, Go(0, drawn))
                  == Some(w.At(c, if env.sha(w.uploads[pc.upload].sent) == pc.digest
                                  then FinalizeRenaming(pc.upload, pc.digest)
                                  else Done(Failed(DigestMismatch)))))
  {
    hide WellFormed, BlobsHaveOrigin, TempLinks;
    ClientHolds(env, w, c);
    var pc := w.procs[c];
    if |pc.seen| < |w.uploads[pc.upload].sent| {
      var next := StepFinalizeHashing(env, w, c, pc, 1).value.procs[c];
      assert Step(env, w, c, Go(1, drawn)) == Some(w.At(c, next));
    } else {
      var sent := w.uploads[pc.upload].sent;
      assert pc.seen == sent[..|sent|] == sent;
    }
  }

  /** The hash loop, left alone, comes to its verdict; the disk stays as it is. */
  lemma {:induction false} HashingEnds(env: Env, w: World, c: Client) returns (schedule: seq<Label>, w': World)
    requires Base(env, w) && c in w.procs && w.procs[c].FinalizeHashing?
    ensures var pc := w.procs[c];
            && pc.upload in w.uploads
            && w' == w.At(c, if env.sha(w.uploads[pc.upload].sent) == pc.digest
                             then FinalizeRenaming(pc.upload, pc.digest) else Done(Failed(DigestMismatch)))
    ensures Run(env, w, schedule) == Some(w') && OnlyBy(schedule, c)
    decreases if w.procs[c].FinalizeHashing? && w.procs[c].upload in w.uploads
              then |w.uploads[w.procs[c].upload].sent| - |w.procs[c].seen| else 0
  {
    hide Base, Step, Run;
    HashingStep(env, w, c, "");
    var pc := w.procs[c];
    if |pc.seen| == |w.uploads[pc.upload].sent| {
      w' := Step(env, w, c, Go(0, "")).value;
      RunNothing(env, w');
      RunCons(env, w, Label(c, Go(0, "")), w', []);
      schedule := [Label(c, Go(0, ""))] + [];
    } else {
      var next: Proc :| Step(env, w, c, Go(1, "")) == Some(w.At(c, next)) && next.FinalizeHashing?
                        && next.upload == pc.upload && next.digest == pc.digest && |next.seen| == |pc.seen| + 1;
      StepKeepsBase(env, w, c, Go(1, ""));
      HashingStep(env, w.At(c, next), c, "");
      var rest, last := HashingEnds(env, w.At(c, next), c);
      RunCons(env, w, Label(c, Go(1, "")), w.At(c, next), rest);
      schedule, w' := [Label(c, Go(1, ""))] + rest, last;
      MovedTwice(w, c, next, last.procs[c]);
    }
  }

  lemma MovedTwice(w: World, c: Client, first: Proc, second: Proc)
    ensures w.At(c, first).At(c, second) == w.At(c, second)
  {
    assert w.procs[c := first][c := second] == w.procs[c := second];
  }

  lemma FinalizeOpens(env: Env, w: World, c: Client)
    requires Base(env, w) && c in w.procs && w.procs[c].FinalizeCheck?
    ensures var pc := w.procs[c];
            var found := w.At(c, FinalizeOpen(pc.upload, pc.digest));
            if UploadPath(pc.upload) !in w.disk.tree || pc.upload !in w.uploads then
              Step(env, w, c, Go(0, "")) == Some(w.Fail(c, UploadDoesNotExist))
            else
              && Step(env, w, c, Go(0, "")) == Some(found)
              && Step(env, found, c, Go(0, ""))
                 == Some(found.At(c, FinalizeHashing(pc.upload, pc.digest, w.uploads[pc.upload].ino, [])))
  {
    hide WellFormed, BlobsHaveOrigin, TempLinks, OpenExisting, Exists;
    var pc := w.procs[c];
    ClientHolds(env, w, c);
    UploadNameIsComponent(pc.upload);
    OpenExistingEffect(w.disk, "uploads", pc.upload + ".partial");
    if UploadPath(pc.upload) in w.disk.tree {
      UploadFile(w, pc.upload);
    }
  }

  lemma FinalizeMoves(env: Env, w: World, c: Client)
    requires Base(env, w) && c in w.procs && w.procs[c].FinalizeRenaming?
    requires w.procs[c].upload in w.uploads && UploadPath(w.procs[c].upload) in w.disk.tree
    ensures var pc := w.procs[c];
            && Step(env, w, c, Go(0, "")).Some?
            && var next := Step(env, w, c, Go(0, "")).value;
            && next.procs == w.procs[c := Done(Finalized)]
            && ReadFile(next.disk, BlobPath(pc.digest)) == Some(w.uploads[pc.upload].sent)
            && UploadPath(pc.upload) !in next.disk.tree
            && forall p | p != BlobPath(pc.digest) && p != UploadPath(pc.upload) ::
                 (p in next.disk.tree <==> p in w.disk.tree) && (p in w.disk.tree ==> next.disk.tree[p] == w.disk.tree[p])
  {
    hide WellFormed, BlobsHaveOrigin, TempLinks, Rename, OpenExisting;
    var pc := w.procs[c];
    ClientHolds(env, w, c);
    FinishUploadEffect(w.disk, pc.upload, pc.digest);
    UploadFile(w, pc.upload);
    HexIsComponent(pc.digest);
    var next := Step(env, w, c, Go(0, "")).value;
    OpenExistingEffect(next.disk, "blobs", Hex(pc.digest));
    assert UploadPath(pc.upload)[0] == "uploads" && BlobPath(pc.digest)[0] == "blobs";
  }

  /**
   From any state the store reaches, a finalize that is left alone comes to its verdict. If the upload's
   bytes hash to the requested digest, the upload becomes that blob, with those bytes; otherwise nothing changes.
   */
  lemma FinalizeCompletes(env: Env, w: World, c: Client, upload: Text, digest: Digest)
    returns (schedule: seq<Label>, w': World)
    requires Base(env, w) && c in w.procs && w.procs[c] == FinalizeCheck(upload, digest)
    ensures Run(env, w, schedule) == Some(w') && OnlyBy(schedule, c)
    ensures w'.procs == w.procs[c := Done(Verdict(env, w, upload, digest))]
    ensures !Verdict(env, w, upload, digest).Finalized? ==> w'.disk == w.disk
    ensures Verdict(env, w, upload, digest).Finalized? ==>
              && ReadFile(w'.disk, ["blobs", Hex(digest)]) == Some(w.uploads[upload].sent)
              && ["uploads", upload + ".partial"] !in w'.disk.tree
              && forall p | p != ["blobs", Hex(digest)] && p != ["uploads", upload + ".partial"] ::
                   (p in w'.disk.tree <==> p in w.disk.tree) && (p in w.disk.tree ==> w'.disk.tree[p] == w.disk.tree[p])
  {
    hide Base, Step, Run, ReadFile;
    FinalizeOpens(env, w, c);
    var l := Label(c, Go(0, ""));
    var next := Step(env, w, c, Go(0, "")).value;
    if UploadPath(upload) !in w.disk.tree || upload !in w.uploads {
      RunNothing(env, next);
      RunCons(env, w, l, next, []);
      schedule, w' := [l] + [], next;
    } else {
      StepKeepsBase(env, w, c, Go(0, ""));
      var hashing := Step(env, next, c, Go(0, "")).value;
      StepKeepsBase(env, next, c, Go(0, ""));
      var middle, judged := HashingEnds(env, hashing, c);
      RunCons(env, next, l, hashing, middle);
      RunCons(env, w, l, next, [l] + middle);
      schedule, w' := [l] + ([l] + middle), judged;
      assert w'.procs == w.procs[c := w'.procs[c]];
      if env.sha(w.uploads[upload].sent) == digest {
        BaseAfter(env, w, schedule);
        FinalizeMoves(env, judged, c);
        w' := Step(env, judged, c, Go(0, "")).value;
        RunNothing(env, w');
        RunCons(env, judged, l, w', []);
        RunInTwo(env, w, schedule, [l] + []);
        schedule := schedule + ([l] + []);
      }
    }
  }

  lemma BaseAfter(env: Env, w: World, schedule: seq<Label>)
    requires Base(env, w) && Run(env, w, schedule).Some?
    ensures Base(env, Run(env, w, schedule).value)
  {
    hide Base, Run;
    RunKeepsBase(env, w, schedule);
  }

  // ---------- A chunk, a new upload and a read left alone ----------

  lemma ChunkOpens(env: Env, w: World, c: Client)
    requires Base(env, w) && c in w.procs && w.procs[c].ChunkCheck?
    ensures IsComponent(w.procs[c].upload)
    ensures var pc := w.procs[c];
            var found := w.At(c, ChunkOpen(pc.upload, pc.body));
            if UploadPath(pc.upload) !in w.disk.tree then
              Step(env, w, c, Go(0, "")) == Some(w.Fail(c, UploadDoesNotExist))
            else
              && pc.upload in w.uploads
              && Step(env, w, c, Go(0, "")) == Some(found)
              && Step(env, found, c, Go(0, ""))
                 == Some(found.At(c, ChunkWriting(pc.upload, w.uploads[pc.upload].ino, pc.body, 0)))
  {
    hide WellFormed, BlobsHaveOrigin, TempLinks, OpenExisting, Exists;
    var pc := w.procs[c];
    ClientHolds(env, w, c);
    UploadNameIsComponent(pc.upload);
    OpenExistingEffect(w.disk, "uploads", pc.upload + ".partial");
    if UploadPath(pc.upload) in w.disk.tree {
      UploadFile(w, pc.upload);
    }
  }

  /** An upload with its bytes appended, and nothing else changed. */
  predicate Appended(w: World, w': World, c: Client, upload: Text, body: Bytes)
    requires upload in w.uploads
  {
    && w'.procs == w.procs[c := Done(Accepted(|body|))]
    && w'.uploads == w.uploads[upload := Upload(w.uploads[upload].ino, w.uploads[upload].sent + body)]
    && w'.disk.tree == w.disk.tree
  }

  lemma ChunkWrites(env: Env, w: World, c: Client) returns (schedule: seq<Label>, w': World)
    requires c in w.procs && w.procs[c].ChunkWriting? && w.procs[c].upload in w.uploads
    requires w.procs[c].completed == 0
    ensures Run(env, w, schedule) == Some(w') && OnlyBy(schedule, c)
    ensures Appended(w, w', c, w.procs[c].upload, w.procs[c].rest)
  {
    hide Step, Run;
    var pc, done := w.procs[c], Label(c, Go(0, ""));
    var sent := w.uploads[pc.upload].sent;
    if pc.rest == [] {
      w' := w.At(c, Done(Accepted(0)));
      WritingStep(env, w, c, 0);
      RunNothing(env, w');
      RunCons(env, w, done, w', []);
      schedule := [done] + [];
      assert sent + pc.rest == sent;
    } else {
      var n := |pc.rest|;
      WritingStep(env, w, c, n);
      var next := Step(env, w, c, Go(n, "")).value;
      WritingStep(env, next, c, 0);
      w' := next.At(c, Done(Accepted(n)));
      RunNothing(env, w');
      RunCons(env, next, done, w', []);
      RunCons(env, w, Label(c, Go(n, "")), next, [done] + []);
      schedule := [Label(c, Go(n, ""))] + ([done] + []);
      assert pc.rest[..n] == pc.rest;
    }
  }

  lemma WritingStep(env: Env, w: World, c: Client, count: nat)
    requires c in w.procs && w.procs[c].ChunkWriting? && w.procs[c].upload in w.uploads
    requires count == |w.procs[c].rest|
    ensures Step(env, w, c, Go(count, "")) == StepChunkWriting(w, c, w.procs[c], count)
    ensures StepChunkWriting(w, c, w.procs[c], count).Some?
    ensures var pc, w' := w.procs[c], StepChunkWriting(w, c, w.procs[c], count).value;
            if count == 0 then w' == w.At(c, Done(Accepted(pc.completed)))
            else
              && w'.procs == w.procs[c := ChunkWriting(pc.upload, pc.ino, [], pc.completed + count)]
              && w'.disk.tree == w.disk.tree
              && w'.uploads == w.uploads[pc.upload := Upload(w.uploads[pc.upload].ino,
                                                             w.uploads[pc.upload].sent + pc.rest[..count])]
  {
    assert w.procs[c].rest[count..] == [];
  }

  /**
   From any state the store reaches, a chunk that is left alone is appended whole to its upload, behind all that
   was there, and accepted with its length. Without the upload it is refused and nothing changes.
   */
  lemma ChunkCompletes(env: Env, w: World, c: Client, upload: Text, body: Bytes)
    returns (schedule: seq<Label>, w': World)
    requires Base(env, w) && c in w.procs && w.procs[c] == ChunkCheck(upload, body)
    ensures Run(env, w, schedule) == Some(w') && OnlyBy(schedule, c)
    ensures ["uploads", upload + ".partial"] !in w.disk.tree ==> w' == w.At(c, Done(Failed(UploadDoesNotExist)))
    ensures ["uploads", upload + ".partial"] in w.disk.tree ==>
              && upload in w.uploads && Appended(w, w', c, upload, body)
              && ReadFile(w'.disk, ["uploads", upload + ".partial"]) == Some(w.uploads[upload].sent + body)
  {
    hide Base, Step, Run, ReadFile;
    ChunkOpens(env, w, c);
    var l := Label(c, Go(0, ""));
    var next := Step(env, w, c, Go(0, "")).value;
    if UploadPath(upload) !in w.disk.tree {
      RunNothing(env, next);
      RunCons(env, w, l, next, []);
      schedule, w' := [l] + [], next;
    } else {
      var opening := Step(env, next, c, Go(0, "")).value;
      var rest, last := ChunkWrites(env, opening, c);
      RunCons(env, next, l, opening, rest);
      RunCons(env, w, l, next, [l] + rest);
      schedule, w' := [l] + ([l] + rest), last;
      assert w'.procs == w.procs[c := Done(Accepted(|body|))];
      BaseAfter(env, w, schedule);
      UploadReads(env, w', upload);
    }
  }

  lemma UploadReads(env: Env, w: World, upload: Text)
    requires Base(env, w) && upload in w.uploads && UploadPath(upload) in w.disk.tree && IsComponent(upload)
    ensures ReadFile(w.disk, UploadPath(upload)) == Some(w.uploads[upload].sent)
  {
    hide WellFormed, BlobsHaveOrigin, TempLinks, ClientsHold, OpenExisting;
    UploadFile(w, upload);
    UploadNameIsComponent(upload);
    OpenExistingEffect(w.disk, "uploads", upload + ".partial");
  }

  /** A new upload gets the drawn name and an empty file, and every other file stays. */
  lemma UploadBegins(env: Env, w: World, c: Client, drawn: Text)
    requires Base(env, w) && c in w.procs && w.procs[c] == Beginning && IsComponent(drawn) && drawn !in w.uploads
    ensures Step(env, w, c, Go(0, drawn)).Some?
    ensures var w' := Step(env, w, c, Go(0, drawn)).value;
            && w'.procs == w.procs[c := Done(Began(drawn))]
            && drawn in w'.uploads && w'.uploads[drawn].sent == []
            && ReadFile(w'.disk, UploadPath(drawn)) == Some([])
            && (forall p | p != UploadPath(drawn) ::
                  (p in w'.disk.tree <==> p in w.disk.tree) && (p in w.disk.tree ==> w'.disk.tree[p] == w.disk.tree[p]))
  {
    hide WellFormed, BlobsHaveOrigin, TempLinks, ClientsHold, OpenTruncate, ReadFile;
    UploadNameIsComponent(drawn);
    OpenTruncateEffect(w.disk, "uploads", drawn + ".partial");
    StepKeepsBase(env, w, c, Go(0, drawn));
    UploadReads(env, Step(env, w, c, Go(0, drawn)).value, drawn);
  }

  /**
   From any state the store reaches in which no manifest is being written, a read that is left alone replies with
   what the registry holds.
   */
  lemma GetCompletes(env: Env, w: World, a: Registry, c: Client, target: ManifestReference)
    returns (schedule: seq<Label>, w': World)
    requires Refines(env, w, a) && c in w.procs && w.procs[c] == GetStart(target)
    requires forall e | e in w.procs :: !w.procs[e].PutWriting?
    ensures Run(env, w, schedule) == Some(w') && OnlyBy(schedule, c)
    ensures w' == w.At(c, Done(Fetched(Find(a, target))))
  {
    hide Refines, Step, Run, Find;
    var l := Label(c, Go(0, ""));
    GetOpens(env, w, a, c, target);
    var opening := Step(env, w, c, Go(0, "")).value;
    if Find(a, target).None? {
      RunNothing(env, opening);
      RunCons(env, w, l, opening, []);
      schedule, w' := [l] + [], opening;
    } else {
      var rest, last := ReadingEnds(env, opening, c);
      RunCons(env, w, l, opening, rest);
      schedule, w' := [l] + rest, last;
      MovedTwice(w, c, opening.procs[c], last.procs[c]);
    }
  }

  lemma GetOpens(env: Env, w: World, a: Registry, c: Client, target: ManifestReference)
    requires Refines(env, w, a) && c in w.procs && w.procs[c] == GetStart(target)
    requires forall e | e in w.procs :: !w.procs[e].PutWriting?
    ensures Step(env, w, c, Go(0, "")).Some?
    ensures var w' := Step(env, w, c, Go(0, "")).value;
            match Find(a, target)
            case None => w' == w.At(c, Done(Fetched(None)))
            case Some(bytes) => c in w'.procs && w' == w.At(c, w'.procs[c]) && w'.procs[c].GetReading?
                                && w'.procs[c].got == [] && Contents(w'.disk, w'.procs[c].ino) == bytes
  {
    hide UploadsHold, BlobsHaveOrigin, TempLinks, ClientsHold, ClientsKnow, ContentsMatch, TagMatches, Shape,
      LinksResolve, Inodes, Lookup, TargetPath, Find;
    ReaderIsValid(env, w, c);
    FindsWhatLookupFinds(env, w, a, target);
    DiskReadsAgree(env, w, a, target);
    FoundIsFile(w.disk, target);
  }

  lemma ReadingEnds(env: Env, w: World, c: Client) returns (schedule: seq<Label>, w': World)
    requires c in w.procs && w.procs[c].GetReading? && w.procs[c].got == []
    ensures Run(env, w, schedule) == Some(w') && OnlyBy(schedule, c)
    ensures w' == w.At(c, Done(Fetched(Some(Contents(w.disk, w.procs[c].ino)))))
  {
    hide Step, Run;
    var content := Contents(w.disk, w.procs[c].ino);
    var n := |content|;
    var end := Label(c, Go(0, ""));
    w' := w.At(c, Done(Fetched(Some(content))));
    RunNothing(env, w');
    if n == 0 {
      ReadingStep(env, w, c, 0);
      RunCons(env, w, end, w', []);
      schedule := [end] + [];
    } else {
      ReadingStep(env, w, c, n);
      var next := Step(env, w, c, Go(n, "")).value;
      assert content[0..n] == content && [] + content == content;
      ReadingStep(env, next, c, 0);
      MovedTwice(w, c, next.procs[c], w'.procs[c]);
      RunCons(env, next, end, w', []);
      RunCons(env, w, Label(c, Go(n, "")), next, [end] + []);
      schedule := [Label(c, Go(n, ""))] + ([end] + []);
    }
  }

  lemma ReadingStep(env: Env, w: World, c: Client, count: nat)
    requires c in w.procs && w.procs[c].GetReading?
    requires |w.procs[c].got| + count == |Contents(w.disk, w.procs[c].ino)|
    ensures Step(env, w, c, Go(count, "")).Some?
    ensures var pc, w' := w.procs[c], Step(env, w, c, Go(count, "")).value;
            var content := Contents(w.disk, pc.ino);
            if count == 0 then w' == w.At(c, Done(Fetched(Some(pc.got))))
            else
              && c in w'.procs && w' == w.At(c, w'.procs[c]) && w'.procs[c].GetReading? && w'.procs[c].ino == pc.ino
              && w'.procs[c].got == pc.got + content[|pc.got|..|pc.got| + count]
  {
    hide BeingWritten, Contents;
  }

  // ---------- A read during a rewrite ----------

  /**
   In any state the store reaches: when a put of the manifest a reader is about to ask for opens the file
   first, the reader can be given nothing at all.
   */
  lemma RewriteEmptiesRead(env: Env, w: World, a: Registry, writer: Client, reader: Client)
    requires Refines(env, w, a) && writer in w.procs && reader in w.procs && writer != reader
    requires w.procs[writer].PutStart? && env.parses(w.procs[writer].body) && w.procs[reader].GetStart?
    requires Find(a, w.procs[reader].target) == Some(w.procs[writer].body)
    ensures var w1 := StepPutStart(env, w, writer, w.procs[writer]);
            && reader in w1.procs && w1.procs[reader] == w.procs[reader]
            && var w2 := StepGetStart(w1, reader, w1.procs[reader]);
            && reader in w2.procs && w2.procs[reader].GetReading?
            && StepGetReading(w2, reader, w2.procs[reader], 0).Some?
            && StepGetReading(w2, reader, w2.procs[reader], 0).value.procs
               == w2.procs[reader := Done(Fetched(Some([])))]
  {
    hide WellFormed, UploadsHold, BlobsHaveOrigin, TempLinks, ClientsHold, ContentsMatch, TagMatches, OpenTruncate,
      Lookup, TargetPath, BeingWritten;
    var body, target := w.procs[writer].body, w.procs[reader].target;
    var name := NameOf(env, body);
    ReaderIsValid(env, w, reader);
    FindsWhatLookupFinds(env, w, a, target);
    FoundIsFile(w.disk, target);
    HexIsComponent(env.sha(body));
    OpenTruncateEffect(w.disk, "manifests", name);
    var q := Lookup(w.disk.tree, TargetPath(target)).value;
    assert Name(q) == name;
    assert Truncated(w.disk, q).tree == w.disk.tree;
  }

  /** Two clients call, on top of whatever else there is. */
  lemma TwoCall(env: Env, w: World, a: Registry, first: Request, second: Request)
    requires Refines(env, w, a) && 1 !in w.procs && 2 !in w.procs && ValidRequest(first) && ValidRequest(second)
    ensures var w' := w.At(1, Begin(first)).At(2, Begin(second));
            Refines(env, w', a)
            && Run(env, w, [Label(1, Call(first)), Label(2, Call(second))]) == Some(w')
  {
    hide Refines, NoCollisions;
    var w1 := w.At(1, Begin(first));
    var w2 := w1.At(2, Begin(second));
    CallRefines(env, w, a, 1, first);
    CallRefines(env, w1, a, 2, second);
    RunCons(env, w1, Label(2, Call(second)), w2, []);
    RunCons(env, w, Label(1, Call(first)), w1, [Label(2, Call(second))]);
    assert [Label(1, Call(first))] + [Label(2, Call(second))] == [Label(1, Call(first)), Label(2, Call(second))];
    assert [Label(2, Call(second))] + [] == [Label(2, Call(second))];
  }

  lemma CallRefines(env: Env, w: World, a: Registry, c: Client, request: Request)
    requires Refines(env, w, a) && c !in w.procs && ValidRequest(request)
    ensures Step(env, w, c, Call(request)) == Some(w.At(c, Begin(request)))
    ensures Refines(env, w.At(c, Begin(request)), a)
  {
    hide Refines;
    EdgeStepRefines(env, w, a, c, Call(request));
  }

  /** The schedule starts puts of one manifest to one tag only, and a read of that tag. */
  ghost predicate PutsAndReadsOnly(schedule: seq<Label>, target: ManifestReference, body: Bytes) {
    forall l | l in schedule && l.action.Call? ::
      l.action.request == Put(target, body) || l.action.request == Get(target)
  }

  const TEARING := [Label(1, Go(0, ""))] + ([Label(2, Go(0, ""))] + ([Label(2, Go(0, ""))] + []))

  lemma TearingEmptiesRead(env: Env, w: World, a: Registry) returns (w': World)
    requires Refines(env, w, a) && 0 in w.procs && 1 in w.procs && 2 in w.procs
    requires w.procs[1].PutStart? && env.parses(w.procs[1].body) && w.procs[2].GetStart?
    requires Find(a, w.procs[2].target) == Some(w.procs[1].body)
    ensures Run(env, w, TEARING) == Some(w')
    ensures 0 in w'.procs && w'.procs[0] == w.procs[0] && 2 in w'.procs && w'.procs[2] == Done(Fetched(Some([])))
  {
    hide Refines, Step, Run, StepPutStart, StepGetStart, StepGetReading;
    RewriteEmptiesRead(env, w, a, 1, 2);
    var w1 := StepPutStart(env, w, 1, w.procs[1]);
    var w2 := StepGetStart(w1, 2, w1.procs[2]);
    w' := StepGetReading(w2, 2, w2.procs[2], 0).value;
    GoSteps(env, w, 1, "");
    GoSteps(env, w1, 2, "");
    GoSteps(env, w2, 2, "");
    RunNothing(env, w');
    RunCons(env, w2, Label(2, Go(0, "")), w', []);
    RunCons(env, w1, Label(2, Go(0, "")), w2, [Label(2, Go(0, ""))] + []);
    RunCons(env, w, Label(1, Go(0, "")), w1, [Label(2, Go(0, ""))] + ([Label(2, Go(0, ""))] + []));
    WriterKeepsReplies(env, w, w1, w2);
  }

  /**
   For every manifest and tag there is a schedule from the empty store, in which nothing but that manifest
   is ever put under that tag, and a reader of the tag is given nothing after a put of it was done.
   */
  lemma ReadsCanTear(env: Env, target: ManifestReference, body: Bytes, drawn: Text)
    returns (schedule: seq<Label>, w: World)
    requires env.parses(body) && ValidReference(target) && target.reference.Tag?
    requires IsComponent(drawn) && drawn != target.location.repository
    ensures Run(env, EMPTY, schedule) == Some(w) && PutsAndReadsOnly(schedule, target, body)
    ensures 0 in w.procs && w.procs[0] == Done(Stored(env.sha(body)))
    ensures 2 in w.procs && w.procs[2] == Done(Fetched(Some([])))
  {
    hide Refines, Clear, Step, Run, WellFormed, PutsAndReadsOnly, Find, NoCollisions;
    EmptyRefinesNothing(env);
    var w0 := EMPTY.At(0, PutStart(target, body));
    CallRefines(env, EMPTY, NOTHING, 0, Put(target, body));
    ClearAtFirst(target.location, drawn);
    OneCannotCollide(env, body);
    var alone, done, a := PutCompletes(env, w0, NOTHING, 0, target, body, drawn);
    TwoCall(env, done, a, Put(target, body), Get(target));
    var w1 := done.At(1, PutStart(target, body)).At(2, GetStart(target));
    w := TearingEmptiesRead(env, w1, a);
    var calls := [Label(1, Call(Put(target, body))), Label(2, Call(Get(target)))];
    RunInTwo(env, done, calls, TEARING);
    RunInTwo(env, w0, alone, calls + TEARING);
    RunCons(env, EMPTY, Label(0, Call(Put(target, body))), w0, alone + (calls + TEARING));
    schedule := [Label(0, Call(Put(target, body)))] + (alone + (calls + TEARING));
    OnlyTheseCalls(alone, target, body);
  }

  lemma OneCannotCollide(env: Env, body: Bytes)
    ensures NoCollisions(env, {} + {body})
  {
  }

  lemma OnlyTheseCalls(alone: seq<Label>, target: ManifestReference, body: Bytes)
    requires OnlyBy(alone, 0)
    ensures var calls := [Label(1, Call(Put(target, body))), Label(2, Call(Get(target)))];
            PutsAndReadsOnly([Label(0, Call(Put(target, body)))] + (alone + (calls + TEARING)), target, body)
  {
  }

  lemma WriterKeepsReplies(env: Env, w1: World, w2: World, w3: World)
    requires 0 in w1.procs && 1 in w1.procs && 2 in w1.procs && w1.procs[1].PutStart? && w1.procs[2].GetStart?
    requires w2 == StepPutStart(env, w1, 1, w1.procs[1]) && w2.procs[2] == w1.procs[2]
    requires w3 == StepGetStart(w2, 2, w2.procs[2])
    ensures 0 in w3.procs && w3.procs[0] == w1.procs[0]
  {
    hide OpenTruncate, Lookup;
  }

  lemma GoSteps(env: Env, w: World, c: Client, drawn: Text)
    requires c in w.procs
    ensures w.procs[c].PutStart? ==> Step(env, w, c, Go(0, drawn)) == Some(StepPutStart(env, w, c, w.procs[c]))
    ensures w.procs[c].GetStart? ==> Step(env, w, c, Go(0, drawn)) == Some(StepGetStart(w, c, w.procs[c]))
    ensures w.procs[c].GetReading? ==> Step(env, w, c, Go(0, drawn)) == StepGetReading(w, c, w.procs[c], 0)
  {
    hide StepPutStart, StepGetStart, StepGetReading;
  }

  lemma ClearAtFirst(location: ImageLocation, drawn: Text)
    requires IsComponent(drawn) && drawn != location.repository
    ensures Clear(EMPTY.disk.tree, location, drawn)
  {
    assert |RepositoryDir(location)| == |TempTagPath(drawn)| == 2;
    assert forall p | p in FRESH.tree :: |p| <= 1;
  }
}
