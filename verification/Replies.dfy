/**
 What a reply is worth: a client's program carries its own request to the end, and each
 reply other than an error is given at the step that makes it true.
 */
module Replies {
  import opened Prelude
  import opened Digests
  import opened Disk
  import opened Layout
  import opened Effects
  import opened Machine
  import opened Invariant
  import opened Refinement
  import opened ManifestTheorems
  import opened BlobTheorems

  /** The program counter belongs to this request; a chunk's bytes are either appended or still to come. */
  predicate Carries(pc: Proc, request: Request) {
    match request
    case Put(target, body) =>
      || pc == PutStart(target, body)
      || (pc.PutWriting? && pc.target == target && pc.body == body)
      || pc == PutWritten(target, body)
      || pc == PutRepository(target, body)
      || pc == PutImage(target, body)
      || pc == PutLinking(target, body)
      || (pc.PutRenaming? && pc.target == target && pc.body == body)
    case Get(target) => pc == GetStart(target) || (pc.GetReading? && pc.target == target)
    case NewUpload => pc == Beginning
    case AddChunk(upload, body) =>
      || pc == ChunkCheck(upload, body)
      || pc == ChunkOpen(upload, body)
      || (pc.ChunkWriting? && pc.upload == upload && pc.completed + |pc.rest| == |body|
          && pc.rest == body[pc.completed..])
    case Finalize(upload, digest) =>
      || pc == FinalizeCheck(upload, digest)
      || pc == FinalizeOpen(upload, digest)
      || (pc.FinalizeHashing? && pc.upload == upload && pc.digest == digest)
      || pc == FinalizeRenaming(upload, digest)
  }

  /** What a failure other than one of the file system says is so when it is reported. */
  ghost predicate FailureEarned(env: Env, w: World, request: Request, c: Client, error: Error)
    requires c in w.procs
  {
    match error
    case InvalidManifest => request.Put? && !env.parses(request.body)
    case NotATag => request.Put? && request.target.reference.ByDigest?
    case UploadDoesNotExist =>
      (request.AddChunk? || request.Finalize?) && UploadPath(request.upload) !in w.disk.tree
    case DigestMismatch => request.Finalize? && request.upload in w.uploads
                           && env.sha(w.uploads[request.upload].sent) != request.digest
    case Io => true
  }

  /** The step that replied is the one that makes the reply true. */
  ghost predicate Earned(env: Env, w: World, w': World, request: Request, event: Event, c: Client, reply: Reply)
    requires c in w.procs
  {
    match reply
    case Stored(digest) =>
      && request.Put? && digest == env.sha(request.body) && request.target.reference.Tag?
      && event == MoveTag(TagKey(request.target.location, request.target.reference.tag), request.body)
    case Fetched(None) => request.Get? && event == FindMissing(request.target)
    case Fetched(Some(bytes)) => request.Get? && w.procs[c].GetReading? && bytes == w.procs[c].got
                                 && (event == EndRead(c, bytes) || w.procs[c].torn || BeingWritten(w, w.procs[c].ino))
    case Began(upload) => request.NewUpload? && upload !in w.uploads && upload in w'.uploads
                          && w'.uploads[upload].sent == []
    case Accepted(completed) => request.AddChunk? && completed == |request.body| && w.procs[c].ChunkWriting?
                                && w.procs[c].rest == []
    case Finalized => request.Finalize? && Hex(request.digest) in w'.origin
                      && w'.origin[Hex(request.digest)] == request.upload
    case Failed(error) => FailureEarned(env, w, request, c, error)
  }

  ghost predicate Serves(env: Env, w: World, c: Client, act: Action, request: Request)
    requires c in w.procs && Step(env, w, c, act).Some?
  {
    var w' := Step(env, w, c, act).value;
    && c in w'.procs
    && (Carries(w'.procs[c], request)
        || (w'.procs[c].Done? && Earned(env, w, w', request, EventOf(env, w, c, act), c, w'.procs[c].reply)))
  }

  lemma PutTargetIsTag(env: Env, w: World, c: Client)
    requires Base(env, w) && c in w.procs
    ensures w.procs[c].PutRenaming? ==> w.procs[c].target.reference.Tag?
  {
    ClientHolds(env, w, c);
  }

  lemma PutServes(env: Env, w: World, c: Client, act: Action, request: Request)
    requires Base(env, w) && c in w.procs && Carries(w.procs[c], request) && Step(env, w, c, act).Some?
    requires act.Go? && request.Put?
    ensures Serves(env, w, c, act, request)
  {
    hide Base, OpenTruncate, EnsureDir, Symlink, Rename, Lookup, WriteAt, TagPath, BeingWritten, Find;
    PutTargetIsTag(env, w, c);
    var pc := w.procs[c];
    var w' := Step(env, w, c, act).value;
    if pc.PutRenaming? {
      assert w'.procs[c] == Done(Stored(env.sha(pc.body))) || w'.procs[c] == Done(Failed(Io));
    }
  }

  lemma MissingUpload(env: Env, w: World, c: Client)
    requires Base(env, w) && c in w.procs && (w.procs[c].ChunkCheck? || w.procs[c].FinalizeCheck?)
    ensures Exists(w.disk.tree, UploadPath(w.procs[c].upload)) <==> UploadPath(w.procs[c].upload) in w.disk.tree
  {
    hide WellFormed, BlobsHaveOrigin, TempLinks, UploadsHold, OpenExisting, Exists;
    ClientHolds(env, w, c);
    UploadNameIsComponent(w.procs[c].upload);
    OpenExistingEffect(w.disk, "uploads", w.procs[c].upload + ".partial");
  }

  lemma ChunkFails(env: Env, w: World, c: Client, act: Action, request: Request)
    requires Base(env, w) && c in w.procs && Carries(w.procs[c], request) && Step(env, w, c, act).Some?
    requires act.Go? && request.AddChunk?
    ensures var next := Step(env, w, c, act).value;
            c in next.procs && (next.procs[c].Done? && next.procs[c].reply.Failed? ==>
                                  FailureEarned(env, w, request, c, next.procs[c].reply.error))
  {
    hide Base, OpenExisting, Append, Exists, UploadPath;
    if w.procs[c].ChunkCheck? {
      MissingUpload(env, w, c);
    }
  }

  lemma HashedAll(env: Env, w: World, c: Client)
    requires Base(env, w) && c in w.procs && w.procs[c].FinalizeHashing?
    ensures var pc := w.procs[c];
            && pc.upload in w.uploads
            && (|Contents(w.disk, pc.ino)| <= |pc.seen| ==> pc.seen == w.uploads[pc.upload].sent)
  {
    hide WellFormed, BlobsHaveOrigin, TempLinks;
    ClientHolds(env, w, c);
    var pc := w.procs[c];
    var sent := w.uploads[pc.upload].sent;
    assert sent[..|sent|] == sent;
  }

  lemma FinalizeFails(env: Env, w: World, c: Client, act: Action, request: Request)
    requires Base(env, w) && c in w.procs && Carries(w.procs[c], request) && Step(env, w, c, act).Some?
    requires act.Go? && request.Finalize?
    ensures var next := Step(env, w, c, act).value;
            c in next.procs && (next.procs[c].Done? && next.procs[c].reply.Failed? ==>
                                  FailureEarned(env, w, request, c, next.procs[c].reply.error))
  {
    hide Base, OpenExisting, Rename, Exists, UploadPath, BlobPath, Contents;
    if w.procs[c].FinalizeCheck? {
      MissingUpload(env, w, c);
    } else if w.procs[c].FinalizeHashing? {
      HashedAll(env, w, c);
    }
  }

  lemma GetServes(env: Env, w: World, c: Client, act: Action, request: Request)
    requires Base(env, w) && c in w.procs && Carries(w.procs[c], request) && Step(env, w, c, act).Some?
    requires act.Go? && request.Get?
    ensures Serves(env, w, c, act, request)
  {
    hide Base, Lookup, BeingWritten, Find, TargetPath;
  }

  lemma UploadServes(env: Env, w: World, c: Client, act: Action, request: Request)
    requires Base(env, w) && c in w.procs && Carries(w.procs[c], request) && Step(env, w, c, act).Some?
    requires act.Go? && (request.NewUpload? || request.AddChunk? || request.Finalize?)
    ensures Serves(env, w, c, act, request)
  {
    hide Base, OpenTruncate, Rename, Lookup, OpenExisting, Append, UploadPath, BlobPath, BeingWritten;
    if request.AddChunk? {
      hide FailureEarned;
      ChunkFails(env, w, c, act, request);
    } else if request.Finalize? {
      hide FailureEarned;
      FinalizeFails(env, w, c, act, request);
    }
  }

  /** A step of a client either keeps to its request or gives a reply it has earned. */
  lemma StepServesRequest(env: Env, w: World, c: Client, act: Action, request: Request)
    requires Base(env, w) && c in w.procs && Carries(w.procs[c], request) && Step(env, w, c, act).Some?
    ensures Serves(env, w, c, act, request)
  {
    hide Base, Advance, EventOf;
    if act.Go? {
      hide Serves;
      if request.Put? {
        PutServes(env, w, c, act, request);
      } else if request.Get? {
        GetServes(env, w, c, act, request);
      } else {
        UploadServes(env, w, c, act, request);
      }
    }
  }

  lemma CallCarries(env: Env, w: World, c: Client, request: Request)
    requires Step(env, w, c, Call(request)).Some?
    ensures Step(env, w, c, Call(request)).value.procs[c] == Begin(request) && Carries(Begin(request), request)
  {
  }

  lemma RepliesStay(env: Env, w: World, c: Client, schedule: seq<Label>)
    requires c in w.procs && w.procs[c].Done? && StartsNothing(schedule, c) && Run(env, w, schedule).Some?
    ensures c in Run(env, w, schedule).value.procs && Run(env, w, schedule).value.procs[c] == w.procs[c]
    decreases |schedule|
  {
    hide StepPutStart, StepGetStart, StepGetReading;
    if schedule != [] {
      var l := schedule[0];
      StepMovesOne(env, w, l.client, l.action);
      RepliesStay(env, Step(env, w, l.client, l.action).value, c, schedule[1..]);
    }
  }

  /** Step `n` of the schedule is the client's, and gives a reply it has earned and keeps to the end. */
  ghost predicate RepliesAt(env: Env, w: World, c: Client, request: Request, schedule: seq<Label>, n: nat) {
    && n < |schedule| && schedule[n].client == c
    && Run(env, w, schedule[..n]).Some? && Run(env, w, schedule).Some?
    && var before, after := Run(env, w, schedule[..n]).value, Run(env, w, schedule).value;
    && c in before.procs && Step(env, before, c, schedule[n].action).Some? && c in after.procs
    && var next := Step(env, before, c, schedule[n].action).value;
    && c in next.procs && next.procs[c].Done? && after.procs[c] == next.procs[c]
    && Earned(env, before, next, request, EventOf(env, before, c, schedule[n].action), c, next.procs[c].reply)
  }

  lemma RepliesLater(env: Env, w: World, c: Client, request: Request, schedule: seq<Label>, n: nat)
    requires schedule != [] && Step(env, w, schedule[0].client, schedule[0].action).Some?
    requires RepliesAt(env, Step(env, w, schedule[0].client, schedule[0].action).value, c, request, schedule[1..], n)
    ensures RepliesAt(env, w, c, request, schedule, n + 1)
  {
    hide Step, EventOf, Earned;
    assert schedule[..n + 1][1..] == schedule[1..][..n];
  }

  // ---------- The bytes of a chunk ----------

  /** By how much an upload grew from one state to another. */
  function Growth(w: World, w': World, u: Text): Bytes {
    if |SentTo(w, u)| <= |SentTo(w', u)| then SentTo(w', u)[|SentTo(w, u)|..] else []
  }

  /** All that upload `u` grew by at the steps of client `c`, in order. */
  ghost function AppendedBy(env: Env, w: World, schedule: seq<Label>, c: Client, u: Text): Bytes
    requires Run(env, w, schedule).Some?
    decreases |schedule|
  {
    if schedule == [] then []
    else
      var l := schedule[0];
      var next := Step(env, w, l.client, l.action).value;
      (if l.client == c then Growth(w, next, u) else []) + AppendedBy(env, next, schedule[1..], c, u)
  }

  /** What of its body a request still has to append. */
  function Remaining(pc: Proc, request: Request): Bytes {
    if !request.AddChunk? || pc.Done? then []
    else if pc.ChunkWriting? then pc.rest
    else request.body
  }

  lemma GrowthIsChunk(env: Env, w: World, l: Label, u: Text)
    requires Step(env, w, l.client, l.action).Some?
    ensures Growth(w, Step(env, w, l.client, l.action).value, u) == ChunkOf(w, l, u)
  {
    hide Step, ChunkOf;
    StepAppends(env, w, l, u);
  }

  lemma ChunkWritten(env: Env, w: World, c: Client, count: nat, u: Text)
    requires c in w.procs && w.procs[c].ChunkWriting? && StepChunkWriting(w, c, w.procs[c], count).Some?
    ensures var pc, chunk := w.procs[c], ChunkOf(w, Label(c, Go(count, "")), u);
            var next := StepChunkWriting(w, c, pc, count).value;
            && c in next.procs
            && (u == pc.upload && next.procs[c].ChunkWriting? ==> chunk + next.procs[c].rest == pc.rest)
            && (next.procs[c].Done? ==> chunk == [] && pc.rest == [] && next.procs[c].reply.Accepted?)
            && (next.procs[c].Done? || next.procs[c].ChunkWriting?)
            && (u != pc.upload ==> chunk == [])
  {
    hide Append;
    if 0 < count <= |w.procs[c].rest| {
      assert w.procs[c].rest == w.procs[c].rest[..count] + w.procs[c].rest[count..];
    }
  }

  lemma ChunkBegins(env: Env, w: World, c: Client, act: Action, request: Request)
    requires c in w.procs && Carries(w.procs[c], request) && Step(env, w, c, act).Some?
    requires request.AddChunk? && !(w.procs[c].ChunkWriting? && act.Go?)
    ensures var next := Step(env, w, c, act).value;
            && c in next.procs
            && ((next.procs[c].Done? && next.procs[c].reply.Failed?)
                || Remaining(next.procs[c], request) == Remaining(w.procs[c], request))
  {
    hide Exists, OpenExisting, UploadPath;
  }

  /** One step takes what it appends off the front of what remained, and appends to no other upload. */
  lemma StepAppendsOwn(env: Env, w: World, c: Client, act: Action, request: Request, u: Text)
    requires c in w.procs && Carries(w.procs[c], request) && Step(env, w, c, act).Some?
    ensures var next := Step(env, w, c, act).value;
            && c in next.procs
            && (request.AddChunk? && u == request.upload && !(next.procs[c].Done? && next.procs[c].reply.Failed?) ==>
                  Growth(w, next, u) + Remaining(next.procs[c], request) == Remaining(w.procs[c], request))
            && (request.AddChunk? && u == request.upload && next.procs[c].Done? ==> Growth(w, next, u) == [])
            && (!request.AddChunk? || u != request.upload ==> Growth(w, next, u) == [])
  {
    GrowthIsChunk(env, w, Label(c, act), u);
    hide Growth;
    var next := Step(env, w, c, act).value;
    if w.procs[c].ChunkWriting? && act.Go? {
      ChunkWritten(env, w, c, act.count, u);
      assert ChunkOf(w, Label(c, act), u) == ChunkOf(w, Label(c, Go(act.count, "")), u);
    } else {
      assert ChunkOf(w, Label(c, act), u) == [];
      hide Step;
      StepMovesOne(env, w, c, act);
      if request.AddChunk? {
        ChunkBegins(env, w, c, act, request);
        assert [] + Remaining(next.procs[c], request) == Remaining(next.procs[c], request);
      }
    }
  }

  lemma DoneAppendsNothing(env: Env, w: World, c: Client, schedule: seq<Label>, u: Text)
    requires c in w.procs && w.procs[c].Done? && StartsNothing(schedule, c) && Run(env, w, schedule).Some?
    ensures AppendedBy(env, w, schedule, c, u) == []
    decreases |schedule|
  {
    hide Growth;
    if schedule != [] {
      var l := schedule[0];
      hide StepPutStart, StepGetStart, StepGetReading;
      StepMovesOne(env, w, l.client, l.action);
      DoneAppendsNothing(env, Step(env, w, l.client, l.action).value, c, schedule[1..], u);
    }
  }

  /**
   Over any schedule, a chunk request appends exactly the front of its body to its own upload: all but
   what remains while it runs, all of it if it is accepted, some of it if it fails. Nothing it does, and
   nothing any other request does, appends to another upload.
   */
  lemma {:induction false} RunAppendsItsBody(env: Env, w: World, c: Client, request: Request, schedule: seq<Label>,
                                             u: Text)
    requires Base(env, w) && c in w.procs && Carries(w.procs[c], request)
    requires StartsNothing(schedule, c) && Run(env, w, schedule).Some?
    ensures c in Run(env, w, schedule).value.procs
    ensures !request.AddChunk? || u != request.upload ==> AppendedBy(env, w, schedule, c, u) == []
    ensures request.AddChunk? && u == request.upload ==>
              var after := Run(env, w, schedule).value.procs[c];
              && AppendedBy(env, w, schedule, c, u) <= Remaining(w.procs[c], request)
              && (!(after.Done? && after.reply.Failed?) ==>
                    AppendedBy(env, w, schedule, c, u) + Remaining(after, request) == Remaining(w.procs[c], request))
    decreases |schedule|
  {
    hide Base, Step, Earned, Carries, Growth, Remaining, EventOf;
    if schedule != [] {
      var l, rest := schedule[0], schedule[1..];
      var next := Step(env, w, l.client, l.action).value;
      StepKeepsBase(env, w, l.client, l.action);
      StepMovesOne(env, w, l.client, l.action);
      if l.client == c {
        StepServesRequest(env, w, c, l.action, request);
        StepAppendsOwn(env, w, c, l.action, request, u);
      }
      if Carries(next.procs[c], request) {
        RunAppendsItsBody(env, next, c, request, rest, u);
        NotFailed(next.procs[c], request);
        var grown, later := Growth(w, next, u), AppendedBy(env, next, rest, c, u);
        var after := Remaining(Run(env, w, schedule).value.procs[c], request);
        if l.client == c {
          assert grown + later + after == grown + (later + after);
        } else {
          assert [] + later == later;
        }
      } else {
        RepliesStay(env, next, c, rest);
        DoneAppendsNothing(env, next, c, rest, u);
        assert Growth(w, next, u) + [] == Growth(w, next, u);
      }
    } else {
      assert [] + Remaining(w.procs[c], request) == Remaining(w.procs[c], request);
    }
  }

  lemma NotFailed(pc: Proc, request: Request)
    requires Carries(pc, request)
    ensures !pc.Done?
  {
  }

  /**
   In every schedule, among any other clients: a request is still under way, or one of its
   client's steps has replied to it, with a reply that step had earned. An accepted chunk has by then
   been appended whole to its upload, and nothing to any other.
   */
  lemma {:induction false} RunServesRequest(env: Env, w: World, c: Client, request: Request, schedule: seq<Label>)
    requires Base(env, w) && c in w.procs && w.procs[c] == Begin(request)
    requires StartsNothing(schedule, c) && Run(env, w, schedule).Some?
    ensures c in Run(env, w, schedule).value.procs
    ensures Carries(Run(env, w, schedule).value.procs[c], request)
            || exists n :: RepliesAt(env, w, c, request, schedule, n)
    ensures var after := Run(env, w, schedule).value.procs[c];
            after.Done? && after.reply.Accepted? ==>
              && request.AddChunk? && after.reply.completed == |request.body|
              && AppendedBy(env, w, schedule, c, request.upload) == request.body
              && forall u | u != request.upload :: AppendedBy(env, w, schedule, c, u) == []
  {
    hide Base, EventOf, Run, AppendedBy;
    RunReplies(env, w, c, request, schedule);
    var after := Run(env, w, schedule).value.procs[c];
    if after.Done? && after.reply.Accepted? {
      AcceptedIsChunk(env, w, c, request, schedule);
      forall u
        ensures AppendedBy(env, w, schedule, c, u) == if u == request.upload then request.body else []
      {
        RunAppendsItsBody(env, w, c, request, schedule, u);
      }
    }
  }

  lemma AcceptedIsChunk(env: Env, w: World, c: Client, request: Request, schedule: seq<Label>)
    requires Run(env, w, schedule).Some? && c in Run(env, w, schedule).value.procs
    requires Run(env, w, schedule).value.procs[c].Done? && Run(env, w, schedule).value.procs[c].reply.Accepted?
    requires Carries(Run(env, w, schedule).value.procs[c], request)
             || exists n :: RepliesAt(env, w, c, request, schedule, n)
    ensures request.AddChunk? && Run(env, w, schedule).value.procs[c].reply.completed == |request.body|
  {
    hide Run, Step, EventOf;
    var n :| RepliesAt(env, w, c, request, schedule, n);
  }

  lemma {:induction false} RunReplies(env: Env, w: World, c: Client, request: Request, schedule: seq<Label>)
    requires Base(env, w) && c in w.procs && Carries(w.procs[c], request)
    requires StartsNothing(schedule, c) && Run(env, w, schedule).Some?
    ensures c in Run(env, w, schedule).value.procs
    ensures Carries(Run(env, w, schedule).value.procs[c], request)
            || exists n :: RepliesAt(env, w, c, request, schedule, n)
    decreases |schedule|
  {
    hide Base, Step, EventOf, Earned, Carries;
    if schedule != [] {
      var l, rest := schedule[0], schedule[1..];
      var next := Step(env, w, l.client, l.action).value;
      StepKeepsBase(env, w, l.client, l.action);
      StepMovesOne(env, w, l.client, l.action);
      if l.client == c {
        StepServesRequest(env, w, c, l.action, request);
      }
      if Carries(next.procs[c], request) {
        RunReplies(env, next, c, request, rest);
        if !Carries(Run(env, w, schedule).value.procs[c], request) {
          var n :| RepliesAt(env, next, c, request, rest, n);
          RepliesLater(env, w, c, request, schedule, n);
        }
      } else {
        RepliesStay(env, next, c, rest);
        assert schedule[..0] == [];
        assert RepliesAt(env, w, c, request, schedule, 0);
      }
    }
  }

  /** The count and the fresh name with which a client can go on. */
  function NextCount(w: World, pc: Proc): nat {
    match pc
    case PutWriting(_, body, _, off) => if off < |body| then |body| - off else 0
    case GetReading(_, _, ino, got, _) => if |got| < |Contents(w.disk, ino)| then 1 else 0
    case ChunkWriting(_, _, rest, _) => |rest|
    case FinalizeHashing(_, _, ino, seen) => if |seen| < |Contents(w.disk, ino)| then 1 else 0
    case _ => 0
  }

  lemma ChunkIsKnown(env: Env, w: World, c: Client)
    requires Base(env, w) && c in w.procs
    ensures w.procs[c].ChunkWriting? ==> w.procs[c].upload in w.uploads
    ensures w.procs[c].PutWriting? ==> w.procs[c].off <= |w.procs[c].body|
  {
    ClientHolds(env, w, c);
  }

  /** No client ever waits for another: whoever has not replied can take a step. */
  lemma NobodyWaits(env: Env, w: World, c: Client, unused: Text)
    requires Base(env, w) && c in w.procs && IsComponent(unused) && unused !in w.uploads
    ensures !w.procs[c].Done? <==> Step(env, w, c, Go(NextCount(w, w.procs[c]), unused)).Some?
  {
    hide Base, OpenTruncate, EnsureDir, Symlink, Rename, Lookup, OpenExisting, WriteAt, Append, TagPath, BeingWritten,
      UploadPath, BlobPath;
    PutTargetIsTag(env, w, c);
    ChunkIsKnown(env, w, c);
  }
}
