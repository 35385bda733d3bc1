/**
 The registry store under concurrent clients. Every request is a small program
 whose steps are the operations between two await points, or smaller; any
 number of clients interleave in any order. A step is chosen by a client and an
 action that carries what the program does not decide itself: how many bytes one
 system call moves, and which fresh name a random UUID yields.
 */
module Machine {
  import opened Prelude
  import opened Digests
  import opened Disk
  import opened Layout

  /** The hash function and the manifest parser are whatever they are. */
  datatype Env = Env(sha: Bytes -> Digest, parses: Bytes -> bool)

  type Client = nat

  const BUFFER_SIZE := 1024 * 1024 * 1024

  datatype Error = InvalidManifest | NotATag | UploadDoesNotExist | DigestMismatch | Io

  datatype Request =
    | Put(target: ManifestReference, body: Bytes)
    | Get(target: ManifestReference)
    | NewUpload
    | AddChunk(upload: Text, body: Bytes)
    | Finalize(upload: Text, digest: Digest)

  datatype Reply =
    | Stored(digest: Digest)
    | Fetched(bytes: Option<Bytes>)
    | Began(upload: Text)
    | Accepted(completed: nat)
    | Finalized
    | Failed(error: Error)

  /** Where a client stands in its request. */
  datatype Proc =
    | PutStart(target: ManifestReference, body: Bytes)
    | PutWriting(target: ManifestReference, body: Bytes, ino: Ino, off: nat)
    | PutWritten(target: ManifestReference, body: Bytes)
    | PutRepository(target: ManifestReference, body: Bytes)
    | PutImage(target: ManifestReference, body: Bytes)
    | PutLinking(target: ManifestReference, body: Bytes)
    | PutRenaming(target: ManifestReference, body: Bytes, tmp: Text)
    | GetStart(target: ManifestReference)
    | GetReading(target: ManifestReference, name: Text, ino: Ino, got: Bytes, torn: bool)
    | Beginning
    | ChunkCheck(upload: Text, body: Bytes)
    | ChunkOpen(upload: Text, body: Bytes)
    | ChunkWriting(upload: Text, ino: Ino, rest: Bytes, completed: nat)
    | FinalizeCheck(upload: Text, digest: Digest)
    | FinalizeOpen(upload: Text, digest: Digest)
    | FinalizeHashing(upload: Text, digest: Digest, ino: Ino, seen: Bytes)
    | FinalizeRenaming(upload: Text, digest: Digest)
    | Done(reply: Reply)

  /** An upload's file and, as history, every byte its chunks have appended so far. */
  datatype Upload = Upload(ino: Ino, sent: Bytes)

  /**
   `payloads` and `origin` are history: the manifests whose writing began, and the upload
   each blob came from.
   */
  datatype World = World(
    disk: Disk,
    procs: map<Client, Proc>,
    uploads: map<Text, Upload>,
    payloads: set<Bytes>,
    origin: map<Text, Text>)
  {
    function At(c: Client, pc: Proc): World {
      this.(procs := procs[c := pc])
    }

    function Fail(c: Client, error: Error): World {
      At(c, Done(Failed(error)))
    }
  }

  const EMPTY := World(FRESH, map[], map[], {}, map[])

  datatype Action =
    | Call(request: Request)
    | Go(count: nat, drawn: Text)
    | Fault

  function NameOf(env: Env, body: Bytes): Text {
    Hex(env.sha(body))
  }

  predicate ValidRequest(request: Request) {
    match request
    case Put(target, _) => ValidReference(target)
    case Get(target) => ValidReference(target)
    case NewUpload => true
    case AddChunk(upload, _) => IsComponent(upload)
    case Finalize(upload, _) => IsComponent(upload)
  }

  function Begin(request: Request): Proc {
    match request
    case Put(target, body) => PutStart(target, body)
    case Get(target) => GetStart(target)
    case NewUpload => Beginning
    case AddChunk(upload, body) => ChunkCheck(upload, body)
    case Finalize(upload, digest) => FinalizeCheck(upload, digest)
  }

  ghost predicate BeingWritten(w: World, ino: Ino) {
    exists c :: c in w.procs && w.procs[c].PutWriting? && w.procs[c].ino == ino
  }

  // ---------- put_manifest ----------

  /** Parse, then open the manifest file for writing, which empties it. */
  function StepPutStart(env: Env, w: World, c: Client, pc: Proc): World
    requires pc.PutStart?
  {
    if !env.parses(pc.body) then w.Fail(c, InvalidManifest)
    else
      match OpenTruncate(w.disk, ManifestEntry(NameOf(env, pc.body)))
      case Some((disk, ino)) =>
        w.(disk := disk, payloads := w.payloads + {pc.body}).At(c, PutWriting(pc.target, pc.body, ino, 0))
      case None => w.Fail(c, Io)
  }

  function StepPutWriting(w: World, c: Client, pc: Proc, count: nat): Option<World>
    requires pc.PutWriting?
  {
    if 0 < count && pc.off + count <= |pc.body| then
      Some(w.(disk := WriteAt(w.disk, pc.ino, pc.off, pc.body[pc.off..pc.off + count]))
            .At(c, pc.(off := pc.off + count)))
    else if count == 0 && pc.off == |pc.body| then Some(w.At(c, PutWritten(pc.target, pc.body)))
    else None
  }

  function StepPutWritten(w: World, c: Client, pc: Proc): World
    requires pc.PutWritten?
  {
    if pc.target.reference.ByDigest? then w.Fail(c, NotATag)
    else if Exists(w.disk.tree, TagParent(pc.target.location)) then w.At(c, PutLinking(pc.target, pc.body))
    else w.At(c, PutRepository(pc.target, pc.body))
  }

  function StepPutRepository(w: World, c: Client, pc: Proc): World
    requires pc.PutRepository?
  {
    match EnsureDir(w.disk, RepositoryDir(pc.target.location))
    case Some(disk) => w.(disk := disk).At(c, PutImage(pc.target, pc.body))
    case None => w.Fail(c, Io)
  }

  function StepPutImage(w: World, c: Client, pc: Proc): World
    requires pc.PutImage?
  {
    match EnsureDir(w.disk, TagParent(pc.target.location))
    case Some(disk) => w.(disk := disk).At(c, PutLinking(pc.target, pc.body))
    case None => w.Fail(c, Io)
  }

  function StepPutLinking(env: Env, w: World, c: Client, pc: Proc, drawn: Text): Option<World>
    requires pc.PutLinking?
  {
    if !IsComponent(drawn) then None
    else
      match Symlink(w.disk, LinkTo(NameOf(env, pc.body)), TempTagPath(drawn))
      case Some(disk) => Some(w.(disk := disk).At(c, PutRenaming(pc.target, pc.body, drawn)))
      case None => Some(w.Fail(c, Io))
  }

  function StepPutRenaming(env: Env, w: World, c: Client, pc: Proc): Option<World>
    requires pc.PutRenaming?
  {
    if !pc.target.reference.Tag? then None
    else
      match Rename(w.disk, TempTagPath(pc.tmp), TagPath(pc.target.location, pc.target.reference.tag))
      case Some(disk) => Some(w.(disk := disk).At(c, Done(Stored(env.sha(pc.body)))))
      case None => Some(w.Fail(c, Io))
  }

  // ---------- get_manifest ----------

  function TargetPath(target: ManifestReference): Path {
    match target.reference
    case Tag(tag) => TagPath(target.location, tag)
    case ByDigest(digest) => ManifestPath(digest)
  }

  function StepGetStart(w: World, c: Client, pc: Proc): World
    requires pc.GetStart?
  {
    match Lookup(w.disk.tree, TargetPath(pc.target))
    case None => w.At(c, Done(Fetched(None)))
    case Some(q) =>
      if q != [] && q in w.disk.tree && w.disk.tree[q].File? then
        w.At(c, GetReading(pc.target, Name(q), w.disk.tree[q].ino, [], false))
      else w.Fail(c, Io)
  }

  /** One read call; `torn` records that some read happened while the file was being rewritten. */
  ghost function StepGetReading(w: World, c: Client, pc: Proc, count: nat): Option<World>
    requires pc.GetReading?
  {
    var content := Contents(w.disk, pc.ino);
    var torn := pc.torn || BeingWritten(w, pc.ino);
    if 0 < count && |pc.got| + count <= |content| then
      Some(w.At(c, pc.(got := pc.got + content[|pc.got|..|pc.got| + count], torn := torn)))
    else if count == 0 && |content| <= |pc.got| then Some(w.At(c, Done(Fetched(Some(pc.got)))))
    else None
  }

  // ---------- uploads ----------

  /** UUIDs are never drawn twice for uploads. */
  function StepBeginning(w: World, c: Client, drawn: Text): Option<World> {
    if !IsComponent(drawn) || drawn in w.uploads then None
    else
      match OpenTruncate(w.disk, UploadPath(drawn))
      case Some((disk, ino)) =>
        Some(w.(disk := disk, uploads := w.uploads[drawn := Upload(ino, [])]).At(c, Done(Began(drawn))))
      case None => Some(w.Fail(c, Io))
  }

  function StepChunkCheck(w: World, c: Client, pc: Proc): World
    requires pc.ChunkCheck?
  {
    if Exists(w.disk.tree, UploadPath(pc.upload)) then w.At(c, ChunkOpen(pc.upload, pc.body))
    else w.Fail(c, UploadDoesNotExist)
  }

  /** Opened for appending: the later seek has no effect on where bytes go. */
  function StepChunkOpen(w: World, c: Client, pc: Proc): World
    requires pc.ChunkOpen?
  {
    match OpenExisting(w.disk, UploadPath(pc.upload))
    case Some(ino) => w.At(c, ChunkWriting(pc.upload, ino, pc.body, 0))
    case None => w.Fail(c, Io)
  }

  function StepChunkWriting(w: World, c: Client, pc: Proc, count: nat): Option<World>
    requires pc.ChunkWriting?
  {
    if 0 < count <= |pc.rest| && pc.upload in w.uploads then
      var chunk := pc.rest[..count];
      var upload := w.uploads[pc.upload];
      Some(w.(disk := Append(w.disk, pc.ino, chunk),
              uploads := w.uploads[pc.upload := upload.(sent := upload.sent + chunk)])
            .At(c, pc.(rest := pc.rest[count..], completed := pc.completed + count)))
    else if count == 0 && pc.rest == [] then Some(w.At(c, Done(Accepted(pc.completed))))
    else None
  }

  function StepFinalizeCheck(w: World, c: Client, pc: Proc): World
    requires pc.FinalizeCheck?
  {
    if Exists(w.disk.tree, UploadPath(pc.upload)) then w.At(c, FinalizeOpen(pc.upload, pc.digest))
    else w.Fail(c, UploadDoesNotExist)
  }

  function StepFinalizeOpen(w: World, c: Client, pc: Proc): World
    requires pc.FinalizeOpen?
  {
    match OpenExisting(w.disk, UploadPath(pc.upload))
    case Some(ino) => w.At(c, FinalizeHashing(pc.upload, pc.digest, ino, []))
    case None => w.Fail(c, Io)
  }

  /** One block fed to the hasher, or the end of the file and the comparison. */
  function StepFinalizeHashing(env: Env, w: World, c: Client, pc: Proc, count: nat): Option<World>
    requires pc.FinalizeHashing?
  {
    var content := Contents(w.disk, pc.ino);
    if 0 < count <= BUFFER_SIZE && |pc.seen| + count <= |content| then
      Some(w.At(c, pc.(seen := pc.seen + content[|pc.seen|..|pc.seen| + count])))
    else if count == 0 && |content| <= |pc.seen| then
      if env.sha(pc.seen) != pc.digest then Some(w.Fail(c, DigestMismatch))
      else Some(w.At(c, FinalizeRenaming(pc.upload, pc.digest)))
    else None
  }

  function StepFinalizeRenaming(w: World, c: Client, pc: Proc): World
    requires pc.FinalizeRenaming?
  {
    match Rename(w.disk, UploadPath(pc.upload), BlobPath(pc.digest))
    case Some(disk) =>
      w.(disk := disk, origin := w.origin[Hex(pc.digest) := pc.upload]).At(c, Done(Finalized))
    case None => w.Fail(c, Io)
  }

  // ---------- any step of any client ----------

  ghost function Advance(env: Env, w: World, c: Client, pc: Proc, count: nat, drawn: Text): Option<World> {
    match pc
    case PutStart(_, _) => Some(StepPutStart(env, w, c, pc))
    case PutWriting(_, _, _, _) => StepPutWriting(w, c, pc, count)
    case PutWritten(_, _) => Some(StepPutWritten(w, c, pc))
    case PutRepository(_, _) => Some(StepPutRepository(w, c, pc))
    case PutImage(_, _) => Some(StepPutImage(w, c, pc))
    case PutLinking(_, _) => StepPutLinking(env, w, c, pc, drawn)
    case PutRenaming(_, _, _) => StepPutRenaming(env, w, c, pc)
    case GetStart(_) => Some(StepGetStart(w, c, pc))
    case GetReading(_, _, _, _, _) => StepGetReading(w, c, pc, count)
    case Beginning => StepBeginning(w, c, drawn)
    case ChunkCheck(_, _) => Some(StepChunkCheck(w, c, pc))
    case ChunkOpen(_, _) => Some(StepChunkOpen(w, c, pc))
    case ChunkWriting(_, _, _, _) => StepChunkWriting(w, c, pc, count)
    case FinalizeCheck(_, _) => Some(StepFinalizeCheck(w, c, pc))
    case FinalizeOpen(_, _) => Some(StepFinalizeOpen(w, c, pc))
    case FinalizeHashing(_, _, _, _) => StepFinalizeHashing(env, w, c, pc, count)
    case FinalizeRenaming(_, _) => Some(StepFinalizeRenaming(w, c, pc))
    case Done(_) => None
  }

  /**
   A client without a request may start one; a request may advance, or fail with an I/O error.
   A manifest write that fails halfway is a client that never advances again.
   */
  ghost function Step(env: Env, w: World, c: Client, act: Action): Option<World> {
    match act
    case Call(request) =>
      if ValidRequest(request) && (c in w.procs ==> w.procs[c].Done?) then Some(w.At(c, Begin(request))) else None
    case Go(count, drawn) =>
      if c in w.procs then Advance(env, w, c, w.procs[c], count, drawn) else None
    case Fault =>
      if c in w.procs && !w.procs[c].PutWriting? && !w.procs[c].Done? then Some(w.Fail(c, Io)) else None
  }

  datatype Label = Label(client: Client, action: Action)

  /** The state after a whole schedule, if every step of it was possible. */
  ghost function Run(env: Env, w: World, schedule: seq<Label>): Option<World>
    decreases |schedule|
  {
    if schedule == [] then Some(w)
    else
      match Step(env, w, schedule[0].client, schedule[0].action)
      case Some(next) => Run(env, next, schedule[1..])
      case None => None
  }
}
