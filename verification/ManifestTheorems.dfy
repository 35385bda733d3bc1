/**
 What the refinement means for clients: tags always lead to a manifest, reads are
 atomic, a finished put is visible, and puts by digest move no tag.
 */
module ManifestTheorems {
  import opened Prelude
  import opened Digests
  import opened Disk
  import opened Layout
  import opened Effects
  import opened Machine
  import opened Invariant
  import opened Refinement

  /**
   In every state any schedule reaches, an installed tag resolves to an existing manifest, whose
   bytes hash to the name in the link and parse, unless a put of that very manifest is
   between opening its file and finishing the write.
   */
  lemma InstalledTagsResolve(env: Env, schedule: seq<Label>, location: ImageLocation, tag: Text)
    requires Run(env, EMPTY, schedule).Some? && NoCollisions(env, Run(env, EMPTY, schedule).value.payloads)
    requires ValidLocation(location) && IsComponent(tag)
    requires ["tags", location.repository, location.image, tag] in Run(env, EMPTY, schedule).value.disk.tree
    ensures var w := Run(env, EMPTY, schedule).value;
            var path := ["tags", location.repository, location.image, tag];
            var link := w.disk.tree[path];
            && link.Link? && |link.target| == 5 && link.target == ["..", "..", "..", "manifests", link.target[4]]
            && Lookup(w.disk.tree, path) == Some(["manifests", link.target[4]])
            && OpenExisting(w.disk, path).Some?
            && (!BeingWritten(w, OpenExisting(w.disk, path).value) ==>
                  var bytes := ReadFile(w.disk, path).value;
                  NameOf(env, bytes) == link.target[4] && env.parses(bytes))
  {
    hide UploadsHold, BlobsHaveOrigin, ClientsHold, TempLinks, ClientsKnow, Covered, BeingWritten;
    EmptyRefinesNothing(env);
    RunRefines(env, EMPTY, NOTHING, schedule);
    var w := Run(env, EMPTY, schedule).value;
    var a := AcceptAll(NOTHING, Trace(env, EMPTY, schedule)).value;
    var p := TagPath(location, tag);
    LookupTag(w.disk.tree, location, tag);
    ReadTagEffect(w.disk, location, tag);
    assert Fits(p, w.disk.tree[p]);
    assert TagMatches(w.disk.tree, a, TagKey(location, tag));
    var name := w.disk.tree[p].target[4];
    ManifestHasData(w.disk, name);
    var ino := w.disk.tree[ManifestEntry(name)].ino;
    assert Covered(w, ino, a.manifests[name]);
    if !BeingWritten(w, ino) {
      CoveredAndQuiet(w, ino, a.manifests[name]);
    }
  }

  /** A quiet read from disk, by tag or by digest, is exactly a lookup in the atomic registry. */
  lemma DiskReadsAgree(env: Env, w: World, a: Registry, target: ManifestReference)
    requires Refines(env, w, a) && ValidReference(target)
    requires forall c | c in w.procs :: !w.procs[c].PutWriting?
    ensures ReadFile(w.disk, TargetPath(target)) == Find(a, target)
  {
    hide UploadsHold, BlobsHaveOrigin, ClientsHold, TempLinks, ClientsKnow, Covered, Inodes;
    FindsWhatLookupFinds(env, w, a, target);
    OpensManifest(w.disk, target);
    match Lookup(w.disk.tree, TargetPath(target))
    case None =>
    case Some(q) =>
      var ino := w.disk.tree[q].ino;
      assert Covered(w, ino, a.manifests[Name(q)]);
      CoveredAndQuiet(w, ino, a.manifests[Name(q)]);
  }

  // ---------- Reads are atomic ----------

  /** No request of client `c` starts in the schedule. */
  predicate StartsNothing(schedule: seq<Label>, c: Client) {
    forall l | l in schedule && l.client == c :: !l.action.Call?
  }

  ghost predicate ReadingOrDone(w: World, c: Client) {
    c in w.procs && (w.procs[c].GetReading? || w.procs[c].Done?)
  }

  /** Only the client that steps can have a read decided. */
  lemma ReadsAreTheirOwn(env: Env, w: World, a: Registry, e: Client, act: Action)
    requires Step(env, w, e, act).Some? && Accept(a, EventOf(env, w, e, act)).Some?
    ensures var a' := Accept(a, EventOf(env, w, e, act)).value;
            && (forall c | c in a.pending && c != e :: c in a'.pending && a'.pending[c] == a.pending[c])
            && ((e in w.procs && !w.procs[e].GetStart?) || act.Call? ==> a'.pending == a.pending)
  {
    hide Advance, BeingWritten, Find;
  }

  lemma ReadingGoesOn(env: Env, w: World, c: Client, act: Action)
    requires Step(env, w, c, act).Some? && ReadingOrDone(w, c) && !act.Call?
    ensures ReadingOrDone(Step(env, w, c, act).value, c)
  {
    hide BeingWritten;
  }

  lemma PendingStaysOneStep(env: Env, w: World, a: Registry, c: Client, l: Label)
    requires Step(env, w, l.client, l.action).Some? && ReadingOrDone(w, c)
    requires l.client == c ==> !l.action.Call?
    requires c in a.pending && Accept(a, EventOf(env, w, l.client, l.action)).Some?
    ensures ReadingOrDone(Step(env, w, l.client, l.action).value, c)
    ensures var a' := Accept(a, EventOf(env, w, l.client, l.action)).value;
            c in a'.pending && a'.pending[c] == a.pending[c]
  {
    hide Step, EventOf;
    ReadsAreTheirOwn(env, w, a, l.client, l.action);
    if l.client == c {
      ReadingGoesOn(env, w, c, l.action);
    } else {
      StepMovesOne(env, w, l.client, l.action);
    }
  }

  lemma {:induction false} PendingStays(env: Env, w: World, a: Registry, c: Client, schedule: seq<Label>)
    requires Run(env, w, schedule).Some? && ReadingOrDone(w, c) && StartsNothing(schedule, c)
    requires c in a.pending && AcceptAll(a, Trace(env, w, schedule)).Some?
    ensures var a' := AcceptAll(a, Trace(env, w, schedule)).value;
            c in a'.pending && a'.pending[c] == a.pending[c]
    decreases |schedule|
  {
    hide EventOf, ReadingOrDone;
    if schedule != [] {
      var l := schedule[0];
      var next := Step(env, w, l.client, l.action).value;
      assert Trace(env, w, schedule)[1..] == Trace(env, next, schedule[1..]);
      PendingStaysOneStep(env, w, a, c, l);
      PendingStays(env, next, Accept(a, EventOf(env, w, l.client, l.action)).value, c, schedule[1..]);
    }
  }

  lemma {:induction false} RunInTwo(env: Env, w: World, s: seq<Label>, t: seq<Label>)
    requires Run(env, w, s).Some?
    ensures Run(env, w, s + t) == Run(env, Run(env, w, s).value, t)
    decreases |s|
  {
    if s == [] {
      assert s + t == t;
    } else {
      assert (s + t)[1..] == s[1..] + t;
      RunInTwo(env, Step(env, w, s[0].client, s[0].action).value, s[1..], t);
    }
  }

  /** No read call of the client falls into a time when its file is being written. */
  ghost predicate Undisturbed(env: Env, w: World, schedule: seq<Label>, c: Client)
    decreases |schedule|
  {
    schedule != [] ==>
      && (schedule[0].client == c && c in w.procs && w.procs[c].GetReading? ==> !BeingWritten(w, w.procs[c].ino))
      && (match Step(env, w, schedule[0].client, schedule[0].action)
          case Some(next) => Undisturbed(env, next, schedule[1..], c)
          case None => true)
  }

  lemma WholeStays(env: Env, w: World, c: Client, act: Action)
    requires c in w.procs && Step(env, w, c, act).Some? && !act.Call?
    requires w.procs[c].Done? || (w.procs[c].GetReading? && !w.procs[c].torn && !BeingWritten(w, w.procs[c].ino))
    ensures var w' := Step(env, w, c, act).value;
            c in w'.procs && (w'.procs[c].Done? || (w'.procs[c].GetReading? && !w'.procs[c].torn))
  {
    hide BeingWritten;
  }

  lemma {:induction false} UndisturbedIsWhole(env: Env, w: World, schedule: seq<Label>, c: Client)
    requires c in w.procs && (w.procs[c].Done? || (w.procs[c].GetReading? && !w.procs[c].torn))
    requires Run(env, w, schedule).Some? && StartsNothing(schedule, c) && Undisturbed(env, w, schedule, c)
    ensures var after := Run(env, w, schedule).value;
            c in after.procs && (after.procs[c].Done? || !after.procs[c].GetReading? || !after.procs[c].torn)
    decreases |schedule|
  {
    hide Step, BeingWritten;
    if schedule != [] {
      var l := schedule[0];
      if l.client == c {
        DoneIsOver(env, w, c, l.action);
        WholeStays(env, w, c, l.action);
      } else {
        StepMovesOne(env, w, l.client, l.action);
      }
      UndisturbedIsWhole(env, Step(env, w, l.client, l.action).value, schedule[1..], c);
    }
  }

  lemma DoneIsOver(env: Env, w: World, c: Client, act: Action)
    requires c in w.procs && Step(env, w, c, act).Some? && !act.Call?
    ensures !w.procs[c].Done?
  {
  }

  /**
   A read that no rewrite of its manifest overlapped returns what the registry held at the one
   instant the read mid its file, whatever every other client did before, between and after.
   */
  lemma ReadsAreAtomic(
    env: Env, w: World, a: Registry, c: Client, between: seq<Label>, mid: World, after: World)
    requires Refines(env, w, a) && c in w.procs && w.procs[c].GetStart?
    requires mid == StepGetStart(w, c, w.procs[c]) && c in mid.procs && mid.procs[c].GetReading?
    requires StartsNothing(between, c) && Run(env, mid, between) == Some(after)
    requires NoCollisions(env, after.payloads) && c in after.procs && after.procs[c].GetReading?
    requires Undisturbed(env, mid, between, c) && !BeingWritten(after, after.procs[c].ino)
    requires StepGetReading(after, c, after.procs[c], 0).Some?
    ensures Find(a, w.procs[c].target).Some?
    ensures StepGetReading(after, c, after.procs[c], 0).value.procs[c] == Done(Fetched(Find(a, w.procs[c].target)))
  {
    hide Refines, BeingWritten, Run, Trace, Undisturbed;
    OpenedWhole(w, c);
    hide StepGetStart;
    UndisturbedIsWhole(env, mid, between, c);
    GetStartRefines(env, w, a, c);
    var a1 := a.(pending := a.pending[c := Find(a, w.procs[c].target).value]);
    RunRefines(env, mid, a1, between);
    PendingStays(env, mid, a1, c, between);
    GetReadingRefines(env, after, AcceptAll(a1, Trace(env, mid, between)).value, c, 0);
  }

  /** A read is told that there is nothing exactly when the registry holds nothing at that instant. */
  lemma NotFoundExactly(env: Env, w: World, a: Registry, c: Client)
    requires Refines(env, w, a) && c in w.procs && w.procs[c].GetStart?
    ensures var w' := StepGetStart(w, c, w.procs[c]);
            && c in w'.procs
            && (w'.procs[c] == Done(Fetched(None)) <==> Find(a, w.procs[c].target) == None)
            && (w'.procs[c].GetReading? <==> Find(a, w.procs[c].target).Some?)
  {
    hide UploadsHold, BlobsHaveOrigin, ClientsHold, TempLinks, ClientsKnow, ContentsMatch, TagMatches, Shape, LinksResolve,
      Inodes, Lookup, TargetPath, Find;
    ReaderIsValid(env, w, c);
    FindsWhatLookupFinds(env, w, a, w.procs[c].target);
    FoundIsFile(w.disk, w.procs[c].target);
  }

  lemma ReaderIsValid(env: Env, w: World, c: Client)
    requires Base(env, w) && c in w.procs && w.procs[c].GetStart?
    ensures ValidReference(w.procs[c].target)
  {
    ClientHolds(env, w, c);
  }

  lemma FoundIsFile(disk: Disk, target: ManifestReference)
    requires WellFormed(disk) && ValidReference(target)
    ensures Lookup(disk.tree, TargetPath(target)).Some? ==>
              var q := Lookup(disk.tree, TargetPath(target)).value;
              && q != [] && q == ManifestEntry(Name(q)) && q in disk.tree && disk.tree[q].File?
  {
    OpensManifest(disk, target);
  }

  lemma OpenedWhole(w: World, c: Client)
    requires c in w.procs && w.procs[c].GetStart?
    ensures var mid := StepGetStart(w, c, w.procs[c]);
            c in mid.procs && (mid.procs[c].GetReading? ==> !mid.procs[c].torn)
  {
    hide Lookup, TargetPath;
  }

  // ---------- Puts ----------

  /** When a put replies, its tag and its digest both lead to its bytes, and no other tag has moved. */
  lemma FinishedPutIsVisible(env: Env, w: World, a: Registry, c: Client, drawn: Text)
    requires Refines(env, w, a) && c in w.procs && w.procs[c].PutRenaming?
    ensures w.procs[c].target.reference.Tag?
    ensures Step(env, w, c, Go(0, drawn)) == StepPutRenaming(env, w, c, w.procs[c])
    ensures StepPutRenaming(env, w, c, w.procs[c]).Some?
    ensures var pc := w.procs[c];
            var w' := StepPutRenaming(env, w, c, pc).value;
            var a' := a.(tags := a.tags[TagKey(pc.target.location, pc.target.reference.tag) := pc.body]);
            && Refines(env, w', a')
            && w'.procs == w.procs[c := Done(Stored(env.sha(pc.body)))]
            && Find(a', pc.target) == Some(pc.body)
            && Find(a', ManifestReference(pc.target.location, ByDigest(env.sha(pc.body)))) == Some(pc.body)
            && forall other: ManifestReference | other != pc.target && other.reference.Tag? ::
                 Find(a', other) == Find(a, other)
  {
    hide Refines;
    var pc := w.procs[c];
    PutRenamingRefines(env, w, a, c);
    assert StoredAs(env, a, pc.body) by {
      PutKnowsItsBody(env, w, a, c);
    }
    var key := TagKey(pc.target.location, pc.target.reference.tag);
    var a' := a.(tags := a.tags[key := pc.body]);
    forall other: ManifestReference | other != pc.target && other.reference.Tag?
      ensures Find(a', other) == Find(a, other)
    {
      assert TagKey(other.location, other.reference.tag) != key;
    }
  }

  lemma PutKnowsItsBody(env: Env, w: World, a: Registry, c: Client)
    requires Refines(env, w, a) && c in w.procs && (w.procs[c].PutRenaming? || w.procs[c].PutWritten?)
    ensures StoredAs(env, a, w.procs[c].body)
  {
    ClientKnows(env, w, a, c);
  }

  /** A put under a digest is refused after storing: no tag moves, and the bytes are readable by digest. */
  lemma PutByDigestIsRefused(env: Env, w: World, a: Registry, c: Client, drawn: Text)
    requires Refines(env, w, a) && c in w.procs && w.procs[c].PutWritten? && w.procs[c].target.reference.ByDigest?
    ensures Step(env, w, c, Go(0, drawn)) == Some(w.Fail(c, NotATag))
    ensures Refines(env, w.Fail(c, NotATag), a)
    ensures Find(a, ManifestReference(w.procs[c].target.location, ByDigest(env.sha(w.procs[c].body))))
            == Some(w.procs[c].body)
  {
    hide Refines;
    PutKnowsItsBody(env, w, a, c);
    OtherStepRefines(env, w, a, c, 0, drawn);
  }

  ghost predicate ByDigestOnly(pc: Proc) {
    (pc.PutStart? || pc.PutWriting? || pc.PutWritten?) && pc.target.reference.ByDigest?
  }

  /** From start to refusal, no step of a put by digest is a tag move. */
  lemma PutByDigestMovesNoTag(env: Env, w: World, c: Client, act: Action)
    requires c in w.procs && ByDigestOnly(w.procs[c]) && Step(env, w, c, act).Some?
    ensures !EventOf(env, w, c, act).MoveTag?
    ensures var pc' := Step(env, w, c, act).value.procs[c];
            ByDigestOnly(pc') || (pc'.Done? && pc'.reply.Failed?)
  {
    hide OpenTruncate, EnsureDir, Symlink, Rename, Lookup;
  }
}
