/**
 The concurrent store refines an atomic registry: two maps, one from digests to
 manifests and one from tags to manifests, each changed in a single step.
 */
module Refinement {
  import opened Prelude
  import opened Digests
  import opened Disk
  import opened Layout
  import opened Effects
  import opened Machine
  import opened Invariant

  datatype TagKey = TagKey(location: ImageLocation, tag: Text)

  /** `pending` is what each running read has already been decided to return. */
  datatype Registry = Registry(
    manifests: map<Text, Bytes>,
    tags: map<TagKey, Bytes>,
    pending: map<Client, Bytes>)

  const NOTHING := Registry(map[], map[], map[])

  function Find(a: Registry, target: ManifestReference): Option<Bytes> {
    match target.reference
    case Tag(tag) =>
      var key := TagKey(target.location, tag);
      if key in a.tags then Some(a.tags[key]) else None
    case ByDigest(digest) =>
      if Hex(digest) in a.manifests then Some(a.manifests[Hex(digest)]) else None
  }

  datatype Event =
    | Silent
    | StoreManifest(name: Text, bytes: Bytes)
    | MoveTag(key: TagKey, bytes: Bytes)
    | FindMissing(target: ManifestReference)
    | BeginRead(reader: Client, target: ManifestReference)
    | EndRead(reader: Client, bytes: Bytes)

  /** What the atomic registry does on an event, and whether it could have produced it. */
  function Accept(a: Registry, e: Event): Option<Registry> {
    match e
    case Silent => Some(a)
    case StoreManifest(name, bytes) => Some(a.(manifests := a.manifests[name := bytes]))
    case MoveTag(key, bytes) => Some(a.(tags := a.tags[key := bytes]))
    case FindMissing(target) => if Find(a, target) == None then Some(a) else None
    case BeginRead(reader, target) =>
      (match Find(a, target)
       case Some(bytes) => Some(a.(pending := a.pending[reader := bytes]))
       case None => None)
    case EndRead(reader, bytes) =>
      if reader in a.pending && a.pending[reader] == bytes then Some(a) else None
  }

  /**
   The event a step of the store shows: a manifest is stored when its file is opened for
   writing, a tag moves at the rename, a read is decided when its file is opened.
   A read that overlapped a rewrite of its manifest shows nothing.
   */
  ghost function EventOf(env: Env, w: World, c: Client, act: Action): Event
    requires Step(env, w, c, act).Some?
  {
    if !act.Go? then Silent
    else
      var pc := w.procs[c];
      var w' := Step(env, w, c, act).value;
      match pc
      case PutStart(_, body) =>
        if w'.procs[c].PutWriting? then StoreManifest(NameOf(env, body), body) else Silent
      case PutRenaming(target, body, _) =>
        if w'.procs[c] == Done(Stored(env.sha(body))) && target.reference.Tag? then
          MoveTag(TagKey(target.location, target.reference.tag), body)
        else Silent
      case GetStart(target) =>
        if w'.procs[c].GetReading? then BeginRead(c, target)
        else if w'.procs[c] == Done(Fetched(None)) then FindMissing(target)
        else Silent
      case GetReading(_, _, ino, got, torn) =>
        if w'.procs[c].Done? && !torn && !BeingWritten(w, ino) then EndRead(c, got) else Silent
      case _ => Silent
  }

  // ---------- The simulation relation ----------

  ghost predicate NoCollisions(env: Env, payloads: set<Bytes>) {
    forall x, y | x in payloads && y in payloads && env.sha(x) == env.sha(y) :: x == y
  }

  ghost predicate StoredAs(env: Env, a: Registry, body: Bytes) {
    NameOf(env, body) in a.manifests && a.manifests[NameOf(env, body)] == body
  }

  /** Client `c` is still going to write position `p` of file `ino`. */
  ghost predicate WillWrite(w: World, c: Client, ino: Ino, p: nat) {
    c in w.procs && w.procs[c].PutWriting? && w.procs[c].ino == ino && w.procs[c].off <= p
  }

  /** Position `p` holds the right byte, or someone is still going to put it there. */
  ghost predicate Settled(w: World, ino: Ino, bytes: Bytes, p: nat)
    requires p < |bytes|
  {
    var content := Contents(w.disk, ino);
    (p < |content| && content[p] == bytes[p]) || exists c :: WillWrite(w, c, ino, p)
  }

  ghost predicate Covered(w: World, ino: Ino, bytes: Bytes) {
    && |Contents(w.disk, ino)| <= |bytes|
    && forall p | 0 <= p < |bytes| :: Settled(w, ino, bytes, p)
  }

  /** Writers that keep their obligations keep a file settled. */
  lemma StaysCovered(w: World, w': World, ino: Ino, bytes: Bytes)
    requires Covered(w, ino, bytes) && Contents(w'.disk, ino) == Contents(w.disk, ino)
    requires forall c, p: nat | WillWrite(w, c, ino, p) && p < |bytes| :: WillWrite(w', c, ino, p)
    ensures Covered(w', ino, bytes)
  {
    forall p | 0 <= p < |bytes|
      ensures Settled(w', ino, bytes, p)
    {
      assert Settled(w, ino, bytes, p);
    }
  }

  ghost predicate ManifestsMatch(env: Env, w: World, a: Registry) {
    && (forall n :: ManifestEntry(n) in w.disk.tree <==> n in a.manifests)
    && (forall n | n in a.manifests ::
          && NameOf(env, a.manifests[n]) == n
          && env.parses(a.manifests[n])
          && a.manifests[n] in w.payloads)
  }

  ghost predicate ContentsMatch(w: World, a: Registry) {
    forall n | n in a.manifests && ManifestEntry(n) in w.disk.tree && w.disk.tree[ManifestEntry(n)].File? ::
      Covered(w, w.disk.tree[ManifestEntry(n)].ino, a.manifests[n])
  }

  ghost predicate TagMatches(tree: Tree, a: Registry, key: TagKey) {
    var p := TagPath(key.location, key.tag);
    && (p in tree <==> key in a.tags)
    && (p in tree && tree[p].Link? && |tree[p].target| == 5 ==>
          tree[p].target[4] in a.manifests && a.manifests[tree[p].target[4]] == a.tags[key])
  }

  ghost predicate TagsMatch(tree: Tree, a: Registry) {
    forall key :: TagMatches(tree, a, key)
  }

  ghost predicate Knows(env: Env, a: Registry, c: Client, pc: Proc) {
    match pc
    case PutWriting(_, body, _, _) => StoredAs(env, a, body)
    case PutWritten(_, body) => StoredAs(env, a, body)
    case PutRepository(_, body) => StoredAs(env, a, body)
    case PutImage(_, body) => StoredAs(env, a, body)
    case PutLinking(_, body) => StoredAs(env, a, body)
    case PutRenaming(_, body, _) => StoredAs(env, a, body)
    case GetReading(_, name, _, got, torn) =>
      && c in a.pending && name in a.manifests && a.pending[c] == a.manifests[name]
      && (!torn ==> got <= a.manifests[name])
    case _ => true
  }

  ghost predicate ClientsKnow(env: Env, w: World, a: Registry) {
    forall c | c in w.procs :: Knows(env, a, c, w.procs[c])
  }

  ghost predicate Refines(env: Env, w: World, a: Registry) {
    && Base(env, w)
    && ManifestsMatch(env, w, a)
    && ContentsMatch(w, a)
    && TagsMatch(w.disk.tree, a)
    && ClientsKnow(env, w, a)
  }

  // ---------- Steps that leave manifests and tags alone ----------

  /** The same manifests, tags and manifest bytes. */
  ghost predicate SameStore(w: World, w': World) {
    && (forall n :: ManifestEntry(n) in w.disk.tree <==> ManifestEntry(n) in w'.disk.tree)
    && (forall n | ManifestEntry(n) in w.disk.tree ::
          w'.disk.tree[ManifestEntry(n)] == w.disk.tree[ManifestEntry(n)])
    && (forall n | ManifestEntry(n) in w.disk.tree && w.disk.tree[ManifestEntry(n)].File? ::
          var ino := w.disk.tree[ManifestEntry(n)].ino; Contents(w'.disk, ino) == Contents(w.disk, ino))
    && (forall l, t :: TagPath(l, t) in w.disk.tree <==> TagPath(l, t) in w'.disk.tree)
    && (forall l, t | TagPath(l, t) in w.disk.tree :: w'.disk.tree[TagPath(l, t)] == w.disk.tree[TagPath(l, t)])
    && w'.payloads == w.payloads
  }

  lemma SameStoreMatches(env: Env, w: World, w': World, a: Registry, c: Client)
    requires SameStore(w, w') && ManifestsMatch(env, w, a) && ContentsMatch(w, a) && TagsMatch(w.disk.tree, a)
    requires c in w.procs && c in w'.procs && w'.procs == w.procs[c := w'.procs[c]]
    requires w.procs[c].PutWriting? ==>
               w.procs[c].off == |w.procs[c].body| && StoredAs(env, a, w.procs[c].body)
               && ManifestEntry(NameOf(env, w.procs[c].body)) in w.disk.tree
               && w.disk.tree[ManifestEntry(NameOf(env, w.procs[c].body))] == File(w.procs[c].ino)
    requires Inodes(w.disk)
    ensures ManifestsMatch(env, w', a) && ContentsMatch(w', a) && TagsMatch(w'.disk.tree, a)
  {
    forall n | n in a.manifests && ManifestEntry(n) in w'.disk.tree && w'.disk.tree[ManifestEntry(n)].File?
      ensures Covered(w', w'.disk.tree[ManifestEntry(n)].ino, a.manifests[n])
    {
      var ino, bytes := w.disk.tree[ManifestEntry(n)].ino, a.manifests[n];
      assert Covered(w, ino, bytes);
      if w.procs[c].PutWriting? && w.procs[c].ino == ino {
        var m := NameOf(env, w.procs[c].body);
        assert ManifestEntry(m) == ManifestEntry(n) && ManifestEntry(m)[1] == ManifestEntry(n)[1];
        assert a.manifests[n] == w.procs[c].body;
      }
      StaysCovered(w, w', ino, bytes);
    }
    forall key
      ensures TagMatches(w'.disk.tree, a, key)
    {
      assert TagMatches(w.disk.tree, a, key);
    }
  }

  lemma KnowsFramed(env: Env, w: World, w': World, a: Registry, a': Registry, c: Client)
    requires ClientsKnow(env, w, a)
    requires c in w'.procs && w'.procs == w.procs[c := w'.procs[c]]
    requires forall n | n in a.manifests :: n in a'.manifests && a'.manifests[n] == a.manifests[n]
    requires forall e | e in a.pending && e != c :: e in a'.pending && a'.pending[e] == a.pending[e]
    requires Knows(env, a', c, w'.procs[c])
    ensures ClientsKnow(env, w', a')
  {
    forall e | e in w'.procs
      ensures Knows(env, a', e, w'.procs[e])
    {
      if e != c {
        assert e in w.procs && Knows(env, a, e, w.procs[e]);
      }
    }
  }

  lemma ClientKnows(env: Env, w: World, a: Registry, c: Client)
    requires ClientsKnow(env, w, a) && c in w.procs
    ensures Knows(env, a, c, w.procs[c])
  {
  }

  lemma BaseGivesInodes(env: Env, w: World)
    requires Base(env, w)
    ensures WellFormed(w.disk) && Inodes(w.disk) && ClientsHold(env, w)
  {
  }

  /** A step shown as silent, whose client knows enough afterwards. */
  lemma SilentStep(env: Env, w: World, w': World, a: Registry, c: Client)
    requires Refines(env, w, a) && Base(env, w') && SameStore(w, w')
    requires c in w.procs && c in w'.procs && w'.procs == w.procs[c := w'.procs[c]]
    requires w.procs[c].PutWriting? ==> w.procs[c].off == |w.procs[c].body|
    requires Knows(env, a, c, w'.procs[c])
    ensures Refines(env, w', a)
  {
    hide Base, ManifestsMatch, ContentsMatch, TagsMatch, SameStore, ClientsKnow, Inodes;
    BaseGivesInodes(env, w);
    ClientHolds(env, w, c);
    ClientKnows(env, w, a, c);
    SameStoreMatches(env, w, w', a, c);
    KnowsFramed(env, w, w', a, a, c);
  }

  lemma MovingKeepsStore(w: World, c: Client, pc: Proc)
    ensures SameStore(w, w.At(c, pc))
  {
  }

  // ---------- put_manifest ----------

  lemma PutStartRefines(env: Env, w: World, a: Registry, c: Client)
    requires Refines(env, w, a) && c in w.procs && w.procs[c].PutStart? && env.parses(w.procs[c].body)
    requires NoCollisions(env, w.payloads + {w.procs[c].body})
    ensures var w' := StepPutStart(env, w, c, w.procs[c]);
            var body := w.procs[c].body;
            && w'.procs[c].PutWriting?
            && Refines(env, w', a.(manifests := a.manifests[NameOf(env, body) := body]))
  {
    hide Base, ManifestsMatch, ContentsMatch, TagsMatch, ClientsKnow, WellFormed, NoCollisions;
    var pc := w.procs[c];
    var name := NameOf(env, pc.body);
    BaseGivesInodes(env, w);
    HexIsComponent(env.sha(pc.body));
    OpenTruncateEffect(w.disk, "manifests", name);
    PutStartKeeps(env, w, c);
    var w' := StepPutStart(env, w, c, pc);
    var a' := a.(manifests := a.manifests[name := pc.body]);
    SamePayload(env, w, a, pc.body);
    forall n | ManifestEntry(n) in w.disk.tree
      ensures w.disk.tree[ManifestEntry(n)].File?
    {
      ManifestHasData(w.disk, n);
    }
    OpeningManifestMatches(env, w, w', a, c);
    OpeningKeepsTags(env, w, w', a, c);
    KnowsFramed(env, w, w', a, a', c);
  }

  lemma SamePayload(env: Env, w: World, a: Registry, body: Bytes)
    requires ManifestsMatch(env, w, a) && NoCollisions(env, w.payloads + {body})
    ensures NameOf(env, body) in a.manifests ==> a.manifests[NameOf(env, body)] == body
  {
    var name := NameOf(env, body);
    if name in a.manifests {
      HexInjective(env.sha(a.manifests[name]), env.sha(body));
    }
  }

  lemma OpeningManifestMatches(env: Env, w: World, w': World, a: Registry, c: Client)
    requires ManifestsMatch(env, w, a) && ContentsMatch(w, a) && Inodes(w.disk)
    requires c in w.procs && w.procs[c].PutStart? && env.parses(w.procs[c].body)
    requires var body := w.procs[c].body;
             var p := ManifestEntry(NameOf(env, body));
             && (NameOf(env, body) in a.manifests ==> a.manifests[NameOf(env, body)] == body)
             && w'.disk == Truncated(w.disk, p) && p in w'.disk.tree && w'.disk.tree[p].File?
             && w'.disk.data[w'.disk.tree[p].ino] == []
             && w'.procs == w.procs[c := PutWriting(w.procs[c].target, body, w'.disk.tree[p].ino, 0)]
             && w'.payloads == w.payloads + {body}
    requires forall n | ManifestEntry(n) in w.disk.tree :: w.disk.tree[ManifestEntry(n)].File?
    ensures var body := w.procs[c].body;
            var a' := a.(manifests := a.manifests[NameOf(env, body) := body]);
            ManifestsMatch(env, w', a') && ContentsMatch(w', a')
  {
    var body := w.procs[c].body;
    var name := NameOf(env, body);
    var a' := a.(manifests := a.manifests[name := body]);
    assert forall n :: ManifestEntry(n)[1] == n;
    var ino := w'.disk.tree[ManifestEntry(name)].ino;
    forall n | n in a'.manifests && ManifestEntry(n) in w'.disk.tree && w'.disk.tree[ManifestEntry(n)].File?
      ensures Covered(w', w'.disk.tree[ManifestEntry(n)].ino, a'.manifests[n])
    {
      if n == name {
        forall p | 0 <= p < |body|
          ensures Settled(w', ino, body, p)
        {
          assert WillWrite(w', c, ino, p);
        }
      } else {
        var other := w.disk.tree[ManifestEntry(n)].ino;
        assert ManifestEntry(n) in w.disk.tree && Covered(w, other, a.manifests[n]);
        StaysCovered(w, w', other, a.manifests[n]);
      }
    }
  }

  lemma OpeningKeepsTags(env: Env, w: World, w': World, a: Registry, c: Client)
    requires TagsMatch(w.disk.tree, a) && c in w.procs && w.procs[c].PutStart?
    requires var body := w.procs[c].body;
             && (NameOf(env, body) in a.manifests ==> a.manifests[NameOf(env, body)] == body)
             && w'.disk == Truncated(w.disk, ManifestEntry(NameOf(env, body)))
    ensures var body := w.procs[c].body;
            TagsMatch(w'.disk.tree, a.(manifests := a.manifests[NameOf(env, body) := body]))
  {
    var a' := a.(manifests := a.manifests[NameOf(env, w.procs[c].body) := w.procs[c].body]);
    forall key
      ensures TagMatches(w'.disk.tree, a', key)
    {
      assert TagMatches(w.disk.tree, a, key);
      assert |TagPath(key.location, key.tag)| == 4 && |ManifestEntry(NameOf(env, w.procs[c].body))| == 2;
    }
  }

  lemma PutWritingRefines(env: Env, w: World, a: Registry, c: Client, count: nat)
    requires Refines(env, w, a) && c in w.procs && w.procs[c].PutWriting?
    requires StepPutWriting(w, c, w.procs[c], count).Some?
    ensures Refines(env, StepPutWriting(w, c, w.procs[c], count).value, a)
  {
    hide Base, ManifestsMatch, ContentsMatch, TagsMatch, ClientsKnow, WellFormed, SameStore, Inodes;
    var pc := w.procs[c];
    BaseGivesInodes(env, w);
    ClientHolds(env, w, c);
    ClientKnows(env, w, a, c);
    PutWritingKeeps(env, w, c, count);
    var w' := StepPutWriting(w, c, pc, count).value;
    if count == 0 {
      MovingKeepsStore(w, c, w'.procs[c]);
      SilentStep(env, w, w', a, c);
    } else {
      WritingStaysCovered(env, w, w', a, c, count);
      assert TagsMatch(w'.disk.tree, a);
      KnowsFramed(env, w, w', a, a, c);
    }
  }

  lemma WritingStaysCovered(env: Env, w: World, w': World, a: Registry, c: Client, count: nat)
    requires ManifestsMatch(env, w, a) && ContentsMatch(w, a) && Inodes(w.disk)
    requires c in w.procs && w.procs[c].PutWriting? && StoredAs(env, a, w.procs[c].body)
    requires ManifestEntry(NameOf(env, w.procs[c].body)) in w.disk.tree
    requires w.disk.tree[ManifestEntry(NameOf(env, w.procs[c].body))] == File(w.procs[c].ino)
    requires 0 < count && StepPutWriting(w, c, w.procs[c], count) == Some(w')
    ensures ManifestsMatch(env, w', a) && ContentsMatch(w', a)
  {
    var pc := w.procs[c];
    var name := NameOf(env, pc.body);
    assert forall n :: ManifestEntry(n)[1] == n;
    forall n | n in a.manifests && ManifestEntry(n) in w'.disk.tree && w'.disk.tree[ManifestEntry(n)].File?
      ensures Covered(w', w'.disk.tree[ManifestEntry(n)].ino, a.manifests[n])
    {
      var ino, bytes := w.disk.tree[ManifestEntry(n)].ino, a.manifests[n];
      assert Covered(w, ino, bytes);
      assert ino == pc.ino ==> n == name;
      forall p | 0 <= p < |bytes|
        ensures Settled(w', ino, bytes, p)
      {
        WritingCoversPosition(w, w', c, count, ino, bytes, p);
      }
    }
  }

  lemma WritingCoversPosition(w: World, w': World, c: Client, count: nat, ino: Ino, bytes: Bytes, p: nat)
    requires c in w.procs && w.procs[c].PutWriting? && 0 < count
    requires StepPutWriting(w, c, w.procs[c], count) == Some(w')
    requires p < |bytes| && Covered(w, ino, bytes) && (ino == w.procs[c].ino ==> bytes == w.procs[c].body)
    ensures Settled(w', ino, bytes, p)
  {
    var pc := w.procs[c];
    var content := Contents(w.disk, ino);
    if ino == pc.ino && pc.off <= p < pc.off + count {
    } else {
      assert Settled(w, ino, bytes, p);
      if !(p < |content| && content[p] == bytes[p]) {
        var e :| WillWrite(w, e, ino, p);
        assert WillWrite(w', e, ino, p);
      }
    }
  }

  lemma PutRenamingRefines(env: Env, w: World, a: Registry, c: Client)
    requires Refines(env, w, a) && c in w.procs && w.procs[c].PutRenaming?
    ensures w.procs[c].target.reference.Tag? && StepPutRenaming(env, w, c, w.procs[c]).Some?
    ensures var pc := w.procs[c];
            var w' := StepPutRenaming(env, w, c, pc).value;
            var key := TagKey(pc.target.location, pc.target.reference.tag);
            && w'.procs[c] == Done(Stored(env.sha(pc.body)))
            && Refines(env, w', a.(tags := a.tags[key := pc.body]))
  {
    hide Base, ManifestsMatch, ContentsMatch, TagsMatch, ClientsKnow, WellFormed;
    var pc := w.procs[c];
    BaseGivesInodes(env, w);
    ClientHolds(env, w, c);
    ClientKnows(env, w, a, c);
    PutRenamingKeeps(env, w, c);
    assert TempLinks(env, w) by {
      TempLinksOf(env, w);
    }
    InstallTagEffect(w.disk, pc.tmp, pc.target.location, pc.target.reference.tag);
    var w' := StepPutRenaming(env, w, c, pc).value;
    var key := TagKey(pc.target.location, pc.target.reference.tag);
    var a' := a.(tags := a.tags[key := pc.body]);
    RenamingMovesOneTag(w, a, pc.tmp, key, NameOf(env, pc.body));
    RenamingKeepsManifests(env, w, w', a, key, c);
    KnowsFramed(env, w, w', a, a', c);
  }

  lemma TempLinksOf(env: Env, w: World)
    requires Base(env, w)
    ensures TempLinks(env, w)
  {
  }

  lemma RenamingMovesOneTag(w: World, a: Registry, tmp: Text, key: TagKey, name: Text)
    requires TagsMatch(w.disk.tree, a) && name in a.manifests
    requires TempTagPath(tmp) in w.disk.tree && w.disk.tree[TempTagPath(tmp)] == Link(LinkTo(name))
    ensures TagsMatch(Moved(w.disk, TempTagPath(tmp), TagPath(key.location, key.tag)).tree,
                      a.(tags := a.tags[key := a.manifests[name]]))
  {
    var src, dst := TempTagPath(tmp), TagPath(key.location, key.tag);
    var tree' := Moved(w.disk, src, dst).tree;
    var a' := a.(tags := a.tags[key := a.manifests[name]]);
    forall k
      ensures TagMatches(tree', a', k)
    {
      assert TagMatches(w.disk.tree, a, k);
      TagPathInjective(k.location, k.tag, key.location, key.tag);
      assert |TagPath(k.location, k.tag)| == 4 && |src| == 2;
    }
  }

  lemma RenamingKeepsManifests(env: Env, w: World, w': World, a: Registry, key: TagKey, c: Client)
    requires ManifestsMatch(env, w, a) && ContentsMatch(w, a)
    requires c in w.procs && w.procs[c].PutRenaming? && TempTagPath(w.procs[c].tmp) in w.disk.tree
    requires w'.disk == Moved(w.disk, TempTagPath(w.procs[c].tmp), TagPath(key.location, key.tag))
    requires c in w'.procs && w'.procs == w.procs[c := w'.procs[c]] && w'.payloads == w.payloads
    ensures var a' := a.(tags := a.tags[key := w.procs[c].body]);
            ManifestsMatch(env, w', a') && ContentsMatch(w', a')
  {
    assert forall n :: ManifestEntry(n)[0] == "manifests";
    assert TempTagPath(w.procs[c].tmp)[0] == "tags" && TagPath(key.location, key.tag)[0] == "tags";
    forall n | n in a.manifests && ManifestEntry(n) in w'.disk.tree && w'.disk.tree[ManifestEntry(n)].File?
      ensures Covered(w', w'.disk.tree[ManifestEntry(n)].ino, a.manifests[n])
    {
      var ino, bytes := w.disk.tree[ManifestEntry(n)].ino, a.manifests[n];
      assert Covered(w, ino, bytes);
      StaysCovered(w, w', ino, bytes);
    }
  }

  // ---------- get_manifest ----------

  lemma GetStartRefines(env: Env, w: World, a: Registry, c: Client)
    requires Refines(env, w, a) && c in w.procs && w.procs[c].GetStart?
    ensures var w' := StepGetStart(w, c, w.procs[c]);
            match Find(a, w.procs[c].target)
            case None => w'.procs[c] == Done(Fetched(None)) && Refines(env, w', a)
            case Some(bytes) => w'.procs[c].GetReading? && Refines(env, w', a.(pending := a.pending[c := bytes]))
  {
    hide Base, ContentsMatch, ClientsKnow, Inodes, Shape, LinksResolve, SameStore, Lookup, TagMatches, TagPath;
    var pc := w.procs[c];
    BaseGivesInodes(env, w);
    ClientHolds(env, w, c);
    GetStartKeeps(env, w, c);
    FindsWhatLookupFinds(env, w, a, pc.target);
    OpensManifest(w.disk, pc.target);
    var w' := StepGetStart(w, c, pc);
    assert w' == w.At(c, w'.procs[c]);
    MovingKeepsStore(w, c, w'.procs[c]);
    SameStoreMatches(env, w, w', a, c);
    match Find(a, pc.target)
    case None => KnowsFramed(env, w, w', a, a, c);
    case Some(bytes) =>
      var a' := a.(pending := a.pending[c := bytes]);
      SameTagsMatch(w'.disk.tree, a, a');
      assert ContentsMatch(w', a') by {
        SameManifestsMatch(w', a, a');
      }
      KnowsFramed(env, w, w', a, a', c);
  }

  lemma SameTagsMatch(tree: Tree, a: Registry, a': Registry)
    requires TagsMatch(tree, a) && a'.manifests == a.manifests && a'.tags == a.tags
    ensures TagsMatch(tree, a')
  {
    forall key
      ensures TagMatches(tree, a', key)
    {
      assert TagMatches(tree, a, key);
    }
  }

  lemma SameManifestsMatch(w: World, a: Registry, a': Registry)
    requires ContentsMatch(w, a) && a'.manifests == a.manifests
    ensures ContentsMatch(w, a')
  {
  }

  /** A lookup on disk and a lookup in the two maps agree. */
  lemma FindsWhatLookupFinds(env: Env, w: World, a: Registry, target: ManifestReference)
    requires WellFormed(w.disk) && ManifestsMatch(env, w, a) && TagsMatch(w.disk.tree, a) && ValidReference(target)
    ensures match Lookup(w.disk.tree, TargetPath(target))
            case None => Find(a, target) == None
            case Some(q) => q != [] && Name(q) in a.manifests && Find(a, target) == Some(a.manifests[Name(q)])
  {
    var tree := w.disk.tree;
    match target.reference {
      case Tag(tag) =>
        LookupTag(tree, target.location, tag);
        assert TagMatches(tree, a, TagKey(target.location, tag));
        assert TagPath(target.location, tag) in tree ==>
            Fits(TagPath(target.location, tag), tree[TagPath(target.location, tag)]);
      case ByDigest(digest) =>
        HexIsComponent(digest);
        LookupFile(tree, "manifests", Hex(digest));
        assert ManifestPath(digest) == ManifestEntry(Hex(digest));
    }
  }

  /** Nobody writing: the file holds exactly the stored manifest. */
  lemma CoveredAndQuiet(w: World, ino: Ino, bytes: Bytes)
    requires Covered(w, ino, bytes) && !BeingWritten(w, ino)
    ensures Contents(w.disk, ino) == bytes
  {
    var content := Contents(w.disk, ino);
    forall p | 0 <= p < |bytes|
      ensures p < |content| && content[p] == bytes[p]
    {
      assert Settled(w, ino, bytes, p);
    }
    assert |content| == |bytes| by {
      if |bytes| > 0 {
        assert Settled(w, ino, bytes, |bytes| - 1);
      }
    }
  }

  lemma GetReadingRefines(env: Env, w: World, a: Registry, c: Client, count: nat)
    requires Refines(env, w, a) && c in w.procs && w.procs[c].GetReading?
    requires StepGetReading(w, c, w.procs[c], count).Some?
    ensures Refines(env, StepGetReading(w, c, w.procs[c], count).value, a)
    ensures var pc := w.procs[c];
            count == 0 && !pc.torn && !BeingWritten(w, pc.ino) ==>
              c in a.pending && a.pending[c] == pc.got
  {
    hide Base, ManifestsMatch, TagsMatch, ClientsKnow, WellFormed, SameStore, Inodes, Covered, BeingWritten;
    var pc := w.procs[c];
    BaseGivesInodes(env, w);
    ClientHolds(env, w, c);
    ClientKnows(env, w, a, c);
    GetReadingKeeps(env, w, c, count);
    var w' := StepGetReading(w, c, pc, count).value;
    assert w' == w.At(c, w'.procs[c]);
    assert Covered(w, pc.ino, a.manifests[pc.name]);
    if !BeingWritten(w, pc.ino) {
      CoveredAndQuiet(w, pc.ino, a.manifests[pc.name]);
    }
    MovingKeepsStore(w, c, w'.procs[c]);
    SilentStep(env, w, w', a, c);
  }

  // ---------- Any step ----------

  lemma PayloadsGrow(env: Env, w: World, c: Client, act: Action)
    requires Step(env, w, c, act).Some?
    ensures w.payloads <= Step(env, w, c, act).value.payloads
  {
  }

  /** Steps of uploads, directory creation and linking. */
  lemma OtherStepsKeepStore(env: Env, w: World, c: Client, count: nat, drawn: Text)
    requires Base(env, w) && c in w.procs && Step(env, w, c, Go(count, drawn)).Some?
    requires var pc := w.procs[c];
             !pc.PutStart? && !pc.PutWriting? && !pc.PutRenaming? && !pc.GetStart? && !pc.GetReading?
    ensures SameStore(w, Step(env, w, c, Go(count, drawn)).value)
  {
    hide WellFormed, UploadsHold, BlobsHaveOrigin, ClientsHold, TempLinks, SameStore;
    var pc := w.procs[c];
    ClientHolds(env, w, c);
    var w' := Step(env, w, c, Go(count, drawn)).value;
    if pc.PutRepository? {
      EnsureRepositoryEffect(w.disk, pc.target.location);
      AddingKeepsStore(w, w', RepositoryDir(pc.target.location), Dir);
    } else if pc.PutImage? {
      EnsureImageEffect(w.disk, pc.target.location);
      AddingKeepsStore(w, w', TagParent(pc.target.location), Dir);
    } else if pc.PutLinking? {
      HexIsComponent(env.sha(pc.body));
      SymlinkEffect(w.disk, NameOf(env, pc.body), drawn);
      AddingKeepsStore(w, w', TempTagPath(drawn), Link(LinkTo(NameOf(env, pc.body))));
    } else if pc.Beginning? {
      UploadNameIsComponent(drawn);
      OpenTruncateEffect(w.disk, "uploads", drawn + ".partial");
      DrawnIsUnused(w, drawn);
      BeginningKeepsStore(w, w', drawn);
    } else if pc.ChunkWriting? && count != 0 {
      AppendKeepsStore(w, w', pc.upload, pc.rest[..count]);
    } else if pc.FinalizeRenaming? && UploadPath(pc.upload) in w.disk.tree {
      FinishUploadEffect(w.disk, pc.upload, pc.digest);
      FinishingKeepsStore(w, w', pc.upload, pc.digest);
    } else {
      if pc.FinalizeRenaming? {
        FinishUploadEffect(w.disk, pc.upload, pc.digest);
      }
      assert w' == w.At(c, w'.procs[c]);
      MovingKeepsStore(w, c, w'.procs[c]);
    }
  }

  lemma AddingKeepsStore(w: World, w': World, p: Path, node: Node)
    requires w'.disk == w.disk || w'.disk == w.disk.(tree := w.disk.tree[p := node])
    requires p != [] && p[0] == "tags" && |p| < 4 && w'.payloads == w.payloads
    ensures SameStore(w, w')
  {
    assert forall n :: ManifestEntry(n)[0] == "manifests";
    assert forall l, t :: |TagPath(l, t)| == 4;
  }

  lemma BeginningKeepsStore(w: World, w': World, drawn: Text)
    requires WellFormed(w.disk) && UploadPath(drawn) !in w.disk.tree
    requires w'.disk == Truncated(w.disk, UploadPath(drawn)) && w'.payloads == w.payloads
    ensures SameStore(w, w')
  {
    hide Shape, LinksResolve;
    assert UploadPath(drawn)[0] == "uploads";
    assert forall n :: ManifestEntry(n)[0] == "manifests";
    assert forall l, t :: |TagPath(l, t)| == 4;
  }

  lemma AppendKeepsStore(w: World, w': World, upload: Text, chunk: Bytes)
    requires UploadsHold(w) && upload in w.uploads
    requires w'.disk == Append(w.disk, w.uploads[upload].ino, chunk) && w'.payloads == w.payloads
    ensures SameStore(w, w')
  {
    assert forall n :: ManifestEntry(n)[0] == "manifests";
  }

  lemma FinishingKeepsStore(w: World, w': World, upload: Text, d: Digest)
    requires UploadPath(upload) in w.disk.tree
    requires w'.disk == Moved(w.disk, UploadPath(upload), BlobPath(d)) && w'.payloads == w.payloads
    ensures SameStore(w, w')
  {
    assert UploadPath(upload)[0] == "uploads" && BlobPath(d)[0] == "blobs";
    assert forall n :: ManifestEntry(n)[0] == "manifests";
    assert forall l, t :: |TagPath(l, t)| == 4;
  }

  ghost predicate MovesOne(w: World, w': World, c: Client) {
    c in w'.procs && w'.procs == w.procs[c := w'.procs[c]]
  }

  lemma PutMovesOne(env: Env, w: World, c: Client, count: nat, drawn: Text)
    requires c in w.procs
    requires var pc := w.procs[c]; pc.PutWritten? || pc.PutRepository? || pc.PutImage? || pc.PutLinking?
    requires Step(env, w, c, Go(count, drawn)).Some?
    ensures MovesOne(w, Step(env, w, c, Go(count, drawn)).value, c)
  {
    hide EnsureDir, Symlink, Lookup;
  }

  lemma ChunkMovesOne(env: Env, w: World, c: Client, count: nat, drawn: Text)
    requires c in w.procs
    requires var pc := w.procs[c]; pc.Beginning? || pc.ChunkCheck? || pc.ChunkOpen? || pc.ChunkWriting?
    requires Step(env, w, c, Go(count, drawn)).Some?
    ensures MovesOne(w, Step(env, w, c, Go(count, drawn)).value, c)
  {
    hide OpenTruncate, OpenExisting, Lookup;
  }

  lemma FinalizeMovesOne(env: Env, w: World, c: Client, count: nat, drawn: Text)
    requires c in w.procs
    requires var pc := w.procs[c];
             pc.FinalizeCheck? || pc.FinalizeOpen? || pc.FinalizeHashing? || pc.FinalizeRenaming? || pc.Done?
    requires Step(env, w, c, Go(count, drawn)).Some?
    ensures MovesOne(w, Step(env, w, c, Go(count, drawn)).value, c)
  {
    hide Rename, OpenExisting, Lookup;
  }

  lemma StoreMovesOne(env: Env, w: World, c: Client, count: nat, drawn: Text)
    requires c in w.procs
    requires var pc := w.procs[c];
             pc.PutStart? || pc.PutWriting? || pc.PutRenaming? || pc.GetStart? || pc.GetReading?
    requires Step(env, w, c, Go(count, drawn)).Some?
    ensures MovesOne(w, Step(env, w, c, Go(count, drawn)).value, c)
  {
    hide OpenTruncate, Rename, Lookup, BeingWritten;
  }

  /** A step moves one client. */
  lemma StepMovesOne(env: Env, w: World, c: Client, act: Action)
    requires Step(env, w, c, act).Some?
    ensures MovesOne(w, Step(env, w, c, act).value, c)
  {
    hide Advance;
    if act.Go? {
      var pc := w.procs[c];
      if pc.PutWritten? || pc.PutRepository? || pc.PutImage? || pc.PutLinking? {
        PutMovesOne(env, w, c, act.count, act.drawn);
      } else if pc.Beginning? || pc.ChunkCheck? || pc.ChunkOpen? || pc.ChunkWriting? {
        ChunkMovesOne(env, w, c, act.count, act.drawn);
      } else if pc.PutStart? || pc.PutWriting? || pc.PutRenaming? || pc.GetStart? || pc.GetReading? {
        StoreMovesOne(env, w, c, act.count, act.drawn);
      } else {
        FinalizeMovesOne(env, w, c, act.count, act.drawn);
      }
    }
  }

  lemma OtherStepsKnow(env: Env, w: World, a: Registry, c: Client, count: nat, drawn: Text)
    requires c in w.procs && Knows(env, a, c, w.procs[c]) && Step(env, w, c, Go(count, drawn)).Some?
    requires var pc := w.procs[c];
             !pc.PutStart? && !pc.PutWriting? && !pc.PutRenaming? && !pc.GetStart? && !pc.GetReading?
    requires c in Step(env, w, c, Go(count, drawn)).value.procs
    ensures Knows(env, a, c, Step(env, w, c, Go(count, drawn)).value.procs[c])
  {
    hide EnsureDir, Symlink, Rename, OpenTruncate, OpenExisting, Lookup, BeingWritten, StoredAs;
    var pc := w.procs[c];
    var pc' := Step(env, w, c, Go(count, drawn)).value.procs[c];
    if pc.PutWritten? || pc.PutRepository? || pc.PutImage? || pc.PutLinking? {
      assert StoredAs(env, a, pc.body);
      assert pc'.Done? || ((pc'.PutRepository? || pc'.PutImage? || pc'.PutLinking? || pc'.PutRenaming?) && pc'.body == pc.body);
    } else {
      assert pc'.Done? || pc'.ChunkOpen? || pc'.ChunkWriting? || pc'.FinalizeOpen? || pc'.FinalizeHashing? || pc'.FinalizeRenaming?;
    }
  }

  lemma OtherStepsAreSilent(env: Env, w: World, c: Client, count: nat, drawn: Text)
    requires c in w.procs && Step(env, w, c, Go(count, drawn)).Some?
    requires var pc := w.procs[c];
             !pc.PutStart? && !pc.PutWriting? && !pc.PutRenaming? && !pc.GetStart? && !pc.GetReading?
    ensures EventOf(env, w, c, Go(count, drawn)) == Silent
  {
    hide Advance;
  }

  lemma OtherStepRefines(env: Env, w: World, a: Registry, c: Client, count: nat, drawn: Text)
    requires Refines(env, w, a) && c in w.procs && Step(env, w, c, Go(count, drawn)).Some?
    requires var pc := w.procs[c];
             !pc.PutStart? && !pc.PutWriting? && !pc.PutRenaming? && !pc.GetStart? && !pc.GetReading?
    ensures EventOf(env, w, c, Go(count, drawn)) == Silent
    ensures Refines(env, Step(env, w, c, Go(count, drawn)).value, a)
  {
    hide Base, SameStore, Advance, ManifestsMatch, ContentsMatch, TagsMatch, ClientsKnow;
    StepKeepsBase(env, w, c, Go(count, drawn));
    OtherStepsKeepStore(env, w, c, count, drawn);
    ClientKnows(env, w, a, c);
    StepMovesOne(env, w, c, Go(count, drawn));
    OtherStepsKnow(env, w, a, c, count, drawn);
    OtherStepsAreSilent(env, w, c, count, drawn);
    SilentStep(env, w, Step(env, w, c, Go(count, drawn)).value, a, c);
  }

  /** A client that starts or is cut short shows nothing. */
  lemma EdgeStepRefines(env: Env, w: World, a: Registry, c: Client, act: Action)
    requires Refines(env, w, a) && Step(env, w, c, act).Some? && !act.Go?
    ensures Refines(env, Step(env, w, c, act).value, a)
  {
    hide Base, SameStore, ManifestsMatch, ContentsMatch, TagsMatch, ClientsKnow, Inodes;
    var w' := Step(env, w, c, act).value;
    StepKeepsBase(env, w, c, act);
    BaseGivesInodes(env, w);
    assert w' == w.At(c, w'.procs[c]);
    MovingKeepsStore(w, c, w'.procs[c]);
    if c in w.procs {
      SilentStep(env, w, w', a, c);
    } else {
      NewClientMatches(env, w, a, c, w'.procs[c]);
    }
  }

  lemma NewClientMatches(env: Env, w: World, a: Registry, c: Client, pc: Proc)
    requires ManifestsMatch(env, w, a) && ContentsMatch(w, a) && ClientsKnow(env, w, a)
    requires c !in w.procs && Knows(env, a, c, pc)
    ensures var w' := w.At(c, pc); ManifestsMatch(env, w', a) && ContentsMatch(w', a) && ClientsKnow(env, w', a)
  {
    var w' := w.At(c, pc);
    forall n | n in a.manifests && ManifestEntry(n) in w.disk.tree && w.disk.tree[ManifestEntry(n)].File?
      ensures Covered(w', w.disk.tree[ManifestEntry(n)].ino, a.manifests[n])
    {
      StaysCovered(w, w', w.disk.tree[ManifestEntry(n)].ino, a.manifests[n]);
    }
    KnowsFramed(env, w, w', a, a, c);
  }

  /** Every step of the store is a step of the atomic registry. */
  lemma StepRefines(env: Env, w: World, a: Registry, c: Client, act: Action)
    requires Refines(env, w, a) && Step(env, w, c, act).Some?
    requires NoCollisions(env, Step(env, w, c, act).value.payloads)
    ensures Accept(a, EventOf(env, w, c, act)).Some?
    ensures Refines(env, Step(env, w, c, act).value, Accept(a, EventOf(env, w, c, act)).value)
  {
    hide Refines, BeingWritten;
    if !act.Go? {
      EdgeStepRefines(env, w, a, c, act);
    } else {
      var pc := w.procs[c];
      match pc {
        case PutStart(_, body) =>
          if env.parses(body) {
            PutStartOpens(env, w, a, c);
            PutStartRefines(env, w, a, c);
          } else {
            RefusedPutRefines(env, w, a, c);
          }
        case PutWriting(_, _, _, _) => PutWritingRefines(env, w, a, c, act.count);
        case PutRenaming(_, _, _) => PutRenamingRefines(env, w, a, c);
        case GetStart(_) => GetStartRefines(env, w, a, c);
        case GetReading(_, _, _, _, _) => GetReadingRefines(env, w, a, c, act.count);
        case _ => OtherStepRefines(env, w, a, c, act.count, act.drawn);
      }
    }
  }

  /** Opening the manifest file of a valid body always works. */
  lemma PutStartOpens(env: Env, w: World, a: Registry, c: Client)
    requires Refines(env, w, a) && c in w.procs && w.procs[c].PutStart? && env.parses(w.procs[c].body)
    ensures StepPutStart(env, w, c, w.procs[c]).payloads == w.payloads + {w.procs[c].body}
  {
    hide WellFormed, UploadsHold, BlobsHaveOrigin, TempLinks;
    HexIsComponent(env.sha(w.procs[c].body));
    OpenTruncateEffect(w.disk, "manifests", NameOf(env, w.procs[c].body));
  }

  lemma RefusedPutRefines(env: Env, w: World, a: Registry, c: Client)
    requires Refines(env, w, a) && c in w.procs && w.procs[c].PutStart? && !env.parses(w.procs[c].body)
    ensures Refines(env, StepPutStart(env, w, c, w.procs[c]), a)
  {
    hide Base, SameStore, ManifestsMatch, ContentsMatch, TagsMatch, ClientsKnow;
    PutStartKeeps(env, w, c);
    MovingKeepsStore(w, c, Done(Failed(InvalidManifest)));
    SilentStep(env, w, w.Fail(c, InvalidManifest), a, c);
  }

  // ---------- Whole runs ----------

  /** What a schedule shows, step by step. */
  ghost function Trace(env: Env, w: World, schedule: seq<Label>): seq<Event>
    requires Run(env, w, schedule).Some?
    decreases |schedule|
  {
    if schedule == [] then []
    else
      var l := schedule[0];
      [EventOf(env, w, l.client, l.action)] + Trace(env, Step(env, w, l.client, l.action).value, schedule[1..])
  }

  function AcceptAll(a: Registry, events: seq<Event>): Option<Registry>
    decreases |events|
  {
    if events == [] then Some(a)
    else
      match Accept(a, events[0])
      case Some(next) => AcceptAll(next, events[1..])
      case None => None
  }

  lemma {:induction false} RunPayloadsGrow(env: Env, w: World, schedule: seq<Label>)
    requires Run(env, w, schedule).Some?
    ensures w.payloads <= Run(env, w, schedule).value.payloads
    decreases |schedule|
  {
    if schedule != [] {
      PayloadsGrow(env, w, schedule[0].client, schedule[0].action);
      RunPayloadsGrow(env, Step(env, w, schedule[0].client, schedule[0].action).value, schedule[1..]);
    }
  }

  /**
   Every run of any number of clients shows a trace the atomic registry accepts, and ends in
   a state that refines where the registry ends. The only hypothesis is that no two manifests
   whose writing began in the run collide under the hash.
   */
  lemma {:induction false} RunRefines(env: Env, w: World, a: Registry, schedule: seq<Label>)
    requires Refines(env, w, a) && Run(env, w, schedule).Some?
    requires NoCollisions(env, Run(env, w, schedule).value.payloads)
    ensures AcceptAll(a, Trace(env, w, schedule)).Some?
    ensures Refines(env, Run(env, w, schedule).value, AcceptAll(a, Trace(env, w, schedule)).value)
    decreases |schedule|
  {
    hide Refines;
    if schedule != [] {
      var l := schedule[0];
      var next := Step(env, w, l.client, l.action).value;
      RunPayloadsGrow(env, next, schedule[1..]);
      StepRefines(env, w, a, l.client, l.action);
      var a' := Accept(a, EventOf(env, w, l.client, l.action)).value;
      RunRefines(env, next, a', schedule[1..]);
      assert Trace(env, w, schedule)[1..] == Trace(env, next, schedule[1..]);
    }
  }

  lemma EmptyRefinesNothing(env: Env)
    ensures Refines(env, EMPTY, NOTHING)
  {
    hide Base;
    EmptyIsBase(env);
    forall n, l, t
      ensures ManifestEntry(n) !in FRESH.tree && TagPath(l, t) !in FRESH.tree
    {
      assert |ManifestEntry(n)| == 2 && |TagPath(l, t)| == 4;
    }
  }
}
