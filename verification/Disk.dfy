/**
 A directory tree with symbolic links and open-file identities (inodes), and the
 system calls the registry store makes. Paths are component sequences below the
 store's canonical root; nothing above that root can be reached.
 */
module Disk {
  import opened Prelude

  type Path = seq<Text>
  type Ino = nat

  datatype Node = Dir | File(ino: Ino) | Link(target: Path)

  type Tree = map<Path, Node>

  datatype Disk = Disk(tree: Tree, data: map<Ino, Bytes>, next: Ino)

  /** How many symbolic links one lookup follows before giving up. */
  const MAX_LINKS: nat := 40

  predicate IsComponent(name: Text) {
    name != "" && name != "." && name != ".." && '/' !in name
  }

  function Parent(p: Path): Path
    requires p != []
  {
    p[..|p| - 1]
  }

  function Name(p: Path): Text
    requires p != []
  {
    p[|p| - 1]
  }

  predicate DirAt(tree: Tree, p: Path) {
    p in tree && tree[p].Dir?
  }

  /** Resolves `rest` starting in directory `cur`, following every link. */
  function Walk(tree: Tree, cur: Path, rest: Path, links: nat): Option<Path>
    decreases links, |rest|
  {
    if rest == [] then (if cur in tree then Some(cur) else None)
    else if !DirAt(tree, cur) then None
    else if rest[0] == "." then Walk(tree, cur, rest[1..], links)
    else if rest[0] == ".." then
      if cur == [] then None else Walk(tree, Parent(cur), rest[1..], links)
    else
      var p := cur + [rest[0]];
      if p !in tree then None
      else if tree[p].Link? then
        if links == 0 then None else Walk(tree, cur, tree[p].target + rest[1..], links - 1)
      else Walk(tree, p, rest[1..], links)
  }

  function Lookup(tree: Tree, p: Path): Option<Path> {
    Walk(tree, [], p, MAX_LINKS)
  }

  predicate Exists(tree: Tree, p: Path) {
    Lookup(tree, p).Some?
  }

  /** The physical place of an entry whose last component is not followed. */
  function Place(tree: Tree, p: Path): Option<Path>
    requires p != []
  {
    match Lookup(tree, Parent(p))
    case Some(dir) => if DirAt(tree, dir) then Some(dir + [Name(p)]) else None
    case None => None
  }

  function OpenExisting(disk: Disk, p: Path): Option<Ino> {
    match Lookup(disk.tree, p)
    case Some(q) => if q in disk.tree && disk.tree[q].File? then Some(disk.tree[q].ino) else None
    case None => None
  }

  /** Opens for writing; creates the file or empties it. */
  function OpenTruncate(disk: Disk, p: Path): Option<(Disk, Ino)>
    requires p != []
  {
    match Lookup(disk.tree, p)
    case Some(q) =>
      if q in disk.tree && disk.tree[q].File? then
        Some((disk.(data := disk.data[disk.tree[q].ino := []]), disk.tree[q].ino))
      else None
    case None =>
      match Place(disk.tree, p)
      case Some(q) =>
        if q in disk.tree then None
        else Some((Disk(disk.tree[q := File(disk.next)], disk.data[disk.next := []], disk.next + 1), disk.next))
      case None => None
  }

  /** Writes `chunk` at offset `off`, filling any gap with zeros. */
  function Overwrite(content: Bytes, off: nat, chunk: Bytes): (r: Bytes)
    ensures |r| == if off + |chunk| > |content| then off + |chunk| else |content|
    ensures forall p | 0 <= p < |r| ::
              r[p] == if off <= p < off + |chunk| then chunk[p - off] else if p < |content| then content[p] else 0
  {
    var padded := if |content| < off then content + seq(off - |content|, _ => 0) else content;
    padded[..off] + chunk + (if off + |chunk| < |padded| then padded[off + |chunk|..] else [])
  }

  function Contents(disk: Disk, ino: Ino): Bytes {
    if ino in disk.data then disk.data[ino] else []
  }

  function WriteAt(disk: Disk, ino: Ino, off: nat, chunk: Bytes): Disk {
    disk.(data := disk.data[ino := Overwrite(Contents(disk, ino), off, chunk)])
  }

  function Append(disk: Disk, ino: Ino, chunk: Bytes): Disk {
    disk.(data := disk.data[ino := Contents(disk, ino) + chunk])
  }

  function Mkdir(disk: Disk, p: Path): Option<Disk>
    requires p != []
  {
    match Place(disk.tree, p)
    case Some(q) => if q in disk.tree then None else Some(disk.(tree := disk.tree[q := Dir]))
    case None => None
  }

  predicate IsDir(tree: Tree, p: Path) {
    match Lookup(tree, p)
    case Some(q) => DirAt(tree, q)
    case None => false
  }

  /** One level of a recursive directory creation: an existing directory is fine. */
  function EnsureDir(disk: Disk, p: Path): Option<Disk>
    requires p != []
  {
    match Mkdir(disk, p)
    case Some(made) => Some(made)
    case None => if IsDir(disk.tree, p) then Some(disk) else None
  }

  function Symlink(disk: Disk, target: Path, p: Path): Option<Disk>
    requires p != []
  {
    match Place(disk.tree, p)
    case Some(q) => if q in disk.tree then None else Some(disk.(tree := disk.tree[q := Link(target)]))
    case None => None
  }

  /** Moves a file or link over `to`, replacing a file or link there. The store never moves directories. */
  function Rename(disk: Disk, from: Path, to: Path): Option<Disk>
    requires from != [] && to != []
  {
    match (Place(disk.tree, from), Place(disk.tree, to))
    case (Some(src), Some(dst)) =>
      if src !in disk.tree || disk.tree[src].Dir? || DirAt(disk.tree, dst) then None
      else Some(disk.(tree := (disk.tree - {src})[dst := disk.tree[src]]))
    case _ => None
  }

  /** What opening and reading to the end yields. */
  function ReadFile(disk: Disk, p: Path): Option<Bytes> {
    match OpenExisting(disk, p)
    case Some(ino) => Some(Contents(disk, ino))
    case None => None
  }

  // ---------- Resolution facts ----------

  function Ups(k: nat): (r: Path)
    ensures |r| == k && forall i | 0 <= i < k :: r[i] == ".."
  {
    if k == 0 then [] else [".."] + Ups(k - 1)
  }

  /** Climbing out of directories drops components, and never gets above the root. */
  lemma {:induction false} WalkUp(tree: Tree, cur: Path, k: nat, rest: Path, links: nat)
    requires forall j | 0 <= j <= |cur| :: DirAt(tree, cur[..j])
    ensures Walk(tree, cur, Ups(k) + rest, links)
            == if k <= |cur| then Walk(tree, cur[..|cur| - k], rest, links) else None
    decreases k
  {
    assert cur[..|cur|] == cur;
    if k == 0 {
      assert Ups(k) + rest == rest;
    } else {
      assert (Ups(k) + rest)[1..] == Ups(k - 1) + rest;
      if cur != [] {
        forall j | 0 <= j <= |Parent(cur)|
          ensures DirAt(tree, Parent(cur)[..j])
        {
          assert Parent(cur)[..j] == cur[..j];
        }
        WalkUp(tree, Parent(cur), k - 1, rest, links);
        if k <= |cur| {
          assert Parent(cur)[..|cur| - k] == cur[..|cur| - k];
        }
      }
    }
  }
}
