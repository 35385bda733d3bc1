/**
 The volumes an image declares: which declared paths are accepted, and where they end up
 on the host and in the container.
 */
module Volumes {
  import opened Prelude
  import opened Texts
  import opened Paths

  // ---------- Path components ----------

  datatype Component = RootDir | CurDir | ParentDir | Normal(name: Text)

  /** Empty pieces and inner dots are no components. */
  function Body(pieces: seq<Text>): seq<Component> {
    if pieces == [] then []
    else if pieces[0] == "" || pieces[0] == "." then Body(pieces[1..])
    else [if pieces[0] == ".." then ParentDir else Normal(pieces[0])] + Body(pieces[1..])
  }

  predicate LeadingDot(path: Text) {
    !IsAbsolute(path) && Split(path)[0] == "."
  }

  /** A dot is a component only at the start of a relative path. */
  function Components(path: Text): seq<Component> {
    (if IsAbsolute(path) then [RootDir] else if LeadingDot(path) then [CurDir] else []) + Body(Split(path))
  }

  /** An absolute path without its root, and without what precedes the first component after it. */
  function AfterRoot(path: Text): Text {
    if path == "" then ""
    else if path[0] == '/' then AfterRoot(path[1..])
    else if path == "." then ""
    else if path[0] == '.' && path[1] == '/' then AfterRoot(path[2..])
    else path
  }

  // ---------- What is accepted ----------

  /** No parent component anywhere, and no leading dot. */
  predicate IsAccepted(path: Text) {
    ".." !in Split(path) && !LeadingDot(path)
  }

  function Relative(names: seq<Text>): Text {
    if names == [] then "" else Pushed(Relative(names[..|names| - 1]), names[|names| - 1])
  }

  function VolumeOf(path: Text): Option<Text> {
    if IsAccepted(path) then Some(Relative(Names(Split(path)))) else None
  }

  lemma {:induction false} AfterRootKeepsBody(path: Text)
    ensures Body(Split(AfterRoot(path))) == Body(Split(path))
    ensures !LeadingDot(AfterRoot(path)) && !IsAbsolute(AfterRoot(path))
  {
    if path == "" {
    } else if path[0] == '/' {
      AfterRootKeepsBody(path[1..]);
      assert path == "/" + path[1..];
      SplitSlash(path[1..]);
      assert ([[]] + Split(path[1..]))[1..] == Split(path[1..]);
    } else if path == "." {
      assert path == ['.'] + "";
      SplitLetter('.', "");
      assert Split(path) == ["."];
    } else if path[0] == '.' && path[1] == '/' {
      AfterRootKeepsBody(path[2..]);
      SplitDotSlash(path);
    } else {
      NoLeadingDot(path);
    }
  }

  lemma SplitDotSlash(path: Text)
    requires |path| >= 2 && path[0] == '.' && path[1] == '/'
    ensures Split(path) == ["."] + Split(path[2..]) && Split(path)[1..] == Split(path[2..])
  {
    assert path == ['.'] + path[1..] && path[1..] == "/" + path[2..];
    SplitSlash(path[2..]);
    SplitLetter('.', path[1..]);
    assert Split(path[1..])[0] == [] && Split(path[1..])[1..] == Split(path[2..]);
    assert ['.'] + [] == ".";
  }

  lemma NoLeadingDot(path: Text)
    requires path != "" && path[0] != '/' && path != "." && !(path[0] == '.' && |path| >= 2 && path[1] == '/')
    ensures Split(path)[0] != "."
  {
    var rest := path[1..];
    assert path == [path[0]] + rest;
    SplitLetter(path[0], rest);
    if rest != "" {
      FirstPieceEmpty(rest);
    }
  }

  lemma {:induction false} BodyHasParent(pieces: seq<Text>)
    ensures ParentDir in Body(pieces) <==> ".." in pieces
  {
    if pieces != [] {
      BodyHasParent(pieces[1..]);
      assert pieces == [pieces[0]] + pieces[1..];
    }
  }

  /** Without parents the components are the names. */
  lemma {:induction false} BodyIsNames(pieces: seq<Text>)
    requires ".." !in pieces
    ensures |Body(pieces)| == |Names(pieces)|
    ensures forall i | 0 <= i < |Body(pieces)| :: Body(pieces)[i] == Normal(Names(pieces)[i])
  {
    if pieces != [] {
      assert pieces[0] in pieces;
      BodyIsNames(pieces[1..]);
    }
  }

  lemma {:induction false} BodyIsRelative(pieces: seq<Text>)
    ensures CurDir !in Body(pieces) && RootDir !in Body(pieces)
  {
    if pieces != [] {
      BodyIsRelative(pieces[1..]);
    }
  }

  predicate AreNames(components: seq<Component>) {
    forall i | 0 <= i < |components| :: components[i].Normal?
  }

  lemma BodyDecides(pieces: seq<Text>)
    ensures ".." !in pieces <==> AreNames(Body(pieces))
    ensures ".." !in pieces ==> |Body(pieces)| == |Names(pieces)|
                                && forall i | 0 <= i < |Names(pieces)| :: Body(pieces)[i] == Normal(Names(pieces)[i])
  {
    hide Body, Names;
    BodyHasParent(pieces);
    BodyIsRelative(pieces);
    if ".." in pieces {
      var i :| 0 <= i < |Body(pieces)| && Body(pieces)[i] == ParentDir;
    } else {
      BodyIsNames(pieces);
    }
  }

  /** The components walked are all names exactly when the path is accepted, and then they are its names. */
  lemma ComponentsOf(path: Text)
    ensures var components := Components(if IsAbsolute(path) then AfterRoot(path) else path);
            && (IsAccepted(path) <==> AreNames(components))
            && (IsAccepted(path) ==> |components| == |Names(Split(path))|
                                     && forall i | 0 <= i < |components| :: components[i] == Normal(Names(Split(path))[i]))
  {
    hide Split, Body, Names, AfterRoot;
    var body := Body(Split(path));
    var components := Components(if IsAbsolute(path) then AfterRoot(path) else path);
    BodyDecides(Split(path));
    if IsAbsolute(path) {
      AfterRootKeepsBody(path);
      assert components == body;
    } else if LeadingDot(path) {
      assert components[0] == CurDir;
    } else {
      assert components == body;
    }
  }

  predicate ArePlain(names: seq<Text>) {
    forall i | 0 <= i < |names| :: IsName(names[i]) && '/' !in names[i]
  }

  lemma NamesArePlain(path: Text)
    requires IsAccepted(path)
    ensures ArePlain(Names(Split(path)))
  {
  }

  /** The built path splits into the names it was built of. */
  lemma {:induction false} SplitOfRelative(names: seq<Text>)
    requires ArePlain(names)
    ensures names != [] ==> Split(Relative(names)) == names && Relative(names) != ""
    ensures !IsAbsolute(Relative(names)) && !EndsWithSlash(Relative(names))
  {
    hide Split;
    if names != [] {
      var front, last := names[..|names| - 1], names[|names| - 1];
      assert ArePlain(front) && names == front + [last];
      SplitOfRelative(front);
      WordIsOnePiece(last);
      assert last[0] in last && last[|last| - 1] in last;
      if front == [] {
        assert "" + last == last;
        assert names == [last];
      } else {
        SplitAtSlash(Relative(front), last);
        assert Relative(names) == Relative(front) + "/" + last;
      }
    }
  }

  lemma {:induction false} NamesOfPlain(names: seq<Text>)
    requires ArePlain(names)
    ensures Names(names) == names && ".." !in names
  {
    if names != [] {
      NamesOfPlain(names[1..]);
      assert names == [names[0]] + names[1..];
    }
  }

  lemma NamesOfRelative(names: seq<Text>)
    requires ArePlain(names)
    ensures Names(Split(Relative(names))) == names && IsAccepted(Relative(names))
  {
    hide Split, Relative;
    SplitOfRelative(names);
    NamesOfPlain(names);
    if names == [] {
      EmptyPath();
    }
  }

  lemma EmptyPath()
    ensures Relative([]) == "" && Split("") == [""] && Names([""]) == []
  {
  }

  /**
   A path is accepted exactly when no piece of it is a parent, and its first piece is no dot unless it is
   absolute. The volume has the names of the path for its pieces; a path without names is the empty one.
   */
  lemma VolumeDecides(path: Text)
    ensures VolumeOf(path).Some? <==>
              ".." !in Split(path) && ((path != "" && path[0] == '/') || Split(path)[0] != ".")
    ensures VolumeOf(path).Some? ==>
              if Names(Split(path)) == [] then VolumeOf(path).value == ""
              else Split(VolumeOf(path).value) == Names(Split(path))
  {
    hide Split, Names, Relative;
    if VolumeOf(path).Some? {
      NamesArePlain(path);
      SplitOfRelative(Names(Split(path)));
      EmptyPath();
    }
  }

  /** Below the root or on its own, a single name is that volume. */
  lemma SingleName(name: Text)
    requires IsName(name) && '/' !in name
    ensures VolumeOf("/" + name) == Some(name) && VolumeOf(name) == Some(name)
  {
    hide Split;
    SplitSlash(name);
    WordIsOnePiece(name);
    assert Split("/" + name) == ["", name];
    assert ["", name][1..] == [name] && [name][1..] == [];
    assert Names([name]) == [name] && Names(["", name]) == [name];
    assert Relative([name]) == name by {
      assert [name][..0] == [] && name[0] in name && "" + name == name;
    }
  }

  /** The component loop accepts exactly these paths, and yields their names one below the other. */
  method FromPath(path: Text) returns (r: Option<Text>)
    ensures r == VolumeOf(path)
    ensures r.Some? <==> ".." !in Split(path) && ((path != "" && path[0] == '/') || Split(path)[0] != ".")
    ensures r.Some? ==> if Names(Split(path)) == [] then r.value == "" else Split(r.value) == Names(Split(path))
  {
    hide Split, Names, AfterRoot, Pushed, Components, IsAccepted;
    VolumeDecides(path);
    var rest := path;
    if IsAbsolute(path) {
      rest := AfterRoot(path);
    }
    var components := Components(rest);
    ComponentsOf(path);
    ghost var names := Names(Split(path));
    var parts := "";
    for k := 0 to |components|
      invariant IsAccepted(path) ==> parts == Relative(names[..k])
      invariant AreNames(components[..k])
    {
      match components[k] {
        case Normal(name) =>
          if IsAccepted(path) {
            assert names[..k + 1] == names[..k] + [names[k]];
            assert names[..k + 1][..k] == names[..k];
          }
          parts := Pushed(parts, name);
        case _ =>
          return None;
      }
    }
    assert IsAccepted(path) ==> names[..|components|] == names;
    assert components[..|components|] == components;
    r := Some(parts);
  }

  // ---------- Where volumes end up ----------

  /** Taking a volume's own path again changes nothing. */
  lemma AcceptedIsStable(path: Text)
    requires VolumeOf(path).Some?
    ensures VolumeOf(VolumeOf(path).value) == Some(VolumeOf(path).value)
  {
    hide Split, Names, Relative;
    NamesArePlain(path);
    NamesOfRelative(Names(Split(path)));
  }

  function HostPath(base: Text, volume: Text): Text { Pushed(base, volume) }

  function ContainerPath(volume: Text): Text { Pushed("/", volume) }

  lemma RelativeLeadsDown(base: Text, path: Text)
    requires VolumeOf(path).Some?
    ensures Directory(Pushed(base, VolumeOf(path).value)) == Directory(base) + Directory(path)
  {
    hide Split, Names, Relative, Follow, Pushed;
    var names := Names(Split(path));
    NamesArePlain(path);
    NamesOfRelative(names);
    SplitOfRelative(names);
    PushedDirectory(base, Relative(names));
    FollowDown(Directory(base), Split(Relative(names)));
    FollowDown([], Split(path));
    assert [] + names == names;
  }

  /**
   The mount point in the container is the declared directory, and the host directory is that
   same directory below the volume base: never outside it.
   */
  lemma MountsAreDeclared(base: Text, path: Text)
    requires VolumeOf(path).Some?
    ensures Directory(ContainerPath(VolumeOf(path).value)) == Directory(path)
    ensures Directory(HostPath(base, VolumeOf(path).value)) == Directory(base) + Directory(path)
    ensures Directory(base) <= Directory(HostPath(base, VolumeOf(path).value))
  {
    hide Split, Follow, VolumeOf, Pushed;
    RelativeLeadsDown("/", path);
    RelativeLeadsDown(base, path);
    RootIsEmpty();
    assert [] + Directory(path) == Directory(path);
  }

  lemma RootIsEmpty()
    ensures Directory("/") == []
  {
    assert "/" == "/" + "";
    SplitSlash("");
    assert Split("/")[1..] == [""];
  }

  /** Two accepted paths share a host directory exactly when they declare the same directory. */
  lemma VolumesAreSeparate(base: Text, a: Text, b: Text)
    requires VolumeOf(a).Some? && VolumeOf(b).Some?
    ensures Directory(HostPath(base, VolumeOf(a).value)) == Directory(HostPath(base, VolumeOf(b).value))
            <==> Directory(a) == Directory(b)
  {
    hide Directory, VolumeOf, HostPath;
    MountsAreDeclared(base, a);
    MountsAreDeclared(base, b);
    if Directory(base) + Directory(a) == Directory(base) + Directory(b) {
      assert Directory(a) == (Directory(base) + Directory(a))[|Directory(base)|..];
      assert Directory(b) == (Directory(base) + Directory(b))[|Directory(base)|..];
    }
  }
}
