/**
 Paths as texts: how they are put together, and which directory they lead to.
 */
module Paths {
  import opened Prelude
  import opened Texts

  predicate IsName(piece: Text) {
    piece != "" && piece != "." && piece != ".."
  }

  predicate IsAbsolute(path: Text) {
    path != "" && path[0] == '/'
  }

  /** Appends a path to a buffer; an absolute one replaces it. */
  function Pushed(buffer: Text, path: Text): Text {
    if IsAbsolute(path) then path
    else if buffer == "" || EndsWithSlash(buffer) then buffer + path
    else buffer + "/" + path
  }

  function Names(pieces: seq<Text>): (r: seq<Text>)
    ensures forall i | 0 <= i < |r| :: r[i] != "" && r[i] != "." && r[i] in pieces
  {
    if pieces == [] then []
    else if pieces[0] == "" || pieces[0] == "." then Names(pieces[1..])
    else [pieces[0]] + Names(pieces[1..])
  }

  /** Where following the pieces from a directory leads; the root is its own parent. */
  function Follow(at: seq<Text>, pieces: seq<Text>): seq<Text>
    decreases |pieces|
  {
    if pieces == [] then at
    else if pieces[0] == "" || pieces[0] == "." then Follow(at, pieces[1..])
    else if pieces[0] == ".." then Follow(if at == [] then [] else at[..|at| - 1], pieces[1..])
    else Follow(at + [pieces[0]], pieces[1..])
  }

  /** The directory a path names, a relative one taken from the root. */
  function Directory(path: Text): seq<Text> {
    Follow([], Split(path))
  }

  lemma {:induction false} FollowInTwo(at: seq<Text>, first: seq<Text>, second: seq<Text>)
    ensures Follow(at, first + second) == Follow(Follow(at, first), second)
    decreases |first|
  {
    if first == [] {
      assert first + second == second;
    } else {
      assert (first + second)[1..] == first[1..] + second;
      FollowInTwo(at, first[1..], second);
      FollowInTwo(if at == [] then [] else at[..|at| - 1], first[1..], second);
      FollowInTwo(at + [first[0]], first[1..], second);
    }
  }

  /** Without parents, following only goes down. */
  lemma {:induction false} FollowDown(at: seq<Text>, pieces: seq<Text>)
    requires ".." !in pieces
    ensures Follow(at, pieces) == at + Names(pieces)
    decreases |pieces|
  {
    if pieces == [] {
      assert at + [] == at;
    } else {
      assert pieces[0] in pieces;
      FollowDown(at, pieces[1..]);
      FollowDown(at + [pieces[0]], pieces[1..]);
      assert at + [pieces[0]] + Names(pieces[1..]) == at + ([pieces[0]] + Names(pieces[1..]));
    }
  }

  lemma NothingSplits()
    ensures Split("") == [""]
  {
  }

  lemma {:induction false} SplitAtSlash(front: Text, back: Text)
    ensures Split(front + "/" + back) == Split(front) + Split(back)
  {
    hide Split;
    if front == "" {
      assert front + "/" + back == "/" + back;
      SplitSlash(back);
      NothingSplits();
    } else {
      var c, t := front[0], front[1..];
      var shorter := t + "/" + back;
      SplitAtSlash(t, back);
      assert front == [c] + t && front + "/" + back == [c] + shorter;
      if c == '/' {
        SplitSlash(t);
        SplitSlash(shorter);
        assert [[]] + (Split(t) + Split(back)) == ([[]] + Split(t)) + Split(back);
      } else {
        SplitLetter(c, t);
        SplitLetter(c, shorter);
        assert (Split(t) + Split(back))[1..] == Split(t)[1..] + Split(back);
      }
    }
  }

  /** A relative path leads down from the buffer's directory, an absolute one leads where it does on its own. */
  lemma PushedDirectory(buffer: Text, path: Text)
    ensures Directory(Pushed(buffer, path))
            == Follow(if path != "" && path[0] == '/' then [] else Directory(buffer), Split(path))
  {
    hide Split, Follow;
    if IsAbsolute(path) {
    } else if buffer == "" {
      assert buffer + path == path;
      EmptyLeadsNowhere([]);
    } else if EndsWithSlash(buffer) {
      var front := buffer[..|buffer| - 1];
      assert buffer == front + "/" + "" && buffer + path == front + "/" + path;
      SplitAtSlash(front, "");
      SplitAtSlash(front, path);
      FollowInTwo([], Split(front), Split(""));
      FollowInTwo([], Split(front), Split(path));
      EmptyLeadsNowhere(Follow([], Split(front)));
    } else {
      SplitAtSlash(buffer, path);
      FollowInTwo([], Split(buffer), Split(path));
    }
  }

  lemma EmptyLeadsNowhere(at: seq<Text>)
    ensures Follow(at, Split("")) == at
  {
  }

  lemma WordIsOnePiece(word: Text)
    requires '/' !in word
    ensures Split(word) == [word]
  {
    SplitAfter(word, "");
    assert word + "" == word;
  }
}
