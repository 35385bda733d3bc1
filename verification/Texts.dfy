/** The text operations the program uses: case, searching, splitting at slashes. */
module Texts {
  import opened Prelude

  /** Lower case of ASCII letters; other characters stay. */
  function LowerChar(c: char): char {
    if 'A' <= c <= 'Z' then c - 'A' + 'a' else c
  }

  function ToLower(s: Text): (r: Text)
    ensures |r| == |s| && forall i | 0 <= i < |s| :: r[i] == LowerChar(s[i])
  {
    if s == [] then [] else [LowerChar(s[0])] + ToLower(s[1..])
  }

  predicate IsUpper(c: char) {
    'A' <= c <= 'Z'
  }

  /** One letter in two cases, or one character. */
  predicate SameLetter(a: char, b: char) {
    a == b || (IsUpper(a) && b as int == a as int + 32) || (IsUpper(b) && a as int == b as int + 32)
  }

  /** Equal up to letter case, by character codes. */
  predicate SameLetters(a: Text, b: Text) {
    |a| == |b| && forall i | 0 <= i < |a| :: SameLetter(a[i], b[i])
  }

  predicate NoUpper(s: Text) {
    forall i | 0 <= i < |s| :: !IsUpper(s[i])
  }

  lemma LowerLetter(a: char, b: char)
    ensures LowerChar(a) == LowerChar(b) <==> SameLetter(a, b)
    ensures SameLetter(a, LowerChar(a)) && !IsUpper(LowerChar(a))
    ensures LowerChar(a) == a <==> !IsUpper(a)
  {
  }

  /** Lowering has no capital letter left and changes nothing but case. */
  lemma LoweredIsLower(s: Text)
    ensures NoUpper(ToLower(s)) && SameLetters(s, ToLower(s))
  {
    hide ToLower, LowerChar, IsUpper, SameLetter;
    forall i | 0 <= i < |s|
      ensures !IsUpper(ToLower(s)[i]) && SameLetter(s[i], ToLower(s)[i])
    {
      LowerLetter(s[i], s[i]);
    }
  }

  /** Two texts are lowered to one exactly when they are equal up to letter case. */
  lemma LoweringIgnoresCase(a: Text, b: Text)
    ensures ToLower(a) == ToLower(b) <==> SameLetters(a, b)
  {
    hide ToLower, LowerChar, SameLetter;
    var x, y := ToLower(a), ToLower(b);
    forall i | 0 <= i < |a| && i < |b|
      ensures x[i] == y[i] <==> SameLetter(a[i], b[i])
    {
      LowerLetter(a[i], b[i]);
    }
    if x == y {
      forall i | 0 <= i < |a|
        ensures SameLetter(a[i], b[i])
      {
        assert x[i] == y[i];
      }
    }
  }

  /** The lowered text is the one without capitals that is equal up to letter case. */
  lemma LoweredExactly(s: Text, lower: Text)
    ensures ToLower(s) == lower <==> SameLetters(s, lower) && NoUpper(lower)
  {
    hide ToLower, LowerChar, SameLetter, IsUpper;
    LoweredIsLower(s);
    LoweringIgnoresCase(s, lower);
    if NoUpper(lower) {
      forall i | 0 <= i < |lower|
        ensures ToLower(lower)[i] == lower[i]
      {
        LowerLetter(lower[i], lower[i]);
      }
      assert ToLower(lower) == lower;
    }
  }

  function LastIndexOf(s: Text, c: char): (r: Option<nat>)
    ensures r.None? <==> c !in s
    ensures r.Some? ==> r.value < |s| && s[r.value] == c && c !in s[r.value + 1..]
  {
    if s == [] then None
    else if s[|s| - 1] == c then Some(|s| - 1)
    else
      assert s == s[..|s| - 1] + [s[|s| - 1]];
      match LastIndexOf(s[..|s| - 1], c)
      case None => None
      case Some(i) =>
        assert s[i + 1..] == s[..|s| - 1][i + 1..] + [s[|s| - 1]];
        Some(i)
  }

  lemma LastIndexIs(s: Text, c: char, i: nat)
    requires i < |s| && s[i] == c && forall k | i < k < |s| :: s[k] != c
    ensures LastIndexOf(s, c) == Some(i)
  {
    var j := LastIndexOf(s, c).value;
    assert forall k | j < k < |s| :: s[k] == s[j + 1..][k - j - 1];
  }

  /** `pattern` stands in `s` at position `i`. */
  predicate OccursAt(s: Text, pattern: Text, i: nat) {
    i + |pattern| <= |s| && s[i..i + |pattern|] == pattern
  }

  /** The first occurrence of a pattern at or after `from`. */
  function FindFrom(s: Text, pattern: Text, from: nat): (r: Option<nat>)
    requires from <= |s|
    ensures r.Some? ==> from <= r.value && OccursAt(s, pattern, r.value)
                        && forall i | from <= i < r.value :: !OccursAt(s, pattern, i)
    ensures r.None? ==> forall i | from <= i :: !OccursAt(s, pattern, i)
    decreases |s| - from
  {
    if OccursAt(s, pattern, from) then Some(from)
    else if from == |s| then None
    else FindFrom(s, pattern, from + 1)
  }

  function Find(s: Text, pattern: Text): Option<nat> {
    FindFrom(s, pattern, 0)
  }

  predicate StartsWith(s: Text, prefix: Text) {
    prefix <= s
  }

  predicate EndsWithSlash(s: Text) {
    s != [] && s[|s| - 1] == '/'
  }

  /** Drops every leading `c`. */
  function TrimStart(s: Text, c: char): (r: Text)
    ensures r == [] || r[0] != c
    ensures |r| <= |s| && r == s[|s| - |r|..] && forall i | 0 <= i < |s| - |r| :: s[i] == c
  {
    if s != [] && s[0] == c then TrimStart(s[1..], c) else s
  }

  // ---------- Splitting at slashes ----------

  /** All pieces between slashes, empty ones included. */
  function Split(s: Text): (r: seq<Text>)
    ensures r != []
    ensures forall i | 0 <= i < |r| :: '/' !in r[i]
  {
    if s == [] then [[]]
    else
      var rest := Split(s[1..]);
      if s[0] == '/' then [[]] + rest else [[s[0]] + rest[0]] + rest[1..]
  }

  function Joined(parts: seq<Text>): Text
    requires parts != []
  {
    if |parts| == 1 then parts[0] else parts[0] + "/" + Joined(parts[1..])
  }

  lemma {:induction false} JoinOfSplit(s: Text)
    ensures Joined(Split(s)) == s
  {
    if s != [] {
      JoinOfSplit(s[1..]);
      var rest := Split(s[1..]);
      if s[0] == '/' {
        assert ([[]] + rest)[1..] == rest;
      } else {
        assert ([[s[0]] + rest[0]] + rest[1..])[1..] == rest[1..];
        if |rest| == 1 {
          assert Joined(Split(s)) == [s[0]] + rest[0];
        } else {
          assert Joined(Split(s)) == [s[0]] + rest[0] + "/" + Joined(rest[1..]);
        }
      }
    }
  }

  lemma {:induction false} SplitOfJoin(parts: seq<Text>)
    requires parts != [] && forall i | 0 <= i < |parts| :: '/' !in parts[i]
    ensures Split(Joined(parts)) == parts
    decreases |parts|, |parts[0]|
  {
    if parts[0] == [] {
      if |parts| > 1 {
        SplitOfJoin(parts[1..]);
        assert Joined(parts) == "/" + Joined(parts[1..]);
        assert Joined(parts)[1..] == Joined(parts[1..]);
        assert parts == [[]] + parts[1..];
      }
    } else {
      var first := parts[0];
      assert first[0] in first;
      var shorter := [first[1..]] + parts[1..];
      assert Joined(parts)[0] == first[0];
      assert Joined(parts)[1..] == Joined(shorter) by {
        assert shorter[1..] == parts[1..];
      }
      SplitOfJoin(shorter);
      assert first == [first[0]] + first[1..];
      assert parts == [first] + parts[1..];
    }
  }

  function NonEmpty(parts: seq<Text>): (r: seq<Text>)
    ensures forall i | 0 <= i < |r| :: r[i] != [] && r[i] in parts
  {
    if parts == [] then []
    else if parts[0] == [] then NonEmpty(parts[1..])
    else [parts[0]] + NonEmpty(parts[1..])
  }

  predicate IsSegment(s: Text) {
    s != [] && '/' !in s
  }

  /** The nonempty pieces between slashes. */
  function Segments(path: Text): (r: seq<Text>)
    ensures forall i | 0 <= i < |r| :: IsSegment(r[i])
  {
    NonEmpty(Split(path))
  }

  /** Each segment preceded by a slash. */
  function Slashed(segments: seq<Text>): Text {
    if segments == [] then [] else "/" + segments[0] + Slashed(segments[1..])
  }

  /** Every run of slashes replaced by one. */
  function Collapse(s: Text): Text {
    if |s| < 2 then s
    else if s[0] == '/' && s[1] == '/' then Collapse(s[1..])
    else [s[0]] + Collapse(s[1..])
  }

  predicate NoDoubleSlash(s: Text) {
    forall i | 0 <= i < |s| - 1 :: !(s[i] == '/' && s[i + 1] == '/')
  }

  function Tail(s: Text): Text {
    if EndsWithSlash(s) then "/" else ""
  }

  lemma SplitSlash(t: Text)
    ensures Split("/" + t) == [[]] + Split(t) && Segments("/" + t) == Segments(t)
  {
    assert ("/" + t)[1..] == t;
    assert ([[]] + Split(t))[1..] == Split(t);
  }

  lemma SplitLetter(c: char, t: Text)
    requires c != '/'
    ensures Split([c] + t) == [[c] + Split(t)[0]] + Split(t)[1..]
    ensures Segments([c] + t) == [[c] + Split(t)[0]] + NonEmpty(Split(t)[1..])
  {
    assert ([c] + t)[1..] == t;
    var pieces := [[c] + Split(t)[0]] + Split(t)[1..];
    assert pieces[1..] == Split(t)[1..];
  }

  lemma SlashedCons(first: Text, rest: seq<Text>)
    ensures Slashed([first] + rest) == "/" + first + Slashed(rest)
  {
    assert ([first] + rest)[1..] == rest;
  }

  lemma SegmentsUnderFirst(t: Text)
    ensures Segments(t) == (if Split(t)[0] == [] then [] else [Split(t)[0]]) + NonEmpty(Split(t)[1..])
  {
  }

  /** A path is, up to runs of slashes, its segments each after a slash, and the slash it ends in. */
  lemma {:induction false} CollapseIsSlashed(s: Text)
    ensures (if s == [] || s[0] == '/' then [] else "/") + Collapse(s) == Slashed(Segments(s)) + Tail(s)
  {
    if s != [] {
      var c, t := s[0], s[1..];
      assert s == [c] + t;
      CollapseIsSlashed(t);
      if t == [] {
        if c == '/' {
          SplitSlash(t);
        } else {
          SplitLetter(c, t);
          SlashedCons([c] + [], []);
        }
      } else {
        assert Tail(s) == Tail(t);
        if c == '/' {
          SplitSlash(t);
        } else {
          SplitLetter(c, t);
          SegmentsUnderFirst(t);
          var first, others := Split(t)[0], NonEmpty(Split(t)[1..]);
          SlashedCons([c] + first, others);
          SlashedCons(first, others);
          FirstPieceEmpty(t);
          LetterCase(c, first, Slashed(others), Tail(t), Collapse(t), Slashed(Segments(t)));
        }
      }
    }
  }

  lemma FirstPieceEmpty(t: Text)
    requires t != []
    ensures Split(t)[0] == [] <==> t[0] == '/'
  {
  }

  lemma Regroup(a: Text, b: Text, c: Text)
    ensures a + (b + c) == a + b + c
  {
  }

  /** Regrouping of the pieces when a letter is put in front. */
  lemma LetterCase(c: char, first: Text, others: Text, tail: Text, collapsed: Text, slashed: Text)
    requires slashed == (if first == [] then others else "/" + first + others)
    requires (if first == [] then [] else "/") + collapsed == slashed + tail
    ensures "/" + ([c] + collapsed) == "/" + ([c] + first) + others + tail
  {
    assert collapsed == first + others + tail by {
      WithoutFirst(first, others, tail, collapsed, slashed);
    }
    Regroup("/", [c] + first, others);
    Regroup("/", [c] + first + others, tail);
    Regroup([c], first, others);
    Regroup([c], first + others, tail);
  }

  lemma WithoutFirst(first: Text, others: Text, tail: Text, collapsed: Text, slashed: Text)
    requires slashed == (if first == [] then others else "/" + first + others)
    requires (if first == [] then [] else "/") + collapsed == slashed + tail
    ensures collapsed == first + others + tail
  {
    if first == [] {
      assert [] + collapsed == collapsed && [] + others == others;
    } else {
      Regroup("/", first, others);
      Regroup("/", first + others, tail);
      assert ("/" + collapsed)[1..] == collapsed;
      assert ("/" + (first + others + tail))[1..] == first + others + tail;
    }
  }

  lemma {:induction false} SplitAfter(word: Text, rest: Text)
    requires '/' !in word
    ensures Split(word + rest) == [word + Split(rest)[0]] + Split(rest)[1..]
  {
    if word == [] {
      assert word + rest == rest && word + Split(rest)[0] == Split(rest)[0];
      assert Split(rest) == [Split(rest)[0]] + Split(rest)[1..];
    } else {
      assert word[0] in word && word == [word[0]] + word[1..];
      assert word + rest == [word[0]] + (word[1..] + rest);
      SplitAfter(word[1..], rest);
      SplitLetter(word[0], word[1..] + rest);
      assert ([word[1..] + Split(rest)[0]] + Split(rest)[1..])[1..] == Split(rest)[1..];
      assert [word[0]] + (word[1..] + Split(rest)[0]) == word + Split(rest)[0];
    }
  }

  lemma SegmentThenRest(first: Text, rest: Text)
    requires IsSegment(first) && Split(rest)[0] == []
    ensures Segments(first + rest) == [first] + Segments(rest)
  {
    SplitAfter(first, rest);
    assert first + [] == first;
    SegmentsUnderFirst(rest);
    SegmentsUnderFirst(first + rest);
    assert ([first] + Split(rest)[1..])[1..] == Split(rest)[1..];
  }

  lemma TailHasNoSegment(tail: Text)
    requires tail == "" || tail == "/"
    ensures Segments(tail) == [] && Split(tail)[0] == []
  {
    if tail == "/" {
      assert tail == "/" + "";
      SplitSlash("");
    }
  }

  /** Slashing segments, with or without a final slash, keeps exactly those segments. */
  lemma {:induction false} SegmentsOfSlashed(segments: seq<Text>, tail: Text)
    requires (forall i | 0 <= i < |segments| :: IsSegment(segments[i])) && (tail == "" || tail == "/")
    ensures Segments(Slashed(segments) + tail) == segments
    ensures Split(Slashed(segments) + tail)[0] == []
  {
    hide Segments, NonEmpty, Split;
    if segments == [] {
      assert Slashed(segments) + tail == tail;
      TailHasNoSegment(tail);
    } else {
      var first := segments[0];
      var rest := Slashed(segments[1..]) + tail;
      SegmentsOfSlashed(segments[1..], tail);
      SlashedCons(first, segments[1..]);
      assert segments == [first] + segments[1..];
      hide Slashed;
      assert Slashed(segments) + tail == "/" + (first + rest);
      SplitSlash(first + rest);
      SegmentThenRest(first, rest);
      assert segments == [first] + segments[1..];
    }
  }

  lemma {:induction false} SlashedEndsInSegment(segments: seq<Text>)
    requires forall i | 0 <= i < |segments| :: IsSegment(segments[i])
    ensures !EndsWithSlash(Slashed(segments))
  {
    if segments != [] {
      SlashedEndsInSegment(segments[1..]);
      var first := segments[0];
      assert first[|first| - 1] in first;
    }
  }

  lemma {:induction false} CollapseHasNoDoubleSlash(s: Text)
    ensures NoDoubleSlash(Collapse(s))
    ensures s != [] ==> Collapse(s) != [] && Collapse(s)[0] == s[0]
  {
    if |s| >= 2 {
      CollapseHasNoDoubleSlash(s[1..]);
    }
  }
}
