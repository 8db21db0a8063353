/**
 Canonical POSIX paths. The tests work on strings; the lemmas say what they mean
 for the lists of segments the paths stand for.
 */
module Posix {

  datatype Relationship = Equal | Ancestor | Descendant | Disjoint

  const SLASH := '/'
  const ROOT := "/"
  const HERE := "."
  const PARENT := ".."

  predicate StartsWith(s: string, prefix: string) {
    prefix <= s
  }

  predicate EndsWithSlash(s: string) {
    s != [] && s[|s| - 1] == SLASH
  }

  /** The parts between slashes; there is always at least one. */
  function Split(s: string): (parts: seq<string>)
    ensures parts != []
  {
    if s == [] then [[]] else Prepend(s[0], Split(s[1..]))
  }

  /** A character in front starts a new part if it is a slash, and extends the first one otherwise. */
  function Prepend(c: char, parts: seq<string>): (longer: seq<string>)
    requires parts != []
    ensures longer != []
  {
    if c == SLASH then [[]] + parts else [[c] + parts[0]] + parts[1..]
  }

  predicate IsSegment(part: string) {
    part != "" && part != HERE && part != PARENT
  }

  predicate AreSegments(parts: seq<string>) {
    forall i :: 0 <= i < |parts| ==> IsSegment(parts[i])
  }

  // ----- the functions -----

  predicate IsCanonicalAbsolute(value: string) {
    || value == ROOT
    || (StartsWith(value, ROOT) && !EndsWithSlash(value) && '\0' !in value && AreSegments(Split(value[1..])))
  }

  predicate IsCanonicalRelative(value: string, allowRoot: bool) {
    || (allowRoot && value == HERE)
    || (value != "" && !StartsWith(value, ROOT) && !EndsWithSlash(value) && '\0' !in value && AreSegments(Split(value)))
  }

  predicate ContainsSegment(path: string, segment: string) {
    path != HERE && path != ROOT && segment in Split(if StartsWith(path, ROOT) then path[1..] else path)
  }

  predicate IsAtOrBelow(candidate: string, parent: string) {
    if candidate == parent then true
    else if parent == ROOT then StartsWith(candidate, ROOT)
    else StartsWith(candidate, parent + ROOT)
  }

  predicate IsStrictDescendant(candidate: string, parent: string) {
    candidate != parent && IsAtOrBelow(candidate, parent)
  }

  function Classify(left: string, right: string): Relationship {
    if left == right then Equal
    else if IsStrictDescendant(right, left) then Ancestor
    else if IsStrictDescendant(left, right) then Descendant
    else Disjoint
  }

  function JoinPath(root: string, relative: string): string {
    if relative == HERE then root
    else if root == ROOT then ROOT + relative
    else root + ROOT + relative
  }

  /** The last index of a slash; -1 if there is none. */
  function LastSlash(s: string): (i: int)
    ensures -1 <= i < |s|
    ensures i >= 0 ==> s[i] == SLASH
    ensures forall k :: i < k < |s| ==> s[k] != SLASH
  {
    if s == [] then -1
    else if s[|s| - 1] == SLASH then |s| - 1
    else LastSlash(s[..|s| - 1])
  }

  function ParentPath(value: string): string {
    if value == ROOT then ROOT
    else if LastSlash(value) <= 0 then ROOT
    else value[..LastSlash(value)]
  }

  // ----- paths as lists of segments -----

  /** The segments of a canonical absolute path; the root has none. */
  function Segments(path: string): seq<string> {
    if path == ROOT || path == "" then [] else Split(path[1..])
  }

  function RelativeSegments(path: string): seq<string> {
    if path == HERE then [] else Split(path)
  }

  function Glue(parts: seq<string>): string
    requires parts != []
  {
    if |parts| == 1 then parts[0] else parts[0] + ROOT + Glue(parts[1..])
  }

  /** The canonical path of a list of segments. */
  function PathOf(segments: seq<string>): string {
    if segments == [] then ROOT else ROOT + Glue(segments)
  }

  lemma {:induction false} GlueSplit(s: string)
    ensures Glue(Split(s)) == s
  {
    if s != [] {
      GlueSplit(s[1..]);
      var rest := Split(s[1..]);
      if s[0] == SLASH {
        assert Split(s)[1..] == rest;
        assert s == ROOT + s[1..];
      } else {
        assert Split(s)[0] == [s[0]] + rest[0] && Split(s)[1..] == rest[1..];
        assert s == [s[0]] + s[1..];
      }
    }
  }

  lemma {:induction false} SplitConcat(a: string, b: string)
    ensures Split(a + ROOT + b) == Split(a) + Split(b)
  {
    var s := a + ROOT + b;
    if a == [] {
      assert s[1..] == b;
    } else {
      hide Prepend;
      SplitConcat(a[1..], b);
      assert s[1..] == a[1..] + ROOT + b;
      PrependConcat(a[0], Split(a[1..]), Split(b));
    }
  }

  lemma PrependConcat(c: char, x: seq<string>, y: seq<string>)
    requires x != []
    ensures Prepend(c, x + y) == Prepend(c, x) + y
  {
    if c != SLASH {
      assert (x + y)[1..] == x[1..] + y;
    }
  }

  lemma {:induction false} SplitWhole(s: string)
    requires SLASH !in s
    ensures Split(s) == [s]
  {
    if s != [] {
      SplitWhole(s[1..]);
      assert s == [s[0]] + s[1..];
    }
  }

  lemma {:induction false} SplitGlue(parts: seq<string>)
    requires parts != [] && forall i :: 0 <= i < |parts| ==> SLASH !in parts[i]
    ensures Split(Glue(parts)) == parts
  {
    SplitWhole(parts[0]);
    if |parts| == 1 {
      assert parts == [parts[0]];
    } else {
      SplitGlue(parts[1..]);
      SplitConcat(parts[0], Glue(parts[1..]));
      assert parts == [parts[0]] + parts[1..];
    }
  }

  lemma {:induction false} GlueConcat(a: seq<string>, b: seq<string>)
    requires a != [] && b != []
    ensures Glue(a + b) == Glue(a) + ROOT + Glue(b)
  {
    if |a| == 1 {
      assert (a + b)[1..] == b;
    } else {
      GlueConcat(a[1..], b);
      assert (a + b)[1..] == a[1..] + b;
    }
  }

  /** No part contains a slash. */
  lemma {:induction false} SplitHasNoSlash(s: string, i: nat)
    requires i < |Split(s)|
    ensures SLASH !in Split(s)[i]
  {
    if s != [] {
      var rest := Split(s[1..]);
      if i > 0 {
        SplitHasNoSlash(s[1..], if s[0] == SLASH then i - 1 else i);
      } else if s[0] != SLASH {
        SplitHasNoSlash(s[1..], 0);
      }
    }
  }

  /** No part contains a character that the string does not. */
  lemma {:induction false} SplitCharacters(s: string, c: char)
    requires c != SLASH
    ensures c in s <==> exists i :: 0 <= i < |Split(s)| && c in Split(s)[i]
  {
    if s != [] {
      var rest := Split(s[1..]);
      SplitCharacters(s[1..], c);
      assert c in s <==> c == s[0] || c in s[1..];
      if s[0] == SLASH {
        assert forall i :: 0 <= i < |rest| ==> Split(s)[i + 1] == rest[i];
        assert forall i :: 0 < i <= |rest| ==> Split(s)[i] == rest[i - 1];
      } else {
        assert forall i :: 0 < i < |rest| ==> Split(s)[i] == rest[i];
        assert c in Split(s)[0] <==> c == s[0] || c in rest[0];
      }
    }
  }

  /** A canonical path is the path of its segments. */
  lemma PathOfSegments(path: string)
    requires IsCanonicalAbsolute(path)
    ensures PathOf(Segments(path)) == path && AreSegments(Segments(path))
  {
    if path != ROOT {
      GlueSplit(path[1..]);
      assert path == ROOT + path[1..];
    }
  }

  /** A list of segments without slashes and NULs is the segments of its path, which is canonical. */
  lemma SegmentsOfPath(segments: seq<string>)
    requires AreSegments(segments)
    requires forall i :: 0 <= i < |segments| ==> SLASH !in segments[i] && '\0' !in segments[i]
    ensures IsCanonicalAbsolute(PathOf(segments)) && Segments(PathOf(segments)) == segments
  {
    if segments != [] {
      var path := PathOf(segments);
      SplitGlue(segments);
      assert path[1..] == Glue(segments);
      SplitCharacters(Glue(segments), '\0');
      GlueEnd(segments);
      assert Glue(segments) != "" by {
        assert segments[0] != "";
      }
    }
  }

  lemma {:induction false} GlueEnd(parts: seq<string>)
    requires parts != [] && AreSegments(parts) && SLASH !in parts[|parts| - 1]
    ensures Glue(parts) != "" && Glue(parts)[|Glue(parts)| - 1] != SLASH
  {
    if |parts| > 1 {
      GlueEnd(parts[1..]);
    }
  }

  // ----- what the tests mean -----

  lemma BelowHasPrefix(candidate: string, parent: string)
    requires candidate != "" && parent != "" && parent != ROOT && StartsWith(candidate, parent + ROOT)
    ensures Segments(parent) <= Segments(candidate)
  {
    var rest := candidate[|parent| + 1..];
    assert candidate[1..] == parent[1..] + ROOT + rest;
    SplitConcat(parent[1..], rest);
  }

  lemma PrefixIsAbove(p: seq<string>, c: seq<string>)
    requires p != [] && p < c
    ensures StartsWith(PathOf(c), PathOf(p) + ROOT)
  {
    var d := c[|p|..];
    assert c == p + d;
    GlueConcat(p, d);
    assert PathOf(c) == (PathOf(p) + ROOT) + Glue(d);
  }

  /** The prefix test on strings is the prefix test on segments. */
  lemma AtOrBelowIsPrefix(candidate: string, parent: string)
    requires IsCanonicalAbsolute(candidate) && IsCanonicalAbsolute(parent)
    ensures IsAtOrBelow(candidate, parent) <==> Segments(parent) <= Segments(candidate)
  {
    PathOfSegments(candidate);
    PathOfSegments(parent);
    var c, p := Segments(candidate), Segments(parent);
    hide PathOf, Segments, AreSegments;
    if parent == ROOT {
      RootHasNoSegments();
    } else {
      if StartsWith(candidate, parent + ROOT) {
        BelowHasPrefix(candidate, parent);
      }
      if p <= c && p != c {
        ProperPathHasSegments(parent);
        PrefixIsAbove(p, c);
      }
    }
  }

  lemma RootHasNoSegments()
    ensures Segments(ROOT) == []
  {
  }

  lemma ProperPathHasSegments(path: string)
    requires path != ROOT && path != ""
    ensures Segments(path) != []
  {
  }

  /** The classification of canonical paths compares their segments. */
  lemma ClassificationBySegments(left: string, right: string)
    requires IsCanonicalAbsolute(left) && IsCanonicalAbsolute(right)
    ensures var l, r := Segments(left), Segments(right);
            && (Classify(left, right) == Equal <==> l == r)
            && (Classify(left, right) == Ancestor <==> l < r)
            && (Classify(left, right) == Descendant <==> r < l)
            && (Classify(left, right) == Disjoint <==> !(l <= r) && !(r <= l))
  {
    PathOfSegments(left);
    PathOfSegments(right);
    AtOrBelowIsPrefix(left, right);
    AtOrBelowIsPrefix(right, left);
  }

  function Converse(r: Relationship): Relationship {
    match r
    case Ancestor => Descendant
    case Descendant => Ancestor
    case _ => r
  }

  /** Swapping the arguments gives the converse, for any two strings. */
  lemma ClassificationConverse(left: string, right: string)
    ensures Classify(right, left) == Converse(Classify(left, right))
    ensures !(IsStrictDescendant(left, right) && IsStrictDescendant(right, left))
  {
  }

  /** Joining a canonical relative path yields a canonical path at or below the root, with its segments appended. */
  lemma JoinIsBelow(root: string, relative: string)
    requires IsCanonicalAbsolute(root) && IsCanonicalRelative(relative, true)
    ensures var path := JoinPath(root, relative);
            && IsCanonicalAbsolute(path) && IsAtOrBelow(path, root)
            && Segments(path) == Segments(root) + RelativeSegments(relative)
  {
    if relative != HERE {
      var path := JoinPath(root, relative);
      assert path[|path| - 1] == relative[|relative| - 1];
      if root == ROOT {
        assert path[1..] == relative;
      } else {
        assert path[1..] == root[1..] + ROOT + relative;
        SplitConcat(root[1..], relative);
        assert StartsWith(path, root + ROOT);
      }
    }
  }

  lemma {:induction false} LastSlashBefore(a: string, b: string)
    requires SLASH !in b
    ensures LastSlash(a + ROOT + b) == |a|
  {
    var s := a + ROOT + b;
    if b == [] {
      assert s[|s| - 1] == SLASH;
    } else {
      assert s[|s| - 1] == b[|b| - 1];
      assert s[..|s| - 1] == a + ROOT + b[..|b| - 1];
      LastSlashBefore(a, b[..|b| - 1]);
    }
  }

  /** The parent function undoes the join of one segment. */
  lemma ParentUndoesJoin(root: string, segment: string)
    requires IsCanonicalAbsolute(root) && IsSegment(segment) && SLASH !in segment
    ensures ParentPath(JoinPath(root, segment)) == root
  {
    var front := if root == ROOT then "" else root;
    var path := JoinPath(root, segment);
    assert path == front + ROOT + segment;
    LastSlashBefore(front, segment);
    assert path[..|front|] == front;
  }

  /** The parent of a canonical path drops its last segment, and the root is its own parent. */
  lemma ParentDropsSegment(path: string)
    requires IsCanonicalAbsolute(path)
    ensures var s := Segments(path);
            IsCanonicalAbsolute(ParentPath(path)) && Segments(ParentPath(path)) == if s == [] then [] else s[..|s| - 1]
  {
    if path != ROOT {
      PathOfSegments(path);
      var s := Segments(path);
      var front, last := s[..|s| - 1], s[|s| - 1];
      forall i | 0 <= i < |s| ensures SLASH !in s[i] && '\0' !in s[i] {
        SplitHasNoSlash(path[1..], i);
        SplitCharacters(path[1..], '\0');
      }
      assert s == front + [last];
      SegmentsOfPath(front);
      if front != [] {
        GlueConcat(front, [last]);
      }
      assert path == JoinPath(PathOf(front), last);
      ParentUndoesJoin(PathOf(front), last);
    }
  }

  /** The segment test looks the segment up in the list, for absolute and for relative paths. */
  lemma ContainsLooksUp(path: string, segment: string)
    ensures IsCanonicalAbsolute(path) ==> (ContainsSegment(path, segment) <==> segment in Segments(path))
    ensures IsCanonicalRelative(path, true) ==> (ContainsSegment(path, segment) <==> segment in RelativeSegments(path))
  {
  }

  /** Joining does not hide a segment: the joined path contains exactly what its two parts contain. */
  lemma JoinContains(root: string, relative: string, segment: string)
    requires IsCanonicalAbsolute(root) && IsCanonicalRelative(relative, true)
    ensures ContainsSegment(JoinPath(root, relative), segment)
       <==> ContainsSegment(root, segment) || ContainsSegment(relative, segment)
  {
    hide ContainsSegment, JoinPath, Split, IsCanonicalAbsolute, IsCanonicalRelative;
    JoinIsBelow(root, relative);
    ContainsLooksUp(root, segment);
    ContainsLooksUp(relative, segment);
    ContainsLooksUp(JoinPath(root, relative), segment);
  }
}
