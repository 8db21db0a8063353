/**
 What a canonical path is, by resolution: going through the parts of a path, an
 empty part and a dot stay, two dots go up, and anything else goes down. A canonical
 path is one that this leaves as it is, and that has nothing to resolve.
 */
module PathAnswers {
  import opened Posix

  // ----- resolution -----

  /** The parts of a string between slashes. */
  function Parts(s: string, i: nat, from: nat): seq<string>
    requires from <= i <= |s|
    decreases |s| - i
  {
    if i == |s| then [s[from..]]
    else if s[i] == '/' then [s[from..i]] + Parts(s, i + 1, i + 1)
    else Parts(s, i + 1, from)
  }

  /** Where the parts lead to. */
  function Resolve(parts: seq<string>, at: seq<string>): seq<string> {
    if parts == [] then at
    else if parts[0] == "" || parts[0] == "." then Resolve(parts[1..], at)
    else if parts[0] == ".." then Resolve(parts[1..], if at == [] then [] else at[..|at| - 1])
    else Resolve(parts[1..], at + [parts[0]])
  }

  function Below(segments: seq<string>): string {
    if segments == [] then "" else "/" + segments[0] + Below(segments[1..])
  }

  /** The absolute path without anything to resolve. */
  function Resolved(s: string): string {
    var segments := Resolve(Parts(s, 0, 0), []);
    if segments == [] then "/" else Below(segments)
  }

  // ----- the parts -----

  lemma {:induction false} PartsSplit(s: string, i: nat, from: nat)
    requires from <= i <= |s| && SLASH !in s[from..i]
    ensures Parts(s, i, from) == Split(s[from..])
    decreases |s| - i
  {
    if i == |s| {
      SplitWhole(s[from..]);
    } else if s[i] == '/' {
      PartsSplit(s, i + 1, i + 1);
      var a, b := s[from..i], s[i + 1..];
      SplitConcat(a, b);
      SplitWhole(a);
      assert s[from..] == a + ROOT + b;
    } else {
      assert s[from..i + 1] == s[from..i] + [s[i]];
      PartsSplit(s, i + 1, from);
    }
  }

  lemma {:induction false} ResolveSegments(parts: seq<string>, at: seq<string>)
    requires AreSegments(parts)
    ensures Resolve(parts, at) == at + parts
  {
    if parts != [] {
      assert IsSegment(parts[0]);
      ResolveSegments(parts[1..], at + [parts[0]]);
      assert at + parts == at + [parts[0]] + parts[1..];
    } else {
      assert at + parts == at;
    }
  }

  lemma {:induction false} BelowGlues(segments: seq<string>)
    requires segments != []
    ensures Below(segments) == ROOT + Glue(segments)
  {
    if |segments| == 1 {
      assert segments[1..] == [];
    } else {
      BelowGlues(segments[1..]);
    }
  }

  /** What resolution leads to has nothing to resolve. */
  lemma {:induction false} ResolveIsProper(parts: seq<string>, at: seq<string>)
    requires AreSegments(at)
    ensures AreSegments(Resolve(parts, at))
    decreases |parts|
  {
    if parts != [] {
      ResolveIsProper(parts[1..], at);
      ResolveIsProper(parts[1..], if at == [] then [] else at[..|at| - 1]);
      if parts[0] != "" && parts[0] != "." && parts[0] != ".." {
        ResolveIsProper(parts[1..], at + [parts[0]]);
      }
    }
  }

  lemma {:induction false} ResolveKeepsSlashless(parts: seq<string>, at: seq<string>)
    requires forall p :: p in parts || p in at ==> SLASH !in p
    ensures forall p :: p in Resolve(parts, at) ==> SLASH !in p
    decreases |parts|
  {
    if parts != [] {
      ResolveKeepsSlashless(parts[1..], at);
      ResolveKeepsSlashless(parts[1..], if at == [] then [] else at[..|at| - 1]);
      ResolveKeepsSlashless(parts[1..], at + [parts[0]]);
    }
  }

  // ----- absolute paths -----

  /** A canonical absolute path is exactly a path without NUL that resolution leaves as it is. */
  lemma CanonicalExactly(path: string)
    ensures IsCanonicalAbsolute(path) <==> '\0' !in path && Resolved(path) == path
  {
    PartsSplit(path, 0, 0);
    if path != "" && path[0] == SLASH {
      var rest := path[1..];
      assert path == "" + ROOT + rest;
      SplitConcat("", rest);
      assert Split("") == [""];
      assert Split(path)[1..] == Split(rest);
      assert Resolve(Split(path), []) == Resolve(Split(rest), []);
      if path != ROOT && IsCanonicalAbsolute(path) {
        ResolveSegments(Split(rest), []);
        assert [] + Split(rest) == Split(rest);
        BelowGlues(Split(rest));
        GlueSplit(rest);
      }
      if path == ROOT {
        assert rest == "";
      }
    }
    if Resolved(path) == path && path != ROOT {
      var segments := Resolve(Parts(path, 0, 0), []);
      ResolvedIsCanonical(path, segments);
    }
  }

  lemma ResolvedIsCanonical(path: string, segments: seq<string>)
    requires segments == Resolve(Split(path), []) && segments != [] && path == Below(segments)
    ensures '\0' !in path ==> IsCanonicalAbsolute(path)
  {
    ResolveIsProper(Split(path), []);
    forall p | p in Split(path) ensures SLASH !in p {
      var i :| 0 <= i < |Split(path)| && Split(path)[i] == p;
      SplitHasNoSlash(path, i);
    }
    ResolveKeepsSlashless(Split(path), []);
    BelowGlues(segments);
    SplitGlue(segments);
    GlueEnd(segments);
    assert path[1..] == Glue(segments);
  }

  /** No part of a canonical path is left to be resolved, and none is empty but the one before the first slash. */
  lemma CanonicalHasNoParent(path: string)
    requires IsCanonicalAbsolute(path)
    ensures ".." !in Parts(path, 0, 0) && "." !in Parts(path, 0, 0)
  {
    PartsSplit(path, 0, 0);
    var rest := path[1..];
    assert path == "" + ROOT + rest;
    SplitConcat("", rest);
    if path == ROOT {
      assert rest == "";
    }
  }

  /** A canonical relative path is one that is canonical behind a slash; the dot is one only where it is allowed. */
  lemma RelativeExactly(path: string, allowRoot: bool)
    ensures IsCanonicalRelative(path, allowRoot) <==>
      (allowRoot && path == ".") || (path != "" && '\0' !in path && Resolved("/" + path) == "/" + path)
  {
    var absolute := "/" + path;
    CanonicalExactly(absolute);
    assert absolute[1..] == path;
    if path != "" {
      assert EndsWithSlash(absolute) <==> EndsWithSlash(path);
      if path[0] == SLASH && AreSegments(Split(path)) {
        assert !IsSegment(Split(path)[0]);
      }
      assert absolute != ROOT;
      assert '\0' in absolute <==> '\0' in path;
    }
    hide Resolved, Split;
  }

  // ----- joining, parents and classification -----

  lemma {:induction false} ResolveConcat(a: seq<string>, b: seq<string>, at: seq<string>)
    ensures Resolve(a + b, at) == Resolve(b, Resolve(a, at))
    decreases |a|
  {
    if a == [] {
      assert a + b == b;
    } else {
      assert (a + b)[1..] == a[1..] + b;
      ResolveConcat(a[1..], b, at);
      ResolveConcat(a[1..], b, if at == [] then [] else at[..|at| - 1]);
      ResolveConcat(a[1..], b, at + [a[0]]);
    }
  }

  /** The segments of a canonical path are where it leads to. */
  lemma SegmentsResolve(path: string)
    requires IsCanonicalAbsolute(path)
    ensures Resolve(Split(path), []) == Segments(path) == Resolve(Parts(path, 0, 0), [])
  {
    PartsSplit(path, 0, 0);
    var rest := path[1..];
    assert path == "" + ROOT + rest;
    SplitConcat("", rest);
    assert Split("") == [""] && Split(path)[1..] == Split(rest);
    if path == ROOT {
      assert rest == "";
    } else {
      ResolveSegments(Split(rest), []);
      assert [] + Split(rest) == Split(rest);
    }
  }

  lemma ResolvedPath(path: string, segments: seq<string>)
    requires Resolve(Split(path), []) == segments
    ensures Resolved(path) == PathOf(segments)
  {
    PartsSplit(path, 0, 0);
    if segments != [] {
      BelowGlues(segments);
    }
  }

  /** Joining is resolving the one path behind the other. */
  lemma JoinExactly(root: string, relative: string)
    requires IsCanonicalAbsolute(root) && IsCanonicalRelative(relative, true)
    ensures JoinPath(root, relative) == Resolved(root + "/" + relative)
  {
    SplitConcat(root, relative);
    SegmentsResolve(root);
    ResolveConcat(Split(root), Split(relative), []);
    if relative == HERE {
      SplitWhole(HERE);
      assert Resolve([HERE], Segments(root)) == Segments(root);
    } else {
      ResolveSegments(Split(relative), Segments(root));
    }
    JoinIsBelow(root, relative);
    PathOfSegments(JoinPath(root, relative));
    hide JoinPath, Segments, RelativeSegments, Resolved;
    ResolvedPath(root + "/" + relative, Resolve(Split(relative), Resolve(Split(root), [])));
  }

  /** The parent of a path is where two dots behind it lead to. */
  lemma ParentExactly(path: string)
    requires IsCanonicalAbsolute(path)
    ensures ParentPath(path) == Resolved(path + "/" + "..")
  {
    SplitConcat(path, PARENT);
    SegmentsResolve(path);
    ResolveConcat(Split(path), Split(PARENT), []);
    SplitWhole(PARENT);
    var s := Segments(path);
    assert Resolve([PARENT], s) == if s == [] then [] else s[..|s| - 1];
    ParentDropsSegment(path);
    PathOfSegments(ParentPath(path));
    hide ParentPath, Segments, Resolved;
    ResolvedPath(path + "/" + "..", Resolve(Split(PARENT), Resolve(Split(path), [])));
  }

  /** Two canonical paths are classified by where they lead to. */
  lemma ClassifiedExactly(left: string, right: string)
    requires IsCanonicalAbsolute(left) && IsCanonicalAbsolute(right)
    ensures var l, r := Resolve(Parts(left, 0, 0), []), Resolve(Parts(right, 0, 0), []);
            Classify(left, right) ==
              if l == r then Equal else if l <= r then Ancestor else if r <= l then Descendant else Disjoint
  {
    SegmentsResolve(left);
    SegmentsResolve(right);
    ClassificationBySegments(left, right);
  }

  /** A path is at or below another one exactly if it leads there and perhaps on. */
  lemma AtOrBelowExactly(candidate: string, parent: string)
    requires IsCanonicalAbsolute(candidate) && IsCanonicalAbsolute(parent)
    ensures IsAtOrBelow(candidate, parent) <==> Resolve(Parts(parent, 0, 0), []) <= Resolve(Parts(candidate, 0, 0), [])
  {
    SegmentsResolve(candidate);
    SegmentsResolve(parent);
    AtOrBelowIsPrefix(candidate, parent);
  }

  /** A segment is contained exactly if it is on the way. */
  lemma ContainedExactly(path: string, segment: string)
    requires IsCanonicalAbsolute(path)
    ensures ContainsSegment(path, segment) <==> segment in Resolve(Parts(path, 0, 0), [])
  {
    SegmentsResolve(path);
    ContainsLooksUp(path, segment);
  }
}
