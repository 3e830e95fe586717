/** The wildcard matcher of the data runtime (data_runtime.rs). */
module Glob {
  import opened Text

  /** The number of wildcards in a pattern. */
  function Stars(pattern: string): nat {
    if pattern == "" then 0 else (if pattern[0] == '*' then 1 else 0) + Stars(pattern[1..])
  }

  /** The pattern with its k-th wildcard replaced by fills[k]. */
  ghost function Substitute(pattern: string, fills: seq<string>): string
    requires |fills| == Stars(pattern)
  {
    if pattern == "" then ""
    else if pattern[0] == '*' then fills[0] + Substitute(pattern[1..], fills[1..])
    else [pattern[0]] + Substitute(pattern[1..], fills)
  }

  /** The declarative meaning of a glob: some choice of strings for the wildcards spells the path. */
  ghost predicate GlobRelation(path: string, pattern: string) {
    exists fills: seq<string> :: |fills| == Stars(pattern) && Substitute(pattern, fills) == path
  }

  // ---- The relation on the pieces between wildcards ----

  /** The pieces with the fills placed between them. */
  ghost function Weave(parts: seq<string>, fills: seq<string>): string
    requires |parts| == |fills| + 1
  {
    if fills == [] then parts[0] else parts[0] + fills[0] + Weave(parts[1..], fills[1..])
  }

  lemma {:induction false} SubstituteIsWeave(pattern: string, fills: seq<string>)
    requires |fills| == Stars(pattern)
    ensures |Split(pattern, '*')| == |fills| + 1
    ensures Substitute(pattern, fills) == Weave(Split(pattern, '*'), fills)
  {
    if pattern != "" {
      var rest := Split(pattern[1..], '*');
      if pattern[0] == '*' {
        SubstituteIsWeave(pattern[1..], fills[1..]);
        assert ([""] + rest)[1..] == rest;
      } else {
        SubstituteIsWeave(pattern[1..], fills);
        var parts := [[pattern[0]] + rest[0]] + rest[1..];
        assert parts[1..] == rest[1..];
      }
    }
  }

  /** parts[i..] can be placed, in order and with any gaps, from offset c so that the last one ends the path. */
  ghost predicate Placeable(parts: seq<string>, i: nat, path: string, c: nat)
    requires i <= |parts|
    decreases |parts| - i
  {
    if i == |parts| then c == |path|
    else exists k: nat :: c <= k && OccursAt(path, parts[i], k) && Placeable(parts, i + 1, path, k + |parts[i]|)
  }

  lemma PlaceableEarlier(parts: seq<string>, i: nat, path: string, c: nat, earlier: nat)
    requires i < |parts| && earlier <= c && Placeable(parts, i, path, c)
    ensures Placeable(parts, i, path, earlier)
  {
  }

  lemma {:induction false} WeaveIsPlaceable(parts: seq<string>, i: nat, path: string, c: nat, fills: seq<string>)
    requires 1 <= i <= |parts| && |fills| == |parts| - i && c <= |path|
    requires path[c..] == Weave([""] + parts[i..], fills)
    ensures Placeable(parts, i, path, c)
    decreases |parts| - i
  {
    if i == |parts| {
      assert [""] + parts[i..] == [""];
    } else {
      var p := parts[i];
      var k := c + |fills[0]|;
      var tail := Weave([""] + parts[i + 1..], fills[1..]);
      WeaveHead(parts[i..], fills);
      assert parts[i..][1..] == parts[i + 1..];
      assert path[c..] == fills[0] + p + tail;
      assert path == path[..c] + path[c..];
      assert path[k..k + |p|] == p && path[k + |p|..] == tail;
      WeaveIsPlaceable(parts, i + 1, path, k + |p|, fills[1..]);
      assert OccursAt(path, p, k);
    }
  }

  /** One fill and one piece peeled off the front of a weave that starts with an empty piece. */
  lemma WeaveHead(parts: seq<string>, fills: seq<string>)
    requires |parts| == |fills| >= 1
    ensures Weave([""] + parts, fills) == fills[0] + parts[0] + Weave([""] + parts[1..], fills[1..])
  {
    assert ([""] + parts)[1..] == parts;
    WeaveFirst(parts, fills[1..]);
    var rest := Weave([""] + parts[1..], fills[1..]);
    assert "" + fills[0] + (parts[0] + rest) == fills[0] + parts[0] + rest;
  }

  lemma WeaveOneMore(parts: seq<string>, fill: string, rest: seq<string>)
    requires |parts| == |rest| + 1
    ensures Weave([""] + parts, [fill] + rest) == fill + parts[0] + Weave([""] + parts[1..], rest)
  {
    var fills := [fill] + rest;
    WeaveHead(parts, fills);
    assert fills[1..] == rest;
  }

  lemma ThreePieces(s: string, i: nat, j: nat, k: nat)
    requires i <= j <= k <= |s|
    ensures s[i..] == s[i..j] + s[j..k] + s[k..]
  {
  }

  lemma {:induction false} PlaceableIsWeave(parts: seq<string>, i: nat, path: string, c: nat)
    returns (fills: seq<string>)
    requires 1 <= i <= |parts| && c <= |path| && Placeable(parts, i, path, c)
    ensures |fills| == |parts| - i
    ensures path[c..] == Weave([""] + parts[i..], fills)
    decreases |parts| - i
  {
    if i == |parts| {
      fills := [];
    } else {
      var p := parts[i];
      var k: nat :| c <= k && OccursAt(path, p, k) && Placeable(parts, i + 1, path, k + |p|);
      var rest := PlaceableIsWeave(parts, i + 1, path, k + |p|);
      fills := [path[c..k]] + rest;
      WeaveOneMore(parts[i..], path[c..k], rest);
      assert parts[i..][1..] == parts[i + 1..];
      ThreePieces(path, c, k, k + |p|);
    }
  }

  /** The relation on pieces, as the matcher tests it, is the declarative glob relation. */
  lemma GlobIsPlaceable(path: string, pattern: string)
    ensures var parts := Split(pattern, '*');
            GlobRelation(path, pattern) <==> parts[0] <= path && Placeable(parts, 1, path, |parts[0]|)
  {
    var parts := Split(pattern, '*');
    var first := parts[0];
    if GlobRelation(path, pattern) {
      var fills: seq<string> :| |fills| == Stars(pattern) && Substitute(pattern, fills) == path;
      SubstituteIsWeave(pattern, fills);
      WeaveFirst(parts, fills);
      WeaveIsPlaceable(parts, 1, path, |first|, fills);
    }
    if first <= path && Placeable(parts, 1, path, |first|) {
      var fills := PlaceableIsWeave(parts, 1, path, |first|);
      StarsIsSplit(pattern);
      SubstituteIsWeave(pattern, fills);
      WeaveFirst(parts, fills);
      assert path == first + path[|first|..];
    }
  }

  lemma WeaveAfterNothing(parts: seq<string>, fills: seq<string>)
    requires |parts| == |fills| + 1 && fills != []
    ensures Weave([""] + parts[1..], fills) == fills[0] + Weave(parts[1..], fills[1..])
  {
    var padded := [""] + parts[1..];
    assert padded[0] == "" && padded[1..] == parts[1..];
    assert "" + fills[0] == fills[0];
  }

  lemma Associate(a: string, b: string, c: string)
    ensures a + b + c == a + (b + c)
  {
  }

  lemma WeaveFirst(parts: seq<string>, fills: seq<string>)
    requires |parts| == |fills| + 1
    ensures Weave(parts, fills) == parts[0] + Weave([""] + parts[1..], fills)
  {
    if fills == [] {
      assert [""] + parts[1..] == [""];
    } else {
      WeaveAfterNothing(parts, fills);
      Associate(parts[0], fills[0], Weave(parts[1..], fills[1..]));
    }
  }

  lemma {:induction false} StarsIsSplit(pattern: string)
    ensures |Split(pattern, '*')| == Stars(pattern) + 1
  {
    if pattern != "" { StarsIsSplit(pattern[1..]); }
  }

  // ---- The matcher ----

  /** What glob_like_match accepts: everything for the pattern star-star-slash-star, the glob relation
      for every other pattern with a wildcard, and containment for a pattern without one. */
  ghost predicate Accepts(path: string, rawPattern: string) {
    var pattern := Slashed(rawPattern);
    if pattern == "**/*" then true
    else if '*' in pattern then GlobRelation(path, pattern)
    else Contains(path, pattern)
  }

  method GlobLikeMatch(path: string, rawPattern: string) returns (r: bool)
    ensures r <==> Accepts(path, rawPattern)
  {
    hide Slashed, GlobRelation, Placeable;
    var pattern := Slashed(rawPattern);
    if pattern == "*" || pattern == "**/*" {
      if pattern == "*" { LoneStar(path); }
      return true;
    }
    if '*' !in pattern {
      WholeIsContained(path, pattern);
      return path == pattern || Contains(path, pattern);
    }
    var parts := Split(pattern, '*');
    GlobIsPlaceable(path, pattern);
    var cursor: nat := 0;
    if parts[0] != "" {
      if !(parts[0] <= path) { return false; }
      cursor := |parts[0]|;
    }
    var last := parts[|parts| - 1];
    var i: nat := 1;
    while i < |parts|
      invariant 1 <= i <= |parts| && cursor <= |path|
      invariant i < |parts| ==> (GlobRelation(path, pattern) <==> Placeable(parts, i, path, cursor))
      invariant i == |parts| ==> (GlobRelation(path, pattern) <==> last == "" || EndsWith(path, last))
    {
      var part := parts[i];
      var found := FindFrom(path, part, cursor);
      GreedyStep(parts, i, path, cursor, found);
      if part != "" {
        if found.None? { return false; }
        cursor := found.value + |part|;
      }
      i := i + 1;
    }
    SplitEnd(pattern);
    if last != "" && pattern[|pattern| - 1] != '*' {
      return EndsWith(path, last);
    }
    return true;
  }

  /** The last piece may be moved to the end of the path. */
  lemma LastPiece(parts: seq<string>, path: string, c: nat)
    requires |parts| > 1 && c <= |path| && FindFrom(path, parts[|parts| - 1], c).Some?
    ensures var p := parts[|parts| - 1]; Placeable(parts, |parts| - 1, path, c) <==> p == "" || EndsWith(path, p)
  {
    var i, p := |parts| - 1, parts[|parts| - 1];
    if p == "" || EndsWith(path, p) {
      var k := |path| - |p|;
      assert c <= k && OccursAt(path, p, k) && Placeable(parts, i + 1, path, k + |p|);
    }
  }

  /** Taking the leftmost occurrence loses nothing for the pieces that follow. */
  lemma LeftmostPiece(parts: seq<string>, i: nat, path: string, c: nat, at: nat)
    requires 1 <= i < |parts| - 1 && c <= |path| && FindFrom(path, parts[i], c) == Some(at)
    ensures Placeable(parts, i, path, c) <==> Placeable(parts, i + 1, path, at + |parts[i]|)
  {
    var p := parts[i];
    if Placeable(parts, i, path, c) {
      var k: nat :| c <= k && OccursAt(path, p, k) && Placeable(parts, i + 1, path, k + |p|);
      PlaceableEarlier(parts, i + 1, path, k + |p|, at + |p|);
    }
  }

  /** One step of the greedy search decides about the piece exactly when the pieces left can be placed. */
  lemma GreedyStep(parts: seq<string>, i: nat, path: string, c: nat, found: Option<nat>)
    requires 1 <= i < |parts| && c <= |path| && found == FindFrom(path, parts[i], c)
    ensures found.None? ==> !Placeable(parts, i, path, c)
    ensures found.Some? && i + 1 < |parts| ==>
              (Placeable(parts, i, path, c) <==> Placeable(parts, i + 1, path, found.value + |parts[i]|))
    ensures found.Some? && i + 1 == |parts| ==>
              (Placeable(parts, i, path, c) <==> parts[i] == "" || EndsWith(path, parts[i]))
    ensures parts[i] == "" ==> found == Some(c)
  {
    if parts[i] == "" { assert OccursAt(path, parts[i], c); }
    if found.Some? {
      if i + 1 == |parts| {
        LastPiece(parts, path, c);
      } else {
        LeftmostPiece(parts, i, path, c, found.value);
      }
    }
  }

  lemma {:induction false} SplitEnd(pattern: string)
    requires pattern != ""
    ensures var parts := Split(pattern, '*');
            parts[|parts| - 1] == "" <==> pattern[|pattern| - 1] == '*'
  {
    if |pattern| > 1 {
      SplitEnd(pattern[1..]);
      assert pattern[1..][|pattern| - 2] == pattern[|pattern| - 1];
    } else {
      assert Split(pattern[1..], '*') == [""];
    }
  }

  lemma LoneStar(path: string)
    ensures GlobRelation(path, "*")
  {
    assert Substitute("*"[1..], [path][1..]) == "";
    assert Substitute("*", [path]) == path;
  }

  lemma WholeIsContained(path: string, pattern: string)
    ensures path == pattern ==> Contains(path, pattern)
  {
    if path == pattern { assert OccursAt(path, pattern, 0); }
  }

  lemma SpecialPieces()
    ensures Slashed("**/*") == "**/*"
    ensures Split("**/*", '*') == ["", "", "/", ""]
  {
    var pattern := "**/*";
    assert Split("", '*') == [""];
    assert pattern[3..] == "*" && Split("*", '*') == ["", ""];
    assert pattern[2..] == "/*" && "/*"[1..] == "*";
    var tail := Split("/*", '*');
    assert tail == [['/'] + ""] + [""];
    assert ['/'] + "" == "/" && tail == ["/", ""];
    assert pattern[1..] == "*/*" && "*/*"[1..] == "/*" && Split("*/*", '*') == [""] + tail;
  }

  lemma SpecialPlaceable(parts: seq<string>, path: string)
    requires parts == ["", "", "/", ""]
    ensures Placeable(parts, 1, path, 0) <==> '/' in path
  {
    if '/' in path {
      var k :| 0 <= k < |path| && path[k] == '/';
      assert OccursAt(path, parts[3], |path|) && Placeable(parts, 4, path, |path|);
      assert Placeable(parts, 3, path, k + 1);
      assert OccursAt(path, parts[2], k) && Placeable(parts, 2, path, 0);
      assert OccursAt(path, parts[1], 0) && Placeable(parts, 1, path, 0);
    }
    if Placeable(parts, 1, path, 0) {
      var j: nat :| OccursAt(path, parts[1], j) && Placeable(parts, 2, path, j + |parts[1]|);
      var k: nat :| j <= k && OccursAt(path, parts[2], k);
      assert path[k] in parts[2];
    }
  }

  /** The one special case departs from the glob relation exactly on the paths without a slash. */
  lemma SpecialCaseDeviation(path: string)
    ensures Accepts(path, "**/*")
    ensures GlobRelation(path, "**/*") <==> '/' in path
  {
    SpecialPieces();
    GlobIsPlaceable(path, "**/*");
    SpecialPlaceable(["", "", "/", ""], path);
  }
}
