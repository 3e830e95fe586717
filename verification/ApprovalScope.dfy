/** How far a token reaches: it does not keep the capabilities of a preview on the paths of their own operations. */
module ApprovalScope {
  import opened Text
  import opened ProcessTruth
  import opened Approval
  import opened ApprovalRuns

  /** The token for p is in scope for the capability of any of its operations on the paths of any other. */
  lemma CapabilitiesCross(p: Preview, tokenId: string, now: nat, hash: Preview -> string, a: Operation, b: Operation,
                          path: string)
    requires AllRecorded(p.operations) && a in p.operations && b in p.operations && path in b.targetPaths
    ensures InScope(TokenFor(p, tokenId, SealOf(hash)(p), now), Slashed(a.capabilityId), [path])
  {
    AllowsAcross(p, a, b, path);
    ScopeMeaning(p, TokenFor(p, tokenId, SealOf(hash)(p), now), hash, Slashed(a.capabilityId), [path]);
  }

  lemma AllowsAcross(p: Preview, a: Operation, b: Operation, path: string)
    requires AllRecorded(p.operations) && a in p.operations && b in p.operations && path in b.targetPaths
    ensures AllowsTarget(p, path) && Allows(p, Slashed(a.capabilityId), [path])
  {
    RecordedPath(b, path);
    assert UnderScope(path, Slashed(path));
  }

  lemma RecordedPath(op: Operation, path: string)
    requires Recorded(op) && path in op.targetPaths
    ensures Slashed(path) == path
  {
    CleanPath(path);
  }

  // ---- When a capability stays on its own paths ----

  predicate CoversTarget(op: Operation, target: string) {
    exists path :: path in op.targetPaths && UnderScope(path, Slashed(target))
  }

  /** One operation of the preview has both the capability and a path for the target. */
  predicate OneOperationAllows(p: Preview, capabilityId: string, target: string) {
    exists op :: op in p.operations && Slashed(op.capabilityId) == capabilityId && CoversTarget(op, target)
  }

  /** Whatever capability and target the preview allows, a single operation of it allows. */
  ghost predicate PairsRespected(p: Preview) {
    forall capabilityId: string, target: string ::
      AllowsOperation(p, capabilityId) && AllowsTarget(p, target) ==> OneOperationAllows(p, capabilityId, target)
  }

  predicate CapabilityCovers(p: Preview, a: Operation, path: string) {
    exists c :: c in p.operations && Slashed(c.capabilityId) == Slashed(a.capabilityId) && CoversTarget(c, path)
  }

  /** Every capability of the preview covers every path of it, by some operation of that capability. */
  predicate CapabilitiesCoverAll(p: Preview) {
    forall a, b, path :: a in p.operations && b in p.operations && path in b.targetPaths ==>
        CapabilityCovers(p, a, path)
  }

  lemma {:induction false} TrimSlashesMeaning(s: string)
    ensures var u := TrimSlashes(s); |u| <= |s| && u == s[..|u|] && (u == "" || u[|u| - 1] != '/')
    ensures forall k :: |TrimSlashes(s)| <= k < |s| ==> s[k] == '/'
  {
    if s != "" && s[|s| - 1] == '/' {
      TrimSlashesMeaning(s[..|s| - 1]);
    }
  }

  /** A directory prefix of a path is one of the path without its trailing slashes, too. */
  lemma PrefixOfTrimmed(u: string, path: string)
    requires u == "" || u[|u| - 1] != '/'
    requires u + "/" <= path
    ensures u + "/" <= TrimSlashes(path) + "/"
  {
    var v := TrimSlashes(path);
    TrimSlashesMeaning(path);
    assert forall k :: 0 <= k <= |u| ==> (u + "/")[k] == path[k];
    assert u == "" || path[|u| - 1] == u[|u| - 1];
    assert |u| <= |v|;
    assert u == v[..|u|];
  }

  /** What lies below a path that lies below a scope lies below the scope. */
  lemma UnderScopeTransitive(scope: string, path: string, target: string)
    requires UnderScope(scope, path) && UnderScope(path, target)
    ensures UnderScope(scope, target)
  {
    if scope != path && path != target {
      TrimSlashesMeaning(scope);
      PrefixOfTrimmed(TrimSlashes(scope), path);
    }
  }

  /** An operation that covers a path of the preview covers whatever lies under that path. */
  lemma CoverSuffices(p: Preview, a: Operation, path: string, target: string)
    requires CapabilityCovers(p, a, path) && Slashed(path) == path && UnderScope(path, Slashed(target))
    ensures OneOperationAllows(p, Slashed(a.capabilityId), target)
  {
    hide Slashed, UnderScope;
    var c :| c in p.operations && Slashed(c.capabilityId) == Slashed(a.capabilityId) && CoversTarget(c, path);
    var s :| s in c.targetPaths && UnderScope(s, Slashed(path));
    UnderScopeTransitive(s, path, Slashed(target));
    assert CoversTarget(c, target);
  }

  /**
    * A token never carries a capability to a path of another operation exactly when every capability of the preview
    * already covers every path of it, which can be read off the preview before a token is issued.
    */
  lemma PairsRespectedIff(p: Preview)
    requires AllRecorded(p.operations)
    ensures PairsRespected(p) <==> CapabilitiesCoverAll(p)
  {
    if CapabilitiesCoverAll(p) {
      forall capabilityId: string, target: string | AllowsOperation(p, capabilityId) && AllowsTarget(p, target)
        ensures OneOperationAllows(p, capabilityId, target)
      {
        var a :| a in p.operations && Slashed(a.capabilityId) == capabilityId;
        var b :| b in p.operations && exists path :: path in b.targetPaths && UnderScope(path, Slashed(target));
        var path :| path in b.targetPaths && UnderScope(path, Slashed(target));
        RecordedPath(b, path);
        assert CapabilityCovers(p, a, path);
        CoverSuffices(p, a, path, target);
      }
    }
    if PairsRespected(p) {
      forall a, b, path | a in p.operations && b in p.operations && path in b.targetPaths
        ensures CapabilityCovers(p, a, path)
      {
        AllowsAcross(p, a, b, path);
        assert OneOperationAllows(p, Slashed(a.capabilityId), path);
      }
    }
  }

  /** Two operations whose capabilities differ: the token gives the second one's capability on the first one's path. */
  lemma TwoOperationsCross(a: Operation, b: Operation, path: string, hash: Preview -> string, txId: string,
                           previewId: string, tokenId: string, now: nat)
    requires Recorded(a) && Recorded(b) && path in a.targetPaths
    requires Slashed(a.capabilityId) != Slashed(b.capabilityId) && !CoversTarget(b, path)
    ensures var p := Preview(txId, previewId, [a, b]);
            && InScope(TokenFor(p, tokenId, SealOf(hash)(p), now), Slashed(b.capabilityId), [path])
            && !OneOperationAllows(p, Slashed(b.capabilityId), path)
  {
    hide Slashed, InScope, CoversTarget, Recorded, SealOf;
    var p := Preview(txId, previewId, [a, b]);
    CapabilitiesCross(p, tokenId, now, hash, b, a, path);
  }

  const READ_A := Operation("r", ["a"])
  const DELETE_B := Operation("d", ["b"])

  /** Such a preview: reading a and deleting b. The token for it lets its holder delete a. */
  lemma CrossingExample(p: Preview, hash: Preview -> string, tokenId: string, now: nat)
    requires p.operations == [READ_A, DELETE_B]
    ensures AllRecorded(p.operations)
    ensures InScope(TokenFor(p, tokenId, SealOf(hash)(p), now), "d", ["a"])
    ensures !OneOperationAllows(p, "d", "a")
  {
    hide Clean, Slashed, InScope, CoversTarget, OneOperationAllows, TokenFor, Recorded, IsBlank;
    LettersAreRecorded(READ_A, "a");
    LettersAreRecorded(DELETE_B, "b");
    OtherLetterNotCovered(DELETE_B, "b", "a");
    LetterIsSlashed("r");
    LetterIsSlashed("d");
    TwoOperationsCross(READ_A, DELETE_B, "a", hash, p.txId, p.previewId, tokenId, now);
    assert p == Preview(p.txId, p.previewId, [READ_A, DELETE_B]);
  }

  lemma OnePathRecorded(op: Operation, path: string)
    requires op.targetPaths == [path] && !IsBlank(op.capabilityId)
    requires path != "" && path != WILDCARD && Clean(path) == path
    ensures Recorded(op)
  {
    forall x | x in op.targetPaths ensures x == path {
    }
  }

  lemma LettersAreRecorded(op: Operation, path: string)
    requires op.targetPaths == [path] && IsLetter(op.capabilityId) && IsLetter(path)
    ensures Recorded(op)
  {
    LetterIsSolid(op.capabilityId);
    LetterIsSlashed(path);
    LetterIsSolid(path);
    TrimOfSolid(path);
    OnePathRecorded(op, path);
  }

  lemma OtherLetterNotUnder(path: string, target: string)
    requires IsLetter(path) && IsLetter(target) && path != target
    ensures !UnderScope(path, target)
  {
    assert TrimSlashes(path) == path;
    assert |path + "/"| == 2;
  }

  lemma OnePathNotCovered(op: Operation, path: string, target: string)
    requires op.targetPaths == [path] && !UnderScope(path, Slashed(target))
    ensures !CoversTarget(op, target)
  {
  }

  lemma OtherLetterNotCovered(op: Operation, path: string, target: string)
    requires op.targetPaths == [path] && IsLetter(path) && IsLetter(target) && path != target
    ensures !CoversTarget(op, target)
  {
    LetterIsSlashed(target);
    OtherLetterNotUnder(path, target);
    OnePathNotCovered(op, path, target);
  }

  predicate IsLetter(s: string) {
    |s| == 1 && 'a' <= s[0] <= 'z'
  }

  lemma LetterIsSolid(s: string)
    requires IsLetter(s)
    ensures !IsWhitespace(s[0]) && s[0] != '\\' && s[0] != '*'
  {
  }

  lemma LetterIsSlashed(s: string)
    requires IsLetter(s)
    ensures Slashed(s) == s && s != WILDCARD
  {
    LetterIsSolid(s);
    SlashedKeeps(s);
  }
}
