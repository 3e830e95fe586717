/** The organize planner of the data runtime (data_runtime.rs). */
module Organize {
  import opened Text

  /** A file of a source set. The group is the folder name that the planner derives from the path. */
  datatype SourceFile = SourceFile(path: string, fileName: string, group: string, extension: string)

  datatype MoveOp = MoveOp(source: string, destination: string)

  // ---- Paths ----

  /** The part of a path after its last slash. */
  function FileName(path: string): (name: string)
    ensures '/' !in name && |name| <= |path|
  {
    if path == "" || path[|path| - 1] == '/' then ""
    else FileName(path[..|path| - 1]) + [path[|path| - 1]]
  }

  /** The path before its file name, without trailing separators and dot components. */
  function Parent(path: string): string {
    TrimSeparators(path[..|path| - |FileName(path)|])
  }

  function TrimSeparators(path: string): string {
    if path != "" && path[|path| - 1] == '/' then TrimSeparators(path[..|path| - 1])
    else if |path| >= 2 && path[|path| - 2..] == "/." then TrimSeparators(path[..|path| - 2])
    else path
  }

  function LastDot(name: string): (i: Option<nat>)
    ensures i.Some? ==> i.value < |name| && name[i.value] == '.'
  {
    if name == "" then None
    else if name[|name| - 1] == '.' then Some(|name| - 1)
    else LastDot(name[..|name| - 1])
  }

  /** A leading dot does not start an extension. */
  function Stem(name: string): string {
    match LastDot(name)
    case Some(i) => if i > 0 then name[..i] else name
    case None => name
  }

  function Extension(name: string): string {
    match LastDot(name)
    case Some(i) => if i > 0 then name[i + 1..] else ""
    case None => ""
  }

  function TrimDots(s: string): string {
    if s != "" && s[0] == '.' then TrimDots(s[1..]) else s
  }

  // ---- Planning ----

  const FIRST_INDEX := 2
  const INDEX_LIMIT := 10_000

  function BaseDestination(root: string, file: SourceFile): string {
    var folder := if IsBlank(file.extension) then "no_extension" else TrimDots(file.extension);
    root + "/" + file.group + "/" + folder + "/" + file.fileName
  }

  function CandidateName(name: string, index: nat): string {
    Stem(name) + ("_" + (Decimal(index) + if Extension(name) == "" then "" else "." + Extension(name)))
  }

  function Candidate(destination: string, index: nat): string {
    (Parent(destination) + "/") + CandidateName(FileName(destination), index)
  }

  /** Everything that is tried instead of a taken destination, in order. */
  function Candidates(destination: string): (cs: seq<string>)
    ensures |cs| == INDEX_LIMIT - FIRST_INDEX
    ensures forall i :: 0 <= i < |cs| ==> cs[i] == Candidate(destination, i + FIRST_INDEX)
  {
    seq(INDEX_LIMIT - FIRST_INDEX, i requires 0 <= i => Candidate(destination, i + FIRST_INDEX))
  }

  /** The first unused candidate, or else the fallback. */
  function FirstFree(candidates: seq<string>, used: set<string>, fallback: string): string {
    if candidates == [] then fallback
    else if candidates[0] !in used then candidates[0]
    else FirstFree(candidates[1..], used, fallback)
  }

  method DisambiguateDestination(destination: string, used: set<string>) returns (r: string)
    ensures r == FirstFree(Candidates(destination), used, destination)
  {
    ghost var candidates := Candidates(destination);
    assert candidates[0..] == candidates;
    for index := FIRST_INDEX to INDEX_LIMIT
      invariant FirstFree(candidates, used, destination) ==
                FirstFree(candidates[index - FIRST_INDEX..], used, destination)
    {
      assert candidates[index - FIRST_INDEX..][1..] == candidates[index - FIRST_INDEX + 1..];
      var candidate := Candidate(destination, index);
      if candidate !in used {
        return candidate;
      }
    }
    return destination;
  }

  function Chosen(destination: string, used: set<string>): string {
    if destination in used then FirstFree(Candidates(destination), used, destination) else destination
  }

  function Bases(files: seq<SourceFile>, root: string): seq<string> {
    seq(|files|, i requires 0 <= i < |files| => BaseDestination(root, files[i]))
  }

  /** The destinations chosen for files with these base destinations, in order. */
  function Destinations(bases: seq<string>): (ds: seq<string>)
    ensures |ds| == |bases|
  {
    if bases == [] then []
    else
      var before := Destinations(bases[..|bases| - 1]);
      before + [Chosen(bases[|bases| - 1], Elements(before))]
  }

  function Elements(xs: seq<string>): set<string> { set x | x in xs }

  function Operations(files: seq<SourceFile>, destinations: seq<string>): seq<MoveOp>
    requires |files| == |destinations|
  {
    seq(|files|, i requires 0 <= i < |files| => MoveOp(files[i].path, destinations[i]))
  }

  /** The plan for a source set. */
  function Plan(files: seq<SourceFile>, root: string): seq<MoveOp> {
    Operations(files, Destinations(Bases(files, root)))
  }

  method PlanOrganize(files: seq<SourceFile>, root: string) returns (operations: seq<MoveOp>)
    ensures operations == Plan(files, root)
  {
    operations := [];
    var used: set<string> := {};
    ghost var bases, ds: seq<string> := Bases(files, root), [];
    var i := 0;
    while i < |files|
      invariant 0 <= i <= |files|
      invariant ds == Destinations(bases[..i]) && used == Elements(ds)
      invariant operations == Operations(files[..i], ds)
    {
      DestinationsStep(bases, i);
      var destination := FreeDestination(BaseDestination(root, files[i]), used);
      OperationsStep(files, ds, destination);
      ds := ds + [destination];
      used := used + {destination};
      operations := operations + [MoveOp(files[i].path, destination)];
      i := i + 1;
    }
    assert files[..i] == files && bases[..i] == bases;
  }

  method FreeDestination(base: string, used: set<string>) returns (destination: string)
    ensures destination == Chosen(base, used)
  {
    destination := base;
    if destination in used {
      destination := DisambiguateDestination(destination, used);
    }
  }

  lemma OperationsStep(files: seq<SourceFile>, ds: seq<string>, d: string)
    requires |ds| < |files|
    ensures Operations(files[..|ds| + 1], ds + [d]) == Operations(files[..|ds|], ds) + [MoveOp(files[|ds|].path, d)]
    ensures Elements(ds + [d]) == Elements(ds) + {d}
  {
  }

  // ---- The candidates ----

  lemma {:induction false} FileNameOfJoin(parent: string, name: string)
    requires '/' !in name
    ensures FileName((parent + "/") + name) == name
  {
    var path := (parent + "/") + name;
    if name == "" {
      assert path[|path| - 1] == '/';
    } else {
      assert path[..|path| - 1] == (parent + "/") + name[..|name| - 1];
      FileNameOfJoin(parent, name[..|name| - 1]);
    }
  }

  lemma CandidateNameLonger(name: string, index: nat)
    requires '/' !in name
    ensures '/' !in CandidateName(name, index) && |CandidateName(name, index)| > |name|
  {
    assert '/' !in Decimal(index);
  }

  lemma CandidateIsNew(destination: string, index: nat)
    ensures Candidate(destination, index) != destination
  {
    var name := FileName(destination);
    CandidateNameLonger(name, index);
    FileNameOfJoin(Parent(destination), CandidateName(name, index));
  }

  lemma SameMiddle(prefix: string, a: string, b: string, suffix: string)
    requires prefix + (a + suffix) == prefix + (b + suffix)
    ensures a == b
  {
    var x, y := prefix + (a + suffix), prefix + (b + suffix);
    assert a == x[|prefix|..|prefix| + |a|] && b == y[|prefix|..|prefix| + |b|];
  }

  lemma CandidateInjective(destination: string, i: nat, j: nat)
    requires Candidate(destination, i) == Candidate(destination, j)
    ensures i == j
  {
    var name := FileName(destination);
    var prefix := Parent(destination) + "/" + Stem(name) + "_";
    var suffix := if Extension(name) == "" then "" else "." + Extension(name);
    forall k: nat
      ensures Candidate(destination, k) == prefix + (Decimal(k) + suffix)
    {
    }
    SameMiddle(prefix, Decimal(i), Decimal(j), suffix);
    DecimalInjective(i, j);
  }

  /** The destination and its candidates are 9,999 different strings. */
  lemma CandidatesDistinct(destination: string)
    ensures NoDup(Candidates(destination)) && destination !in Candidates(destination)
  {
    var cs := Candidates(destination);
    forall i, j | 0 <= i < j < |cs|
      ensures cs[i] != cs[j]
    {
      if cs[i] == cs[j] { CandidateInjective(destination, i + FIRST_INDEX, j + FIRST_INDEX); }
    }
    forall i | 0 <= i < |cs|
      ensures cs[i] != destination
    {
      CandidateIsNew(destination, i + FIRST_INDEX);
    }
  }

  lemma {:induction false} DistinctNeedRoom(xs: seq<string>, used: set<string>)
    requires NoDup(xs) && forall x :: x in xs ==> x in used
    ensures |xs| <= |used|
  {
    if xs != [] {
      var n := |xs| - 1;
      DistinctNeedRoom(xs[..n], used - {xs[n]});
    }
  }

  lemma {:induction false} FirstFreeIs(candidates: seq<string>, used: set<string>, fallback: string)
    ensures var r := FirstFree(candidates, used, fallback);
            && ((forall c :: c in candidates ==> c in used) ==> r == fallback)
            && (!(forall c :: c in candidates ==> c in used) ==> r !in used)
  {
    if candidates != [] { FirstFreeIs(candidates[1..], used, fallback); }
  }

  lemma {:induction false} FewElements(xs: seq<string>)
    ensures |Elements(xs)| <= |xs|
  {
    if xs != [] {
      FewElements(xs[..|xs| - 1]);
      assert Elements(xs) == Elements(xs[..|xs| - 1]) + {xs[|xs| - 1]};
    }
  }

  lemma DestinationsStep(bases: seq<string>, n: nat)
    requires n < |bases|
    ensures var ds := Destinations(bases[..n]);
            Destinations(bases[..n + 1]) == ds + [Chosen(bases[n], Elements(ds))]
  {
    assert bases[..n + 1][..n] == bases[..n];
  }

  // ---- What the names are ----

  /** The extension without its leading dots. */
  predicate Undotted(extension: string, folder: string) {
    && |folder| <= |extension| && extension[|extension| - |folder|..] == folder
    && (folder == "" || folder[0] != '.')
    && forall k :: 0 <= k < |extension| - |folder| ==> extension[k] == '.'
  }

  lemma {:induction false} UndottedIsTrimmed(extension: string, folder: string)
    requires Undotted(extension, folder)
    ensures TrimDots(extension) == folder
  {
    if |folder| < |extension| {
      assert extension[1..][|extension| - 1 - |folder|..] == folder;
      UndottedIsTrimmed(extension[1..], folder);
    } else {
      assert extension[0..] == extension;
    }
  }

  lemma {:induction false} LastDotIs(stem: string, extension: string)
    requires '.' !in extension
    ensures LastDot(stem + "." + extension) == Some(|stem|)
  {
    var name := stem + "." + extension;
    if extension != "" {
      assert name[..|name| - 1] == stem + "." + extension[..|extension| - 1];
      LastDotIs(stem, extension[..|extension| - 1]);
    }
  }

  lemma {:induction false} NoLaterDot(name: string)
    requires forall k :: 1 <= k < |name| ==> name[k] != '.'
    ensures LastDot(name) == None || LastDot(name) == Some(0)
  {
    if name != "" {
      NoLaterDot(name[..|name| - 1]);
    }
  }

  /** A directory path as the standard library renders it: no trailing separator, no trailing dot component. */
  predicate IsPlainParent(parent: string) {
    !EndsWith(parent, "/") && !EndsWith(parent, "/.")
  }

  lemma ParentOfJoin(parent: string, name: string)
    requires IsPlainParent(parent) && '/' !in name
    ensures Parent((parent + "/") + name) == parent && FileName((parent + "/") + name) == name
  {
    FileNameOfJoin(parent, name);
    var path := (parent + "/") + name;
    assert path[..|path| - |name|] == parent + "/";
    assert (parent + "/")[..|parent|] == parent;
    assert TrimSeparators(parent + "/") == TrimSeparators(parent);
  }

  lemma NameParts(stem: string, extension: string)
    requires stem != "" && '.' !in extension
    ensures Stem(stem + "." + extension) == stem && Extension(stem + "." + extension) == extension
  {
    hide LastDot;
    var name := stem + "." + extension;
    LastDotIs(stem, extension);
    assert name[..|stem|] == stem && name[|stem| + 1..] == extension;
  }

  /** A candidate numbers the stem of the file name and keeps the extension; a final dot is lost. */
  lemma CandidateMeaning(parent: string, stem: string, extension: string, index: nat)
    requires IsPlainParent(parent) && stem != "" && '/' !in stem && '/' !in extension && '.' !in extension
    ensures Candidate(parent + "/" + (stem + "." + extension), index) ==
            parent + "/" + (stem + "_" + Decimal(index) + if extension == "" then "" else "." + extension)
  {
    hide Stem, Extension, FileName, Parent, Decimal, IsPlainParent;
    var name := stem + "." + extension;
    ParentOfJoin(parent, name);
    NameParts(stem, extension);
    var ending := if extension == "" then "" else "." + extension;
    assert stem + ("_" + (Decimal(index) + ending)) == stem + "_" + Decimal(index) + ending;
  }

  /** A name without a dot past its start has no extension to keep. */
  lemma PlainCandidateMeaning(parent: string, name: string, index: nat)
    requires IsPlainParent(parent) && '/' !in name && forall k :: 1 <= k < |name| ==> name[k] != '.'
    ensures Candidate(parent + "/" + name, index) == parent + "/" + (name + "_" + Decimal(index))
  {
    hide LastDot, FileName, Parent, Decimal;
    ParentOfJoin(parent, name);
    NoLaterDot(name);
    assert Decimal(index) + "" == Decimal(index);
  }

  /** Some earlier operation of the plan has this destination. */
  predicate TakenBefore(plan: seq<MoveOp>, i: nat, destination: string)
    requires i <= |plan|
  {
    exists j :: 0 <= j < i && plan[j].destination == destination
  }

  /** The first candidate that no earlier operation has, or the destination itself when all are taken. */
  predicate IsFirstFree(plan: seq<MoveOp>, i: nat, base: string, destination: string)
    requires i <= |plan|
  {
    || (exists k :: 2 <= k < 10_000 && destination == Candidate(base, k) && !TakenBefore(plan, i, destination)
                    && forall m :: 2 <= m < k ==> TakenBefore(plan, i, Candidate(base, m)))
    || (destination == base && forall m :: 2 <= m < 10_000 ==> TakenBefore(plan, i, Candidate(base, m)))
  }

  lemma {:induction false} FirstFreeFound(candidates: seq<string>, used: set<string>, fallback: string)
    returns (k: nat)
    ensures k <= |candidates| && forall m :: 0 <= m < k ==> candidates[m] in used
    ensures FirstFree(candidates, used, fallback) == if k < |candidates| then candidates[k] else fallback
    ensures k < |candidates| ==> candidates[k] !in used
  {
    if candidates == [] || candidates[0] !in used {
      k := 0;
    } else {
      var rest := FirstFreeFound(candidates[1..], used, fallback);
      k := rest + 1;
    }
  }

  lemma {:induction false} DestinationAt(bases: seq<string>, i: nat)
    requires i < |bases|
    ensures Destinations(bases)[..i] == Destinations(bases[..i])
    ensures Destinations(bases)[i] == Chosen(bases[i], Elements(Destinations(bases[..i])))
    decreases |bases|
  {
    var n := |bases| - 1;
    if i < n {
      DestinationAt(bases[..n], i);
      assert bases[..n][..i] == bases[..i];
      assert Destinations(bases)[..i] == Destinations(bases[..n])[..i];
    }
  }

  /**
    * Each file moves to root/group/extension/name, unless an earlier file of the plan has that destination; then to
    * the first of its numbered candidates that no earlier file has.
    */
  lemma PlanMeaning(files: seq<SourceFile>, root: string, i: nat, folder: string)
    requires i < |files|
    requires if IsBlank(files[i].extension) then folder == "no_extension" else Undotted(files[i].extension, folder)
    ensures var plan, base := Plan(files, root), root + "/" + files[i].group + "/" + folder + "/" + files[i].fileName;
            && |plan| == |files| && plan[i].source == files[i].path
            && (!TakenBefore(plan, i, base) ==> plan[i].destination == base)
            && (TakenBefore(plan, i, base) ==> IsFirstFree(plan, i, base, plan[i].destination))
  {
    hide Candidate, IsBlank, Destinations, TakenBefore, FirstFree, TrimDots, Undotted;
    var plan, bases := Plan(files, root), Bases(files, root);
    var base, used := bases[i], Elements(Destinations(bases[..i]));
    if !IsBlank(files[i].extension) { UndottedIsTrimmed(files[i].extension, folder); }
    DestinationAt(bases, i);
    forall d ensures d in used <==> TakenBefore(plan, i, d) {
      TakenIff(plan, Destinations(bases), i, d);
    }
    if base in used {
      var k := FirstFreeFound(Candidates(base), used, base);
      assert forall m :: 2 <= m < k + 2 ==> Candidates(base)[m - 2] == Candidate(base, m);
    }
  }

  lemma TakenIff(plan: seq<MoveOp>, ds: seq<string>, i: nat, d: string)
    requires |plan| == |ds| && i <= |ds| && forall j :: 0 <= j < |ds| ==> plan[j].destination == ds[j]
    ensures d in Elements(ds[..i]) <==> TakenBefore(plan, i, d)
  {
    if TakenBefore(plan, i, d) {
      var j :| 0 <= j < i && plan[j].destination == d;
      assert ds[..i][j] == d;
    }
  }

  // ---- Distinct destinations ----

  /** The n-th file finds its destination and every candidate for it taken. */
  predicate FallsThrough(bases: seq<string>, n: nat)
    requires n < |bases|
  {
    var used := Elements(Destinations(bases[..n]));
    bases[n] in used && forall c :: c in Candidates(bases[n]) ==> c in used
  }

  lemma FallsThroughInPrefix(bases: seq<string>, n: nat, k: nat)
    requires k < n <= |bases|
    ensures FallsThrough(bases[..n], k) <==> FallsThrough(bases, k)
  {
    assert bases[..n][..k] == bases[..k];
  }

  predicate NoneFallsThrough(bases: seq<string>) {
    forall n :: 0 <= n < |bases| ==> !FallsThrough(bases, n)
  }

  lemma NoneFallsThroughStep(bases: seq<string>)
    requires bases != []
    ensures var n := |bases| - 1; NoneFallsThrough(bases) <==> NoneFallsThrough(bases[..n]) && !FallsThrough(bases, n)
  {
    var n := |bases| - 1;
    forall k | 0 <= k < n ensures FallsThrough(bases[..n], k) <==> FallsThrough(bases, k) {
      FallsThroughInPrefix(bases, n, k);
    }
  }

  /** The destinations of a plan are pairwise distinct exactly when no file exhausts the candidates. */
  lemma {:induction false} DistinctIffNoneFallsThrough(bases: seq<string>)
    ensures NoDup(Destinations(bases)) <==> NoneFallsThrough(bases)
  {
    hide Candidates;
    if bases != [] {
      var n := |bases| - 1;
      var ds := Destinations(bases[..n]);
      DistinctIffNoneFallsThrough(bases[..n]);
      // the last file's choice is new exactly when it does not fall through
      FirstFreeIs(Candidates(bases[n]), Elements(ds), bases[n]);
      NoDupAppend(ds, Chosen(bases[n], Elements(ds)));
      NoneFallsThroughStep(bases);
    }
  }

  /** Up to 9,999 files get pairwise distinct destinations, whatever their names. */
  lemma PlanIsDistinct(bases: seq<string>)
    requires |bases| < INDEX_LIMIT
    ensures NoDup(Destinations(bases))
  {
    forall n | 0 <= n < |bases|
      ensures !FallsThrough(bases, n)
    {
      var ds, base := Destinations(bases[..n]), bases[n];
      FewElements(ds);
      if FallsThrough(bases, n) {
        CandidatesDistinct(base);
        NoDupAppend(Candidates(base), base);
        DistinctNeedRoom(Candidates(base) + [base], Elements(ds));
      }
    }
    DistinctIffNoneFallsThrough(bases);
  }

  lemma {:induction false} FirstFreeAfterTaken(candidates: seq<string>, used: set<string>, fallback: string, j: nat)
    requires j < |candidates| && candidates[j] !in used && forall i :: 0 <= i < j ==> candidates[i] in used
    ensures FirstFree(candidates, used, fallback) == candidates[j]
  {
    if j > 0 { FirstFreeAfterTaken(candidates[1..], used, fallback, j - 1); }
  }

  lemma CandidatesBefore(base: string, cs: seq<string>, n: nat)
    requires 1 <= n <= |cs| && NoDup(cs) && base !in cs
    ensures var ds := ([base] + cs)[..n];
            && base in Elements(ds) && cs[n - 1] !in Elements(ds)
            && forall i :: 0 <= i < n - 1 ==> cs[i] in Elements(ds)
  {
    var ds := ([base] + cs)[..n];
    assert ds[0] == base;
    forall i | 0 <= i < n - 1 ensures cs[i] in Elements(ds) {
      assert ds[i + 1] == cs[i];
    }
    forall i | 0 <= i < n ensures ds[i] != cs[n - 1] {
      assert i > 0 ==> ds[i] == cs[i - 1];
    }
  }

  lemma NextCandidate(base: string, n: nat)
    requires 1 <= n < INDEX_LIMIT - 1
    ensures var all := [base] + Candidates(base);
            Chosen(base, Elements(all[..n])) == all[n]
  {
    var cs := Candidates(base);
    CandidatesDistinct(base);
    CandidatesBefore(base, cs, n);
    FirstFreeAfterTaken(cs, Elements(([base] + cs)[..n]), base, n - 1);
  }

  lemma Prefixes(all: seq<string>, n: nat)
    requires n < |all|
    ensures all[..n + 1] == all[..n] + [all[n]]
  {
  }

  /** Files with one base destination get it and then the candidates in order. */
  lemma {:induction false} SameBase(bases: seq<string>, base: string, n: nat)
    requires n <= |bases| && n < INDEX_LIMIT
    requires forall i :: 0 <= i < |bases| ==> bases[i] == base
    ensures Destinations(bases[..n]) == ([base] + Candidates(base))[..n]
  {
    if n > 0 {
      SameBase(bases, base, n - 1);
      DestinationsStep(bases, n - 1);
      Prefixes([base] + Candidates(base), n - 1);
      if n > 1 { NextCandidate(base, n - 1); }
    }
  }

  /** The bound is exact: 10,000 files with one base destination collide. */
  lemma BoundIsExact(bases: seq<string>)
    requires |bases| == INDEX_LIMIT && forall i :: 0 <= i < |bases| ==> bases[i] == bases[0]
    ensures !NoDup(Destinations(bases))
  {
    var n, base := INDEX_LIMIT - 1, bases[0];
    var ds := Destinations(bases[..n]);
    SameBase(bases, base, n);
    assert ds == [base] + Candidates(base);
    assert ds[0] == base;
    assert FallsThrough(bases, n);
    DistinctIffNoneFallsThrough(bases);
  }
}
