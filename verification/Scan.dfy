/** The filtered scan of a source set (data_runtime.rs): which files it keeps, what it counts, why it finds none. */
module Scan {
  import opened Text
  import Glob
  import Organize

  // ---- Directory trees ----

  /** An entry of a directory, and the entries of a directory in the order they are visited. */
  datatype Node = File(name: string, sizeBytes: nat) | Dir(name: string, children: Forest)
  datatype Forest = Nil | Cons(head: Node, tail: Forest)

  const RUNTIME_DIR_NAME := ".supernova_v2"

  /** A file met by the scan: the names from the workspace root down to it, and its size. */
  datatype FoundFile = FoundFile(names: seq<string>, sizeBytes: nat)

  predicate IsRuntime(n: Node) {
    n.name == RUNTIME_DIR_NAME
  }

  /** The files at most maxDepth directories deep, runtime entries left out; depth is that of this directory. */
  function Files(f: Forest, at: seq<string>, depth: nat, maxDepth: nat): seq<FoundFile>
    decreases f
  {
    if f == Nil || depth > maxDepth then []
    else
      var rest := Files(f.tail, at, depth, maxDepth);
      if IsRuntime(f.head) then rest
      else
        match f.head
        case File(name, size) => [FoundFile(at + [name], size)] + rest
        case Dir(name, children) => Files(children, at + [name], depth + 1, maxDepth) + rest
  }

  /** How many directories lie just below the depth limit. */
  function Skipped(f: Forest, depth: nat, maxDepth: nat): nat
    decreases f
  {
    if f == Nil then 0
    else
      var rest := Skipped(f.tail, depth, maxDepth);
      if IsRuntime(f.head) || f.head.File? then rest
      else if depth + 1 > maxDepth then 1 + rest
      else Skipped(f.head.children, depth + 1, maxDepth) + rest
  }

  /** Following these names leads to this node, past no runtime entry. */
  predicate Locates(f: Forest, names: seq<string>, n: Node)
    decreases f
  {
    f != Nil && names != [] &&
    (Locates(f.tail, names, n)
     || (!IsRuntime(f.head) && f.head.name == names[0]
         && (if |names| == 1 then f.head == n else f.head.Dir? && Locates(f.head.children, names[1..], n))))
  }

  /** The scan sees exactly the files that can be located through at most maxDepth directories. */
  lemma {:induction false} FilesMeaning(f: Forest, at: seq<string>, depth: nat, maxDepth: nat, names: seq<string>,
                                        size: nat)
    requires depth <= maxDepth
    ensures FoundFile(at + names, size) in Files(f, at, depth, maxDepth) <==>
            (names != [] && depth + |names| <= maxDepth + 1 && exists name :: Locates(f, names, File(name, size)))
    decreases f, 2
  {
    if f != Nil {
      FilesMeaning(f.tail, at, depth, maxDepth, names, size);
      FileOfHead(f, at, depth, maxDepth, names, size);
      var target := FoundFile(at + names, size);
      var rest := Files(f.tail, at, depth, maxDepth);
      assert Files(f, at, depth, maxDepth) == OfHead(f, at, depth, maxDepth) + rest;
      assert target in Files(f, at, depth, maxDepth) <==> target in OfHead(f, at, depth, maxDepth) || target in rest;
    }
  }

  /** The files that come from the first entry. */
  function OfHead(f: Forest, at: seq<string>, depth: nat, maxDepth: nat): seq<FoundFile>
    requires f != Nil
  {
    if IsRuntime(f.head) then []
    else
      match f.head
      case File(name, size) => [FoundFile(at + [name], size)]
      case Dir(name, children) => Files(children, at + [name], depth + 1, maxDepth)
  }

  predicate LocatesInHead(f: Forest, names: seq<string>, n: Node)
    requires f != Nil
  {
    names != [] && !IsRuntime(f.head) && f.head.name == names[0]
    && (if |names| == 1 then f.head == n else f.head.Dir? && Locates(f.head.children, names[1..], n))
  }

  lemma {:induction false} FileOfHead(f: Forest, at: seq<string>, depth: nat, maxDepth: nat, names: seq<string>,
                                      size: nat)
    requires f != Nil && depth <= maxDepth
    ensures FoundFile(at + names, size) in OfHead(f, at, depth, maxDepth) <==>
            (names != [] && depth + |names| <= maxDepth + 1 && exists name :: LocatesInHead(f, names, File(name, size)))
    decreases f, 1
  {
    if !IsRuntime(f.head) {
      match f.head {
        case File(name, s) =>
          assert at + names == at + [name] ==> names == [name] by { SameSuffix(at, names, [name]); }
        case Dir(name, children) =>
          DirOfHead(f, at, depth, maxDepth, names, size);
      }
    }
  }

  lemma SameSuffix(at: seq<string>, a: seq<string>, b: seq<string>)
    ensures at + a == at + b ==> a == b
  {
    assert (at + a)[|at|..] == a && (at + b)[|at|..] == b;
  }

  lemma {:induction false} FilesAreBelow(f: Forest, at: seq<string>, depth: nat, maxDepth: nat, found: FoundFile)
    requires found in Files(f, at, depth, maxDepth)
    ensures |at| < |found.names| && found.names[..|at|] == at
    decreases f
  {
    var rest := Files(f.tail, at, depth, maxDepth);
    if found in rest {
      FilesAreBelow(f.tail, at, depth, maxDepth, found);
    } else if f.head.Dir? {
      FilesAreBelow(f.head.children, at + [f.head.name], depth + 1, maxDepth, found);
      assert found.names[..|at|] == found.names[..|at| + 1][..|at|] == at;
    }
  }

  lemma {:induction false} DirOfHead(f: Forest, at: seq<string>, depth: nat, maxDepth: nat, names: seq<string>,
                                     size: nat)
    requires f != Nil && depth <= maxDepth && !IsRuntime(f.head) && f.head.Dir?
    ensures FoundFile(at + names, size) in OfHead(f, at, depth, maxDepth) <==>
            (names != [] && depth + |names| <= maxDepth + 1 && exists name :: LocatesInHead(f, names, File(name, size)))
    decreases f, 0
  {
    var name, children := f.head.name, f.head.children;
    var target := FoundFile(at + names, size);
    if target in OfHead(f, at, depth, maxDepth) {
      FilesAreBelow(children, at + [name], depth + 1, maxDepth, target);
      assert (at + names)[|at|] == (at + names)[..|at| + 1][|at|] == name;
    }
    if |names| > 1 && names[0] == name {
      assert at + names == (at + [name]) + names[1..];
      if depth + 1 <= maxDepth {
        FilesMeaning(children, at + [name], depth + 1, maxDepth, names[1..], size);
      }
    }
  }

  /** The entries of one directory followed by those of another. */
  function Append(f: Forest, g: Forest): Forest
    decreases f
  {
    if f == Nil then g else Cons(f.head, Append(f.tail, g))
  }

  /** Entries are visited in their order, a directory's files where the directory stands; a runtime entry is passed
      over, and so is a directory beyond the limit, which counts as one skipped. */
  lemma {:induction false} VisitedInOrder(f: Forest, g: Forest, at: seq<string>, depth: nat, maxDepth: nat)
    requires depth <= maxDepth
    ensures Files(Append(f, g), at, depth, maxDepth) == Files(f, at, depth, maxDepth) + Files(g, at, depth, maxDepth)
    ensures Skipped(Append(f, g), depth, maxDepth) == Skipped(f, depth, maxDepth) + Skipped(g, depth, maxDepth)
    decreases f
  {
    if f == Nil {
      assert [] + Files(g, at, depth, maxDepth) == Files(g, at, depth, maxDepth);
    } else {
      hide Files, Skipped, OfHead, SkippedOfHead;
      var both := Append(f, g);
      VisitedInOrder(f.tail, g, at, depth, maxDepth);
      HeadAndTail(both, at, depth, maxDepth, []);
      HeadAndTail(f, at, depth, maxDepth, []);
      SameHead(both, f, at, depth, maxDepth);
      Regroup(OfHead(f, at, depth, maxDepth), Files(f.tail, at, depth, maxDepth), Files(g, at, depth, maxDepth));
    }
  }

  lemma Regroup(a: seq<FoundFile>, b: seq<FoundFile>, c: seq<FoundFile>)
    ensures [] + a + (b + c) == [] + a + b + c && [] + a == a
  {
  }

  lemma SameHead(f: Forest, g: Forest, at: seq<string>, depth: nat, maxDepth: nat)
    requires f != Nil && g != Nil && f.head == g.head
    ensures OfHead(f, at, depth, maxDepth) == OfHead(g, at, depth, maxDepth)
    ensures SkippedOfHead(f, depth, maxDepth) == SkippedOfHead(g, depth, maxDepth)
  {
  }

  lemma OneFile(name: string, size: nat, at: seq<string>, depth: nat, maxDepth: nat)
    requires depth <= maxDepth
    ensures var f := Cons(File(name, size), Nil);
            && Files(f, at, depth, maxDepth) == (if name == ".supernova_v2" then [] else [FoundFile(at + [name], size)])
            && Skipped(f, depth, maxDepth) == 0
  {
    assert Files(Nil, at, depth, maxDepth) == [];
  }

  lemma OneDirectory(name: string, children: Forest, at: seq<string>, depth: nat, maxDepth: nat)
    requires depth <= maxDepth
    ensures var f := Cons(Dir(name, children), Nil);
            var entered := name != ".supernova_v2" && depth < maxDepth;
            && Files(f, at, depth, maxDepth)
               == (if entered then Files(children, at + [name], depth + 1, maxDepth) else [])
            && Skipped(f, depth, maxDepth) == if entered then Skipped(children, depth + 1, maxDepth)
                                              else if name == ".supernova_v2" then 0 else 1
  {
    var inside := Files(children, at + [name], depth + 1, maxDepth);
    assert Files(Nil, at, depth, maxDepth) == [] && inside + [] == inside;
  }

  // ---- Filters ----

  datatype Filters = Filters(includeExtensions: seq<string>, includeGlobs: seq<string>, excludeGlobs: seq<string>)

  datatype Verdict = Excluded | WrongExtension | NotIncluded | Kept

  function RelativePath(names: seq<string>): string {
    Slashed(Join(names, "/"))
  }

  /** The extension of a file name in lower case with its dot; a name without a dot past its start has none. */
  function ExtensionOf(name: string): string {
    match Organize.LastDot(name)
    case Some(i) => if i > 0 then "." + ToLower(name[i + 1..]) else ""
    case None => ""
  }

  ghost predicate MatchesAny(path: string, patterns: seq<string>) {
    patterns != [] && (MatchesAny(path, patterns[..|patterns| - 1]) || Glob.Accepts(path, patterns[|patterns| - 1]))
  }

  lemma {:induction false} MatchesAnyIff(path: string, patterns: seq<string>)
    ensures MatchesAny(path, patterns) <==> exists pattern :: pattern in patterns && Glob.Accepts(path, pattern)
    decreases |patterns|
  {
    if patterns != [] {
      var n := |patterns| - 1;
      MatchesAnyIff(path, patterns[..n]);
      assert patterns[n] in patterns && forall p :: p in patterns <==> p in patterns[..n] || p == patterns[n];
    }
  }

  method AnyMatch(path: string, patterns: seq<string>) returns (r: bool)
    ensures r <==> MatchesAny(path, patterns)
  {
    r := false;
    var k := 0;
    while k < |patterns|
      invariant 0 <= k <= |patterns|
      invariant r <==> MatchesAny(path, patterns[..k])
    {
      assert patterns[..k + 1][..k] == patterns[..k];
      var matches := Glob.GlobLikeMatch(path, patterns[k]);
      r := r || matches;
      k := k + 1;
    }
    assert patterns[..k] == patterns;
  }

  /** The filters in their order: exclude globs, then extensions, then include globs; an empty include list lets all
      pass. */
  ghost function Judged(path: string, extension: string, filters: Filters): Verdict {
    if MatchesAny(path, filters.excludeGlobs) then Excluded
    else if filters.includeExtensions != [] && extension !in filters.includeExtensions then WrongExtension
    else if filters.includeGlobs != [] && !MatchesAny(path, filters.includeGlobs) then NotIncluded
    else Kept
  }

  /** A file is excluded when an exclude glob accepts it, has the wrong extension when that is not listed, and is not
      included when no include glob accepts it; the first that applies counts. */
  lemma JudgedMeaning(path: string, extension: string, filters: Filters)
    ensures var excluded := exists p :: p in filters.excludeGlobs && Glob.Accepts(path, p);
            var listed := filters.includeExtensions == [] || extension in filters.includeExtensions;
            var included :=
              filters.includeGlobs == [] || exists p :: p in filters.includeGlobs && Glob.Accepts(path, p);
            var verdict := Judged(path, extension, filters);
            && (verdict == Excluded <==> excluded)
            && (verdict == WrongExtension <==> !excluded && !listed)
            && (verdict == NotIncluded <==> !excluded && listed && !included)
            && (verdict == Kept <==> !excluded && listed && included)
  {
    MatchesAnyIff(path, filters.excludeGlobs);
    MatchesAnyIff(path, filters.includeGlobs);
  }

  /** The filters see the names joined by slashes, and the last name's extension in lower case. */
  lemma VerdictMeaning(f: FoundFile, filters: Filters, stem: string, extension: string)
    requires f.names != [] && f.names[|f.names| - 1] == stem + "." + extension && stem != "" && '.' !in extension
    ensures VerdictOn(f, filters) == Judged(Slashed(Join(f.names, "/")), "." + ToLower(extension), filters)
  {
    hide Judged, Slashed, Join, ToLower;
    Organize.LastDotIs(stem, extension);
    assert (stem + "." + extension)[|stem| + 1..] == extension;
  }

  lemma VerdictWithoutExtension(f: FoundFile, filters: Filters, name: string)
    requires f.names != [] && f.names[|f.names| - 1] == name && forall k :: 1 <= k < |name| ==> name[k] != '.'
    ensures VerdictOn(f, filters) == Judged(Slashed(Join(f.names, "/")), "", filters)
  {
    hide Judged, Slashed, Join, ToLower;
    Organize.NoLaterDot(name);
  }

  method Judge(path: string, extension: string, filters: Filters) returns (v: Verdict)
    ensures v == Judged(path, extension, filters)
  {
    var excluded := AnyMatch(path, filters.excludeGlobs);
    if excluded { return Excluded; }
    if filters.includeExtensions != [] && extension !in filters.includeExtensions { return WrongExtension; }
    if filters.includeGlobs != [] {
      var included := AnyMatch(path, filters.includeGlobs);
      if !included { return NotIncluded; }
    }
    return Kept;
  }

  // ---- The scan ----

  datatype Diagnostics = Diagnostics(scanned: nat, excluded: nat, wrongExtension: nat, notIncluded: nat,
      skippedByDepth: nat)

  const NO_DIAGNOSTICS := Diagnostics(0, 0, 0, 0, 0)

  function LastName(names: seq<string>): string {
    if names == [] then "" else names[|names| - 1]
  }

  ghost function VerdictOn(f: FoundFile, filters: Filters): Verdict {
    Judged(RelativePath(f.names), ExtensionOf(LastName(f.names)), filters)
  }

  /** judge gives every file the verdict of these filters. */
  ghost predicate Judges(judge: FoundFile -> Verdict, filters: Filters) {
    forall f {:trigger VerdictOn(f, filters)} :: judge(f) == VerdictOn(f, filters)
  }

  /** The two outputs of the scan, which it fills as it goes. */
  datatype Scan = Scan(files: seq<FoundFile>, diagnostics: Diagnostics)

  /** One more file with this verdict. */
  function AddFile(scan: Scan, file: FoundFile, v: Verdict): Scan {
    var d := scan.diagnostics.(scanned := scan.diagnostics.scanned + 1);
    match v
    case Excluded => Scan(scan.files, d.(excluded := d.excluded + 1))
    case WrongExtension => Scan(scan.files, d.(wrongExtension := d.wrongExtension + 1))
    case NotIncluded => Scan(scan.files, d.(notIncluded := d.notIncluded + 1))
    case Kept => Scan(scan.files + [file], d)
  }

  /** The outputs after these files and this many skipped directories. */
  ghost function Seen(found: seq<FoundFile>, skipped: nat, judge: FoundFile -> Verdict): Scan {
    if found == [] then Scan([], NO_DIAGNOSTICS.(skippedByDepth := skipped))
    else
      var last := found[|found| - 1];
      AddFile(Seen(found[..|found| - 1], skipped, judge), last, judge(last))
  }

  lemma {:induction false} SkipOne(found: seq<FoundFile>, skipped: nat, judge: FoundFile -> Verdict)
    ensures var scan := Seen(found, skipped, judge);
            Seen(found, skipped + 1, judge) == scan.(diagnostics := scan.diagnostics.(skippedByDepth := skipped + 1))
    ensures Seen(found, skipped, judge).diagnostics.skippedByDepth == skipped
    decreases |found|
  {
    if found != [] {
      SkipOne(found[..|found| - 1], skipped, judge);
    }
  }

  /** One file: its counters, and the file itself when no filter refuses it. */
  method ScanFile(f: FoundFile, filters: Filters, scan: Scan, ghost judge: FoundFile -> Verdict,
                  ghost found: seq<FoundFile>, ghost skipped: nat)
    returns (more: Scan)
    requires Judges(judge, filters)
    requires scan == Seen(found, skipped, judge)
    ensures more == Seen(found + [f], skipped, judge)
  {
    var v := Judge(RelativePath(f.names), ExtensionOf(LastName(f.names)), filters);
    assert VerdictOn(f, filters) == v;
    assert (found + [f])[..|found|] == found;
    var files := scan.files;
    var d := scan.diagnostics;
    d := d.(scanned := d.scanned + 1);
    match v {
      case Excluded => d := d.(excluded := d.excluded + 1);
      case WrongExtension => d := d.(wrongExtension := d.wrongExtension + 1);
      case NotIncluded => d := d.(notIncluded := d.notIncluded + 1);
      case Kept => files := files + [f];
    }
    more := Scan(files, d);
    assert more == AddFile(scan, f, v);
  }

  /** The skipped directories of a whole call: the directory itself when it is too deep. */
  function SkippedFrom(f: Forest, depth: nat, maxDepth: nat): nat {
    if depth > maxDepth then 1 else Skipped(f, depth, maxDepth)
  }

  function SkippedOfHead(f: Forest, depth: nat, maxDepth: nat): nat
    requires f != Nil
  {
    if IsRuntime(f.head) || f.head.File? then 0 else SkippedFrom(f.head.children, depth + 1, maxDepth)
  }

  lemma HeadAndTail(f: Forest, at: seq<string>, depth: nat, maxDepth: nat, seen: seq<FoundFile>)
    requires f != Nil && depth <= maxDepth
    ensures seen + OfHead(f, at, depth, maxDepth) + Files(f.tail, at, depth, maxDepth) ==
            seen + Files(f, at, depth, maxDepth)
    ensures SkippedOfHead(f, depth, maxDepth) + Skipped(f.tail, depth, maxDepth) == Skipped(f, depth, maxDepth)
  {
    assert Files(f, at, depth, maxDepth) == OfHead(f, at, depth, maxDepth) + Files(f.tail, at, depth, maxDepth);
  }

  /** The body of the loop over the entries of a directory. */
  method VisitEntry(entry: Node, at: seq<string>, depth: nat, maxDepth: nat, filters: Filters, scan: Scan,
                    ghost rest: Forest, ghost judge: FoundFile -> Verdict, ghost found: seq<FoundFile>,
                    ghost skipped: nat)
    returns (more: Scan, ghost seen: seq<FoundFile>, ghost passed: nat)
    requires rest != Nil && entry == rest.head && depth <= maxDepth
    requires Judges(judge, filters)
    requires scan == Seen(found, skipped, judge)
    ensures more == Seen(seen, passed, judge)
    ensures seen + Files(rest.tail, at, depth, maxDepth) == found + Files(rest, at, depth, maxDepth)
    ensures passed + Skipped(rest.tail, depth, maxDepth) == skipped + Skipped(rest, depth, maxDepth)
    decreases entry, 0
  {
    HeadAndTail(rest, at, depth, maxDepth, found);
    more, seen, passed := scan, found, skipped;
    if IsRuntime(entry) {
      assert found + [] == found;
      return;
    }
    seen := found + OfHead(rest, at, depth, maxDepth);
    passed := skipped + SkippedOfHead(rest, depth, maxDepth);
    match entry {
      case File(name, size) =>
        more := ScanFile(FoundFile(at + [name], size), filters, more, judge, found, skipped);
      case Dir(name, children) =>
        more := CollectSourceFiles(children, at + [name], depth + 1, maxDepth, filters, more, judge, found, skipped);
    }
  }

  /** collect_source_files: one directory, unless it is too deep. */
  method CollectSourceFiles(f: Forest, at: seq<string>, depth: nat, maxDepth: nat, filters: Filters, scan: Scan,
                            ghost judge: FoundFile -> Verdict, ghost found: seq<FoundFile>, ghost skipped: nat)
    returns (more: Scan)
    requires Judges(judge, filters)
    requires scan == Seen(found, skipped, judge)
    ensures more == Seen(found + Files(f, at, depth, maxDepth), skipped + SkippedFrom(f, depth, maxDepth), judge)
    decreases f, 2
  {
    more := scan;
    if depth > maxDepth {
      more := more.(diagnostics := more.diagnostics.(skippedByDepth := more.diagnostics.skippedByDepth + 1));
      SkipOne(found, skipped, judge);
      assert found + [] == found;
      return;
    }
    more := VisitEntries(f, at, depth, maxDepth, filters, more, judge, found, skipped);
  }

  /** The loop over the entries of a directory. */
  method VisitEntries(f: Forest, at: seq<string>, depth: nat, maxDepth: nat, filters: Filters, scan: Scan,
                      ghost judge: FoundFile -> Verdict, ghost found: seq<FoundFile>, ghost skipped: nat)
    returns (more: Scan)
    requires depth <= maxDepth
    requires Judges(judge, filters)
    requires scan == Seen(found, skipped, judge)
    ensures more == Seen(found + Files(f, at, depth, maxDepth), skipped + Skipped(f, depth, maxDepth), judge)
    decreases f, 1
  {
    more := scan;
    var rest := f;
    ghost var seen, total := found, found + Files(f, at, depth, maxDepth);
    ghost var passed: nat, allPassed := skipped, skipped + Skipped(f, depth, maxDepth);
    while rest != Nil
      invariant more == Seen(seen, passed, judge)
      invariant seen + Files(rest, at, depth, maxDepth) == total
      invariant passed + Skipped(rest, depth, maxDepth) == allPassed
      invariant rest == f || rest < f
      decreases rest
    {
      more, seen, passed := VisitEntry(rest.head, at, depth, maxDepth, filters, more, rest, judge, seen, passed);
      rest := rest.tail;
    }
    assert seen == total by { assert seen + [] == seen; }
  }

  // ---- Why nothing was kept ----

  datatype ZeroMatchReason =
    | DepthPreventedTraversal | NoFilesWithinDepth | ExtensionsMatchedNone | IncludeGlobsMatchedNone
    | ExcludeGlobsFilteredAll | FiltersMatchedNone

  function ZeroMatch(fileCount: nat, d: Diagnostics, extensionFilter: bool,
                     includeGlobFilter: bool): Option<ZeroMatchReason>
  {
    if fileCount > 0 then None
    else if d.scanned == 0 && d.skippedByDepth > 0 then Some(DepthPreventedTraversal)
    else if d.scanned == 0 then Some(NoFilesWithinDepth)
    else if extensionFilter && d.wrongExtension == d.scanned then Some(ExtensionsMatchedNone)
    else if includeGlobFilter && d.notIncluded == d.scanned then Some(IncludeGlobsMatchedNone)
    else if d.excluded == d.scanned then Some(ExcludeGlobsFilteredAll)
    else Some(FiltersMatchedNone)
  }

  datatype SourceSet = SourceSet(files: seq<FoundFile>, diagnostics: Diagnostics,
      zeroMatchReason: Option<ZeroMatchReason>)

  /** The files with this verdict, in order; judge gives the verdicts. */
  ghost function With(found: seq<FoundFile>, judge: FoundFile -> Verdict, v: Verdict): seq<FoundFile> {
    if found == [] then []
    else
      var before := With(found[..|found| - 1], judge, v);
      if judge(found[|found| - 1]) == v then before + [found[|found| - 1]] else before
  }

  /** The counters once these files have been seen. */
  ghost function Counted(found: seq<FoundFile>, judge: FoundFile -> Verdict, skipped: nat): Diagnostics {
    Diagnostics(|found|, |With(found, judge, Excluded)|, |With(found, judge, WrongExtension)|,
                |With(found, judge, NotIncluded)|, skipped)
  }

  /** What the scan has filled in: the kept files in order, and one count for each verdict. */
  lemma {:induction false} SeenMeaning(found: seq<FoundFile>, skipped: nat, judge: FoundFile -> Verdict)
    ensures Seen(found, skipped, judge) == Scan(With(found, judge, Kept), Counted(found, judge, skipped))
    decreases |found|
  {
    if found != [] {
      SeenMeaning(found[..|found| - 1], skipped, judge);
    }
  }

  /** Every file seen has one verdict, so the kept and the three kinds of excluded files add up. */
  lemma {:induction false} VerdictsAddUp(found: seq<FoundFile>, judge: FoundFile -> Verdict)
    ensures |found| == |With(found, judge, Kept)| + |With(found, judge, Excluded)|
                     + |With(found, judge, WrongExtension)| + |With(found, judge, NotIncluded)|
    decreases |found|
  {
    if found != [] {
      VerdictsAddUp(found[..|found| - 1], judge);
    }
  }

  ghost predicate AllHave(found: seq<FoundFile>, judge: FoundFile -> Verdict, v: Verdict) {
    forall f :: f in found ==> judge(f) == v
  }

  lemma {:induction false} WithAll(found: seq<FoundFile>, judge: FoundFile -> Verdict, v: Verdict)
    ensures |With(found, judge, v)| <= |found|
    ensures |With(found, judge, v)| == |found| <==> AllHave(found, judge, v)
    decreases |found|
  {
    if found != [] {
      WithAll(found[..|found| - 1], judge, v);
      assert found == found[..|found| - 1] + [found[|found| - 1]];
    }
  }

  lemma {:induction false} WithMember(found: seq<FoundFile>, judge: FoundFile -> Verdict, v: Verdict, f: FoundFile)
    ensures f in With(found, judge, v) <==> f in found && judge(f) == v
    decreases |found|
  {
    if found != [] {
      WithMember(found[..|found| - 1], judge, v, f);
      assert found == found[..|found| - 1] + [found[|found| - 1]];
    }
  }

  /** What is kept comes in the order in which it is seen. */
  lemma {:induction false} WithConcat(a: seq<FoundFile>, b: seq<FoundFile>, judge: FoundFile -> Verdict, v: Verdict)
    ensures With(a + b, judge, v) == With(a, judge, v) + With(b, judge, v)
    decreases |b|
  {
    if b == [] {
      assert a + b == a;
    } else {
      var n := |b| - 1;
      WithConcat(a, b[..n], judge, v);
      assert (a + b)[..|a| + n] == a + b[..n] && (a + b)[|a| + n] == b[n];
    }
  }

  lemma WithOne(f: FoundFile, judge: FoundFile -> Verdict, v: Verdict)
    ensures With([f], judge, v) == if judge(f) == v then [f] else []
  {
    assert [f][..0] == [];
  }

  /** The verdict behind a reason that blames one filter. */
  function Blamed(reason: ZeroMatchReason): Verdict {
    match reason
    case ExtensionsMatchedNone => WrongExtension
    case IncludeGlobsMatchedNone => NotIncluded
    case ExcludeGlobsFilteredAll => Excluded
    case _ => Kept
  }

  /** What the reason says about the files seen. */
  ghost predicate ReasonFits(reason: Option<ZeroMatchReason>, found: seq<FoundFile>, skipped: nat,
                             judge: FoundFile -> Verdict)
  {
    match reason
    case None => exists f :: f in found && judge(f) == Kept
    case Some(DepthPreventedTraversal) => found == [] && skipped > 0
    case Some(NoFilesWithinDepth) => found == [] && skipped == 0
    case Some(FiltersMatchedNone) =>
      found != [] && (forall f :: f in found ==> judge(f) != Kept) && forall v: Verdict :: !AllHave(found, judge, v)
    case Some(r) => found != [] && AllHave(found, judge, Blamed(r))
  }

  /** A verdict is only given when the filter behind it is there. */
  predicate FiltersPresent(found: seq<FoundFile>, judge: FoundFile -> Verdict, extensionFilter: bool,
                           includeGlobFilter: bool)
  {
    forall f :: f in found ==>
      (judge(f) == WrongExtension ==> extensionFilter) && (judge(f) == NotIncluded ==> includeGlobFilter)
  }

  lemma VerdictNeedsFilter(found: seq<FoundFile>, judge: FoundFile -> Verdict, filters: Filters)
    requires Judges(judge, filters)
    ensures FiltersPresent(found, judge, filters.includeExtensions != [], filters.includeGlobs != [])
  {
    forall f | f in found
      ensures judge(f) == WrongExtension ==> filters.includeExtensions != []
      ensures judge(f) == NotIncluded ==> filters.includeGlobs != []
    {
      assert judge(f) == VerdictOn(f, filters);
    }
  }

  lemma KeptOrNot(found: seq<FoundFile>, judge: FoundFile -> Verdict)
    ensures With(found, judge, Kept) != [] <==> exists f :: f in found && judge(f) == Kept
  {
    if With(found, judge, Kept) != [] {
      var f := With(found, judge, Kept)[0];
      WithMember(found, judge, Kept, f);
    }
    if f :| f in found && judge(f) == Kept {
      WithMember(found, judge, Kept, f);
    }
  }

  /** The counters decide which reason is given, and it is the one that fits the files. */
  lemma ReasonMeaning(found: seq<FoundFile>, skipped: nat, judge: FoundFile -> Verdict, extensionFilter: bool,
                      includeGlobFilter: bool)
    requires FiltersPresent(found, judge, extensionFilter, includeGlobFilter)
    ensures var reason := ZeroMatch(|With(found, judge, Kept)|, Counted(found, judge, skipped), extensionFilter,
            includeGlobFilter);
            ReasonFits(reason, found, skipped, judge)
  {
    KeptOrNot(found, judge);
    WithAll(found, judge, Excluded);
    WithAll(found, judge, WrongExtension);
    WithAll(found, judge, NotIncluded);
    if found != [] {
      assert found[0] in found;
    }
  }

  /** s is the source set of these files: the kept ones in order, true counts, and a reason that fits. */
  ghost predicate IsSourceSet(s: SourceSet, found: seq<FoundFile>, skipped: nat, judge: FoundFile -> Verdict) {
    && s.files == With(found, judge, Kept)
    && s.diagnostics == Counted(found, judge, skipped)
    && s.diagnostics.scanned == |s.files| + s.diagnostics.excluded + s.diagnostics.wrongExtension +
       s.diagnostics.notIncluded
    && (s.zeroMatchReason == None <==> s.files != [])
    && ReasonFits(s.zeroMatchReason, found, skipped, judge)
  }

  function SourceSetOf(scan: Scan, extensionFilter: bool, includeGlobFilter: bool): SourceSet {
    SourceSet(scan.files, scan.diagnostics,
        ZeroMatch(|scan.files|, scan.diagnostics, extensionFilter, includeGlobFilter))
  }

  lemma SourceSetMeaning(found: seq<FoundFile>, skipped: nat, judge: FoundFile -> Verdict, extensionFilter: bool,
                         includeGlobFilter: bool)
    requires FiltersPresent(found, judge, extensionFilter, includeGlobFilter)
    ensures IsSourceSet(SourceSetOf(Seen(found, skipped, judge), extensionFilter, includeGlobFilter), found, skipped,
            judge)
  {
    SeenMeaning(found, skipped, judge);
    VerdictsAddUp(found, judge);
    ReasonMeaning(found, skipped, judge, extensionFilter, includeGlobFilter);
  }

  lemma WholeScanMeaning(found: seq<FoundFile>, skipped: nat, judge: FoundFile -> Verdict, filters: Filters, scan: Scan)
    requires Judges(judge, filters) && scan == Seen([] + found, skipped, judge)
    ensures IsSourceSet(SourceSetOf(scan, filters.includeExtensions != [], filters.includeGlobs != []), found, skipped,
            judge)
  {
    assert [] + found == found;
    VerdictNeedsFilter(found, judge, filters);
    SourceSetMeaning(found, skipped, judge, filters.includeExtensions != [], filters.includeGlobs != []);
  }

  /** create_source_set: the files of the tree within maxDepth that no filter refuses. */
  method CreateSourceSet(root: Forest, at: seq<string>, maxDepth: nat, filters: Filters,
                         ghost judge: FoundFile -> Verdict)
    returns (s: SourceSet)
    requires Judges(judge, filters)
    ensures IsSourceSet(s, Files(root, at, 0, maxDepth), Skipped(root, 0, maxDepth), judge)
  {
    var scan := CollectSourceFiles(root, at, 0, maxDepth, filters, Scan([], NO_DIAGNOSTICS), judge, [], 0);
    s := SourceSetOf(scan, filters.includeExtensions != [], filters.includeGlobs != []);
    WholeScanMeaning(Files(root, at, 0, maxDepth), Skipped(root, 0, maxDepth), judge, filters, scan);
  }

  /** names leads to a directory just below the depth limit. */
  predicate TooDeep(n: Node, depth: nat, names: seq<string>, maxDepth: nat) {
    n.Dir? && !IsRuntime(n) && depth + |names| == maxDepth + 1
  }

  /** A directory lies just below the limit exactly when the scan skipped one. */
  lemma {:induction false} SkippedMeaning(f: Forest, depth: nat, maxDepth: nat)
    requires depth <= maxDepth
    ensures Skipped(f, depth, maxDepth) > 0 <==> exists names, n ::
            Locates(f, names, n) && TooDeep(n, depth, names, maxDepth)
    decreases f, 1
  {
    if f != Nil {
      SkippedMeaning(f.tail, depth, maxDepth);
      SkippedInHead(f, depth, maxDepth);
      HeadAndTail(f, [], depth, maxDepth, []);
      forall names, n
        ensures names != [] ==> (Locates(f, names, n) <==> Locates(f.tail, names, n) || LocatesInHead(f, names, n))
      {
      }
    }
  }

  lemma {:induction false} SkippedInHead(f: Forest, depth: nat, maxDepth: nat)
    requires f != Nil && depth <= maxDepth
    ensures SkippedOfHead(f, depth, maxDepth) > 0 <==>
            exists names, n :: LocatesInHead(f, names, n) && TooDeep(n, depth, names, maxDepth)
    decreases f, 0
  {
    if !IsRuntime(f.head) && f.head.Dir? {
      var name, children := f.head.name, f.head.children;
      if depth + 1 > maxDepth {
        assert LocatesInHead(f, [name], f.head) && TooDeep(f.head, depth, [name], maxDepth);
      } else {
        SkippedMeaning(children, depth + 1, maxDepth);
        if names, n :| Locates(children, names, n) && TooDeep(n, depth + 1, names, maxDepth) {
          assert ([name] + names)[1..] == names;
          assert LocatesInHead(f, [name] + names, n) && TooDeep(n, depth, [name] + names, maxDepth);
        }
        if names, n :| LocatesInHead(f, names, n) && TooDeep(n, depth, names, maxDepth) {
          assert TooDeep(n, depth + 1, names[1..], maxDepth);
        }
      }
    }
  }

  // ---- When the depth limit is rightly blamed ----

  lemma {:induction false} LocatesSplit(f: Forest, a: seq<string>, b: seq<string>, n: Node) returns (d: Node)
    requires a != [] && b != [] && Locates(f, a + b, n)
    ensures Locates(f, a, d) && d.Dir? && !IsRuntime(d) && Locates(d.children, b, n)
    decreases f
  {
    if Locates(f.tail, a + b, n) {
      d := LocatesSplit(f.tail, a, b, n);
    } else if |a| == 1 {
      d := f.head;
      assert (a + b)[1..] == b;
    } else {
      assert (a + b)[1..] == a[1..] + b;
      d := LocatesSplit(f.head.children, a[1..], b, n);
    }
  }

  lemma {:induction false} LocatesJoin(f: Forest, a: seq<string>, d: Node, b: seq<string>, n: Node)
    requires Locates(f, a, d) && d.Dir? && Locates(d.children, b, n)
    ensures Locates(f, a + b, n)
    decreases f
  {
    if Locates(f.tail, a, d) {
      LocatesJoin(f.tail, a, d, b, n);
    } else if |a| == 1 {
      assert (a + b)[1..] == b && b != [];
    } else {
      assert (a + b)[1..] == a[1..] + b;
      LocatesJoin(f.head.children, a[1..], d, b, n);
    }
  }

  /** Some file lies in this directory, at any depth. */
  ghost predicate HoldsFile(d: Node) {
    d.Dir? && exists names, name, size :: Locates(d.children, names, File(name, size))
  }

  ghost predicate HiddenByDepth(root: Forest, maxDepth: nat, names: seq<string>, d: Node) {
    Locates(root, names, d) && TooDeep(d, 0, names, maxDepth) && HoldsFile(d)
  }

  lemma DeeperFileIsHidden(root: Forest, at: seq<string>, maxDepth: nat, deeper: nat)
    returns (names: seq<string>, d: Node)
    requires Files(root, at, 0, maxDepth) == [] && Files(root, at, 0, deeper) != []
    ensures HiddenByDepth(root, maxDepth, names, d)
  {
    var found := Files(root, at, 0, deeper)[0];
    FilesAreBelow(root, at, 0, deeper, found);
    var all := found.names[|at|..];
    assert at + all == found.names;
    FilesMeaning(root, at, 0, deeper, all, found.sizeBytes);
    FilesMeaning(root, at, 0, maxDepth, all, found.sizeBytes);
    var name :| Locates(root, all, File(name, found.sizeBytes));
    names := all[..maxDepth + 1];
    assert all == names + all[maxDepth + 1..];
    d := LocatesSplit(root, names, all[maxDepth + 1..], File(name, found.sizeBytes));
  }

  lemma HiddenFileIsReachable(root: Forest, at: seq<string>, maxDepth: nat, names: seq<string>, d: Node)
    requires HiddenByDepth(root, maxDepth, names, d)
    ensures exists deeper: nat :: Files(root, at, 0, deeper) != []
  {
    var below, name, size :| Locates(d.children, below, File(name, size));
    LocatesJoin(root, names, d, below, File(name, size));
    var deeper := |names + below|;
    FilesMeaning(root, at, 0, deeper, names + below, size);
    assert Files(root, at, 0, deeper) != [];
  }

  /**
    * When the scan sees no file and blames the depth limit, a larger limit would reach a file exactly when one of the
    * directories just below the limit holds one.
    */
  lemma DepthRightlyBlamedIff(root: Forest, at: seq<string>, maxDepth: nat)
    requires Files(root, at, 0, maxDepth) == []
    ensures (exists deeper: nat :: Files(root, at, 0, deeper) != []) <==>
            exists names, d :: HiddenByDepth(root, maxDepth, names, d)
  {
    if deeper: nat :| Files(root, at, 0, deeper) != [] {
      var names, d := DeeperFileIsHidden(root, at, maxDepth, deeper);
    }
    if names, d :| HiddenByDepth(root, maxDepth, names, d) {
      HiddenFileIsReachable(root, at, maxDepth, names, d);
    }
  }

  /** The depth limit is blamed for an empty directory too: nothing to reach at any depth, and the same reason. */
  lemma DepthBlamedForNothing(name: string, judge: FoundFile -> Verdict, deeper: nat)
    requires name != RUNTIME_DIR_NAME
    ensures var root := Cons(Dir(name, Nil), Nil);
            && Files(root, [], 0, deeper) == []
            && ZeroMatch(0, Counted([], judge, Skipped(root, 0, 0)), false, false) == Some(DepthPreventedTraversal)
  {
    assert Files(Nil, [name], 1, deeper) == [];
  }
}
