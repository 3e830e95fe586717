/** The batch-move transactions of the data runtime (data_runtime.rs): apply_organize_tx and rename_batch_apply
    run the same loop, and record the executed operations as a rollback plan. */
module BatchMove {
  import opened Text
  import opened Organize

  /** File contents by normalised path. */
  type Files = map<string, string>

  datatype MoveError = SourceVanished(path: string)

  /** A failed transaction stops where it is and records no rollback plan. */
  datatype Applied = Applied(files: Files, recorded: Result<seq<MoveOp>, MoveError>)

  function Moved(files: Files, op: MoveOp): Files
    requires op.source in files
  {
    (files - {op.source})[op.destination := files[op.source]]
  }

  /** The loop over the operations. An existing destination is removed first, so moving a file onto itself loses it
      and then fails. */
  function Apply(files: Files, ops: seq<MoveOp>): Applied
    decreases |ops|
  {
    if ops == [] then Applied(files, Ok([]))
    else if ops[0].source !in files then Apply(files, ops[1..])
    else if ops[0].source == ops[0].destination
        then Applied(files - {ops[0].source}, Err(SourceVanished(ops[0].source)))
    else
      var rest := Apply(Moved(files, ops[0]), ops[1..]);
      match rest.recorded
      case Ok(recorded) => rest.(recorded := Ok([ops[0]] + recorded))
      case Err(_) => rest
  }

  class Workspace {
    var files: Files

    constructor (files: Files)
      ensures this.files == files
    {
      this.files := files;
    }

    method ApplyTx(ops: seq<MoveOp>) returns (recorded: Result<seq<MoveOp>, MoveError>)
      modifies this
      ensures Applied(files, recorded) == Apply(old(files), ops)
    {
      var moved: seq<MoveOp> := [];
      var i := 0;
      assert ops[0..] == ops;
      AfterNoMoves(Apply(files, ops));
      while i < |ops|
        invariant 0 <= i <= |ops|
        invariant Apply(old(files), ops) == AfterMoves(moved, Apply(files, ops[i..]))
      {
        var op := ops[i];
        assert ops[i..][1..] == ops[i + 1..];
        i := i + 1;
        if op.source !in files {
          continue;
        }
        ghost var before := files;
        if op.destination in files {
          files := files - {op.destination};
        }
        if op.source !in files {
          return Err(SourceVanished(op.source));
        }
        files := files[op.destination := files[op.source]];
        files := files - {op.source};
        assert files == Moved(before, op);
        AfterMovesStep(moved, op, Apply(files, ops[i..]));
        moved := moved + [op];
      }
      assert moved + [] == moved;
      return Ok(moved);
    }
  }

  /** The outcome of a transaction that had already executed these moves. */
  function AfterMoves(moved: seq<MoveOp>, rest: Applied): Applied {
    match rest.recorded
    case Ok(recorded) => rest.(recorded := Ok(moved + recorded))
    case Err(_) => rest
  }

  lemma AfterNoMoves(rest: Applied)
    ensures AfterMoves([], rest) == rest
  {
    if rest.recorded.Ok? { assert [] + rest.recorded.value == rest.recorded.value; }
  }

  lemma AfterMovesStep(moved: seq<MoveOp>, op: MoveOp, rest: Applied)
    ensures AfterMoves(moved, AfterMoves([op], rest)) == AfterMoves(moved + [op], rest)
  {
    if rest.recorded.Ok? {
      assert moved + ([op] + rest.recorded.value) == moved + [op] + rest.recorded.value;
    }
  }

  // ---- What a transaction does to each path ----

  /** One operation whose source exists puts its contents under the destination, whatever was there, and touches no
      other path; without a source it does nothing; onto itself it loses the file and fails. */
  lemma StepMeaning(files: Files, op: MoveOp)
    ensures op.source !in files ==> Apply(files, [op]) == Applied(files, Ok([]))
    ensures op.source in files && op.source == op.destination ==>
              Apply(files, [op]) == Applied(files - {op.source}, Err(SourceVanished(op.source)))
    ensures op.source in files && op.source != op.destination ==>
              var Applied(after, recorded) := Apply(files, [op]);
              && recorded == Ok([op])
              && op.source !in after && op.destination in after && after[op.destination] == files[op.source]
              && forall path :: path != op.source && path != op.destination ==>
                   (path in after <==> path in files) && (path in files ==> after[path] == files[path])
  {
    assert [op][1..] == [];
    if op.source in files && op.source != op.destination {
      assert Apply(Moved(files, op), []) == Applied(Moved(files, op), Ok([]));
      assert [op] + [] == [op];
    }
  }

  /** Operations run one after the other; a failure ends the transaction there. */
  lemma {:induction false} ApplyConcat(files: Files, a: seq<MoveOp>, b: seq<MoveOp>)
    ensures var first := Apply(files, a);
            match first.recorded
            case Err(_) => Apply(files, a + b) == first
            case Ok(done) =>
              var second := Apply(first.files, b);
              && Apply(files, a + b).files == second.files
              && match second.recorded
                 case Ok(more) => Apply(files, a + b).recorded == Ok(done + more)
                 case Err(e) => Apply(files, a + b).recorded == Err(e)
    decreases |a|
  {
    if a == [] {
      assert a + b == b;
      if Apply(files, b).recorded.Ok? { assert [] + Apply(files, b).recorded.value == Apply(files, b).recorded.value; }
    } else {
      assert (a + b)[1..] == a[1..] + b;
      if a[0].source !in files {
        ApplyConcat(files, a[1..], b);
      } else if a[0].source != a[0].destination {
        ConcatAfterMove(files, a, b);
      }
    }
  }

  lemma ConcatAfterMove(files: Files, a: seq<MoveOp>, b: seq<MoveOp>)
    requires a != [] && a[0].source in files && a[0].source != a[0].destination
    ensures var first := Apply(files, a);
            match first.recorded
            case Err(_) => Apply(files, a + b) == first
            case Ok(done) =>
              var second := Apply(first.files, b);
              && Apply(files, a + b).files == second.files
              && match second.recorded
                 case Ok(more) => Apply(files, a + b).recorded == Ok(done + more)
                 case Err(e) => Apply(files, a + b).recorded == Err(e)
    decreases |a|, 0
  {
    var next := Moved(files, a[0]);
    assert (a + b)[1..] == a[1..] + b;
    ApplyConcat(next, a[1..], b);
    var rest := Apply(next, a[1..]);
    if rest.recorded.Ok? {
      var second := Apply(rest.files, b);
      if second.recorded.Ok? {
        assert [a[0]] + (rest.recorded.value + second.recorded.value) ==
               [a[0]] + rest.recorded.value + second.recorded.value;
      }
    }
  }

  lemma {:induction false} UntouchedPath(files: Files, ops: seq<MoveOp>, path: string)
    requires forall k :: 0 <= k < |ops| ==> ops[k].source != path && ops[k].destination != path
    ensures var after := Apply(files, ops).files;
            (path in after <==> path in files) && (path in files ==> after[path] == files[path])
    decreases |ops|
  {
    if ops != [] {
      var rest := ops[1..];
      assert forall k :: 0 <= k < |rest| ==> rest[k] == ops[k + 1];
      assert ops[0].source != path && ops[0].destination != path;
      if ops[0].source !in files {
        UntouchedPath(files, rest, path);
      } else if ops[0].source != ops[0].destination {
        UntouchedPath(Moved(files, ops[0]), rest, path);
      }
    }
  }

  /** The k-th operation is the first that finds this source, and the source exists. */
  predicate Takes(files: Files, ops: seq<MoveOp>, k: nat)
    requires k < |ops|
  {
    ops[k].source in files && forall j :: 0 <= j < k ==> ops[j].source != ops[k].source
  }

  /** The destinations are new and distinct, and none of them is a source. */
  predicate FreshPlan(files: Files, ops: seq<MoveOp>) {
    && (forall k :: 0 <= k < |ops| ==> ops[k].destination !in files)
    && (forall j, k :: 0 <= j < k < |ops| ==> ops[j].destination != ops[k].destination)
    && (forall j, k :: 0 <= j < |ops| && 0 <= k < |ops| ==> ops[j].source != ops[k].destination)
  }

  lemma FreshRest(files: Files, ops: seq<MoveOp>)
    requires ops != [] && FreshPlan(files, ops)
    ensures FreshPlan(files, ops[1..])
    ensures ops[0].source in files ==> ops[0].source != ops[0].destination && FreshPlan(Moved(files, ops[0]), ops[1..])
  {
    var rest := ops[1..];
    assert forall k :: 0 <= k < |rest| ==> rest[k] == ops[k + 1];
  }

  /** In such a plan, a file is where its first operation puts it, with its contents; the other destinations stay free
      and no source is left. */
  lemma {:induction false} PlanPlaces(files: Files, ops: seq<MoveOp>, k: nat)
    requires k < |ops| && FreshPlan(files, ops)
    ensures var Applied(after, recorded) := Apply(files, ops);
            && recorded.Ok? && ops[k].source !in after
            && (ops[k].destination in after <==> Takes(files, ops, k))
            && (Takes(files, ops, k) ==> after[ops[k].destination] == files[ops[k].source])
    decreases |ops|
  {
    var rest, op := ops[1..], ops[k];
    FreshRest(files, ops);
    assert forall j :: 0 <= j < |rest| ==> rest[j] == ops[j + 1];
    var next := if ops[0].source in files then Moved(files, ops[0]) else files;
    if k > 0 {
      PlanPlaces(next, rest, k - 1);
      assert Takes(files, ops, k) <==> Takes(next, rest, k - 1);
    } else {
      FreshPlanSucceeds(next, rest);
      UntouchedPath(next, rest, op.destination);
      SourceStaysGone(next, rest, op.source);
    }
  }

  lemma {:induction false} FreshPlanSucceeds(files: Files, ops: seq<MoveOp>)
    requires FreshPlan(files, ops)
    ensures Apply(files, ops).recorded.Ok?
    decreases |ops|
  {
    if ops != [] {
      FreshRest(files, ops);
      FreshPlanSucceeds(if ops[0].source in files then Moved(files, ops[0]) else files, ops[1..]);
    }
  }

  lemma {:induction false} SourceStaysGone(files: Files, ops: seq<MoveOp>, path: string)
    requires path !in files && forall k :: 0 <= k < |ops| ==> ops[k].destination != path
    ensures path !in Apply(files, ops).files
    decreases |ops|
  {
    if ops != [] {
      var rest := ops[1..];
      assert forall k :: 0 <= k < |rest| ==> rest[k] == ops[k + 1];
      assert ops[0].destination != path;
      if ops[0].source !in files {
        SourceStaysGone(files, rest, path);
      } else if ops[0].source != ops[0].destination {
        SourceStaysGone(Moved(files, ops[0]), rest, path);
      }
    }
  }

  // ---- Rolling back ----

  function Inverse(op: MoveOp): MoveOp { MoveOp(op.destination, op.source) }

  /** The recorded strategy: move each destination back to its source, last operation first. */
  function Rollback(files: Files, recorded: seq<MoveOp>): Files
    decreases |recorded|
  {
    if recorded == [] then files
    else
      var last := Inverse(recorded[|recorded| - 1]);
      Rollback(if last.source in files then Moved(files, last) else files, recorded[..|recorded| - 1])
  }

  /** No executed operation finds its destination taken. */
  predicate NoOverwrite(files: Files, ops: seq<MoveOp>)
    decreases |ops|
  {
    ops == [] ||
    (if ops[0].source !in files then NoOverwrite(files, ops[1..])
     else ops[0].destination !in files && NoOverwrite(Moved(files, ops[0]), ops[1..]))
  }

  lemma {:induction false} RollbackFirst(files: Files, op: MoveOp, recorded: seq<MoveOp>)
    ensures Rollback(files, [op] + recorded) == Rollback(Rollback(files, recorded), [op])
    decreases |recorded|
  {
    var all := [op] + recorded;
    if recorded == [] {
      assert all == [op];
    } else {
      var n := |recorded| - 1;
      assert all[..|all| - 1] == [op] + recorded[..n];
      var last := Inverse(recorded[n]);
      RollbackFirst(if last.source in files then Moved(files, last) else files, op, recorded[..n]);
    }
  }

  lemma MoveBack(files: Files, op: MoveOp)
    requires op.source in files && op.destination !in files
    ensures Rollback(Moved(files, op), [op]) == files
    ensures |Moved(files, op)| == |files| && Moved(files, op).Values == files.Values
  {
    var moved := Moved(files, op);
    assert [op][..0] == [] && Moved(moved, Inverse(op)) == files;
    assert moved.Keys == files.Keys - {op.source} + {op.destination};
    forall v | v in files.Values
      ensures v in moved.Values
    {
      var path :| path in files && files[path] == v;
      assert moved[if path == op.source then op.destination else path] == v;
    }
  }

  lemma {:induction false} RollbackRestores(files: Files, ops: seq<MoveOp>)
    requires NoOverwrite(files, ops)
    ensures var Applied(after, recorded) := Apply(files, ops);
            && recorded.Ok? && Rollback(after, recorded.value) == files
            && |after| == |files| && after.Values == files.Values
    decreases |ops|
  {
    if ops != [] {
      if ops[0].source !in files {
        RollbackRestores(files, ops[1..]);
      } else {
        var next := Moved(files, ops[0]);
        RollbackRestores(next, ops[1..]);
        MoveBack(files, ops[0]);
        var rest := Apply(next, ops[1..]);
        RollbackFirst(rest.files, ops[0], rest.recorded.value);
      }
    }
  }

  lemma MovedSize(files: Files, op: MoveOp)
    requires op.source in files && op.source != op.destination
    ensures |Moved(files, op)| == |files| - if op.destination in files then 1 else 0
  {
    assert Moved(files, op).Keys == files.Keys - {op.source} + {op.destination};
    assert |files.Keys| == |files|;
  }

  lemma {:induction false} RollbackNeverGrows(files: Files, recorded: seq<MoveOp>)
    ensures |Rollback(files, recorded)| <= |files|
    decreases |recorded|
  {
    if recorded != [] {
      var last := Inverse(recorded[|recorded| - 1]);
      if last.source in files {
        if last.source == last.destination {
          assert Moved(files, last) == files;
        } else {
          MovedSize(files, last);
        }
        RollbackNeverGrows(Moved(files, last), recorded[..|recorded| - 1]);
      } else {
        RollbackNeverGrows(files, recorded[..|recorded| - 1]);
      }
    }
  }

  /** A transaction never adds a file, and one that succeeds but overwrites loses at least one. */
  lemma {:induction false} ApplyLosesIfOverwrite(files: Files, ops: seq<MoveOp>)
    ensures |Apply(files, ops).files| <= |files|
    ensures !NoOverwrite(files, ops) && Apply(files, ops).recorded.Ok? ==> |Apply(files, ops).files| < |files|
    decreases |ops|
  {
    if ops != [] {
      if ops[0].source !in files {
        ApplyLosesIfOverwrite(files, ops[1..]);
      } else if ops[0].source == ops[0].destination {
        assert (files - {ops[0].source}).Keys == files.Keys - {ops[0].source};
        assert |files.Keys| == |files|;
      } else {
        MovedSize(files, ops[0]);
        ApplyLosesIfOverwrite(Moved(files, ops[0]), ops[1..]);
      }
    }
  }

  /** A transaction succeeds and its recorded plan, replayed in reverse, restores every file exactly when no executed
      operation finds its destination taken. Chained moves and missing sources are no obstacle. */
  lemma RollbackIff(files: Files, ops: seq<MoveOp>)
    ensures var Applied(after, recorded) := Apply(files, ops);
            (recorded.Ok? && Rollback(after, recorded.value) == files) <==> NoOverwrite(files, ops)
  {
    var Applied(after, recorded) := Apply(files, ops);
    if NoOverwrite(files, ops) {
      RollbackRestores(files, ops);
    } else if recorded.Ok? {
      ApplyLosesIfOverwrite(files, ops);
      RollbackNeverGrows(after, recorded.value);
    }
  }

  // ---- An organize plan is reversible ----

  lemma {:induction false} DistinctNewDestinations(files: Files, ops: seq<MoveOp>)
    requires forall i :: 0 <= i < |ops| ==> ops[i].destination !in files
    requires forall i, j :: 0 <= i < j < |ops| ==> ops[i].destination != ops[j].destination
    ensures NoOverwrite(files, ops)
    decreases |ops|
  {
    if ops != [] {
      var rest := ops[1..];
      assert forall i :: 0 <= i < |rest| ==> rest[i] == ops[i + 1];
      if ops[0].source in files {
        assert Moved(files, ops[0]).Keys <= files.Keys + {ops[0].destination};
        DistinctNewDestinations(Moved(files, ops[0]), rest);
      } else {
        DistinctNewDestinations(files, rest);
      }
    }
  }

  /** The plan for up to 9,999 files whose destinations do not exist yet can be applied and rolled back exactly. */
  lemma OrganizeIsReversible(files: Files, sources: seq<SourceFile>, root: string)
    requires |sources| < INDEX_LIMIT
    requires forall op :: op in Plan(sources, root) ==> op.destination !in files
    ensures var Applied(after, recorded) := Apply(files, Plan(sources, root));
            recorded.Ok? && Rollback(after, recorded.value) == files && |after| == |files| &&
                after.Values == files.Values
  {
    var plan := Plan(sources, root);
    PlanIsDistinct(Bases(sources, root));
    forall i | 0 <= i < |plan|
      ensures plan[i].destination !in files
    {
      assert plan[i] in plan;
    }
    DistinctNewDestinations(files, plan);
    RollbackRestores(files, plan);
  }

  /** Where each file of an organize plan ends up: under its own destination, with its contents. */
  lemma OrganizePlaces(files: Files, sources: seq<SourceFile>, root: string, k: nat)
    requires k < |sources| < INDEX_LIMIT
    requires forall op :: op in Plan(sources, root) ==> op.destination !in files
    requires forall j :: 0 <= j < |sources| ==> sources[j].path in files
    requires forall i, j :: 0 <= i < j < |sources| ==> sources[i].path != sources[j].path
    ensures var after, destination := Apply(files, Plan(sources, root)).files, Plan(sources, root)[k].destination;
            && destination in after && after[destination] == files[sources[k].path]
            && sources[k].path !in after
  {
    var plan := Plan(sources, root);
    PlanIsDistinct(Bases(sources, root));
    forall i | 0 <= i < |plan|
      ensures plan[i].destination !in files && plan[i].source in files && plan[i].source == sources[i].path
    {
      assert plan[i] in plan;
    }
    assert Takes(files, plan, k);
    PlanPlaces(files, plan, k);
  }

  /** Every other path keeps its contents, or stays free. */
  lemma OrganizeKeepsOthers(files: Files, sources: seq<SourceFile>, root: string, path: string)
    requires forall op :: op in Plan(sources, root) ==> op.source != path && op.destination != path
    ensures var after := Apply(files, Plan(sources, root)).files;
            (path in after <==> path in files) && (path in files ==> after[path] == files[path])
  {
    var plan := Plan(sources, root);
    forall k | 0 <= k < |plan|
      ensures plan[k].source != path && plan[k].destination != path
    {
      assert plan[k] in plan;
    }
    UntouchedPath(files, plan, path);
  }
}
