/**
 The names of the tables, and the statements that rebind them: the atomic RENAME of the cut-over, the two-step
 swap, and the rollback of either. A binding maps names to tables, whatever those are.
 */
module TableNames {
  import opened Wrappers

  type Name = string
  type Bindings<T> = map<Name, T>

  /**
   What befalls a statement beside the server's verdict: nothing, or it never reaches the server, or it is
   executed but its answer is lost.
   */
  datatype Fault = NoFault | NotExecuted | AnswerLost

  /** RENAME TABLE with several pairs, applied from left to right: all of them or none. */
  function Rename<T>(b: Bindings<T>, pairs: seq<(Name, Name)>): Option<Bindings<T>>
    decreases |pairs|
  {
    if pairs == [] then Some(b)
    else if pairs[0].0 !in b || pairs[0].1 in b then None
    else Rename((b - {pairs[0].0})[pairs[0].1 := b[pairs[0].0]], pairs[1..])
  }

  /** What one statement leaves behind, and whether its caller sees success. */
  function Executed<T>(b: Bindings<T>, pairs: seq<(Name, Name)>, fault: Fault): (r: (Bindings<T>, bool)) {
    if fault == NotExecuted then (b, false)
    else match Rename(b, pairs) case Some(c) => (c, fault == NoFault) case None => (b, false)
  }

  /** The three names of a migration. */
  datatype Names = Names(original: Name, ghost_: Name, old_: Name) {
    predicate Distinct() {
      original != ghost_ && original != old_ && ghost_ != old_
    }

    /** Before the cut-over. A left-over table, such as the sentry, may be bound to the old name. */
    predicate BeforeCutOver<T>(b: Bindings<T>) {
      Distinct() && original in b && ghost_ in b
    }

    /** After the first step of the two-step swap. */
    function Halfway<T>(b: Bindings<T>): Bindings<T>
      requires BeforeCutOver(b)
    {
      (b - {original})[old_ := b[original]]
    }

    function Swapped<T>(b: Bindings<T>): Bindings<T>
      requires BeforeCutOver(b)
    {
      (b - {ghost_})[old_ := b[original]][original := b[ghost_]]
    }
  }

  /** Where a cut-over can leave the names. */
  datatype Progress = NotHappened | StoppedHalfway | FullyHappened

  function At<T>(names: Names, b: Bindings<T>, progress: Progress): Bindings<T>
    requires names.BeforeCutOver(b)
  {
    match progress
    case NotHappened => b
    case StoppedHalfway => names.Halfway(b)
    case FullyHappened => names.Swapped(b)
  }

  /** The swap of the atomic cut-over: it happens exactly if the old name is free. */
  lemma {:induction false} AtomicSwap<T>(names: Names, b: Bindings<T>)
    requires names.BeforeCutOver(b)
    ensures Rename(b, [(names.original, names.old_), (names.ghost_, names.original)])
            == if names.old_ in b then None else Some(names.Swapped(b))
  {
    var pairs := [(names.original, names.old_), (names.ghost_, names.original)];
    assert pairs[1..] == [(names.ghost_, names.original)];
    if names.old_ !in b {
      var c := names.Halfway(b);
      OneRename(c, names.ghost_, names.original);
      assert (c - {names.ghost_})[names.original := c[names.ghost_]] == names.Swapped(b);
    }
  }

  /** The effect of the rename statements one at a time, in each of the three positions. */
  lemma {:induction false} OneRename<T>(b: Bindings<T>, source: Name, target: Name)
    ensures Rename(b, [(source, target)])
            == if source in b && target !in b then Some((b - {source})[target := b[source]]) else None
  {
    assert [(source, target)][1..] == [];
  }

  lemma RollbackStatements<T>(names: Names, b: Bindings<T>, progress: Progress)
    requires names.BeforeCutOver(b) && (progress == NotHappened || names.old_ !in b)
    ensures
      var c := At(names, b, progress);
      && Rename(c, [(names.original, names.ghost_), (names.old_, names.original)])
         == (if progress == FullyHappened then Some(b) else None)
      && Rename(c, [(names.original, names.ghost_)])
         == (if progress == FullyHappened then Some(names.Halfway(b)) else None)
      && Rename(c, [(names.old_, names.original)]) == (if progress == StoppedHalfway then Some(b) else None)
  {
    var c := At(names, b, progress);
    OneRename(c, names.original, names.ghost_);
    OneRename(c, names.old_, names.original);
    var pairs := [(names.original, names.ghost_), (names.old_, names.original)];
    assert pairs[1..] == [(names.old_, names.original)];
    if progress == FullyHappened {
      var d := names.Halfway(b);
      assert (c - {names.original})[names.ghost_ := c[names.original]] == d;
      OneRename(d, names.old_, names.original);
      assert (d - {names.old_})[names.original := d[names.old_]] == b;
    } else if progress == StoppedHalfway {
      assert (c - {names.old_})[names.original := c[names.old_]] == b;
    }
  }

  lemma TwoStepStatements<T>(names: Names, b: Bindings<T>, progress: Progress)
    requires names.BeforeCutOver(b) && (progress == NotHappened || names.old_ !in b)
    ensures
      var c := At(names, b, progress);
      && Rename(c, [(names.original, names.old_)])
         == (if progress == NotHappened && names.old_ !in b then Some(names.Halfway(b)) else None)
      && Rename(c, [(names.ghost_, names.original)]) == (if progress == StoppedHalfway then Some(names.Swapped(b)) else None)
  {
    var c := At(names, b, progress);
    OneRename(c, names.original, names.old_);
    OneRename(c, names.ghost_, names.original);
    if progress == StoppedHalfway {
      assert (c - {names.ghost_})[names.original := c[names.ghost_]] == names.Swapped(b);
    }
  }

  /** With the old name free, the three positions are three different bindings. */
  lemma PositionsDiffer<T>(names: Names, b: Bindings<T>)
    requires names.BeforeCutOver(b)
    ensures names.old_ !in b ==> b != names.Halfway(b) && b != names.Swapped(b)
    ensures names.Halfway(b) != names.Swapped(b)
  {
    assert names.old_ in names.Halfway(b) && names.old_ in names.Swapped(b);
    assert names.original in names.Swapped(b) && names.original !in names.Halfway(b);
  }

  /**
   One attempt at the two-step swap: where it leaves the names, and whether it reports success. `free` says whether
   the old name was free at first.
   */
  function TwoStepOutcome(free: bool, progress: Progress, faults: (Fault, Fault)): (Progress, bool) {
    if !free || progress != NotHappened || faults.0 == NotExecuted then (progress, false)
    else if faults.0 == AnswerLost || faults.1 == NotExecuted then (StoppedHalfway, false)
    else (FullyHappened, faults.1 == NoFault)
  }

  /** Where the rollback leaves the names, given what befalls its three statements. */
  function RollbackOutcome(progress: Progress, faults: (Fault, Fault, Fault)): Progress {
    match progress
    case NotHappened => NotHappened
    case StoppedHalfway => if faults.2 == NotExecuted then StoppedHalfway else NotHappened
    case FullyHappened =>
      if faults.0 != NotExecuted then NotHappened
      else if faults.1 == NotExecuted then FullyHappened
      else if faults.2 == NotExecuted then StoppedHalfway else NotHappened
  }

  class Applier<T> {
    const names: Names
    var bindings: Bindings<T>

    constructor (names: Names, bindings: Bindings<T>)
      ensures this.names == names && this.bindings == bindings
    {
      this.names, this.bindings := names, bindings;
    }

    method ExecNoPrepare(pairs: seq<(Name, Name)>, fault: Fault) returns (ok: bool)
      modifies this`bindings
      ensures (bindings, ok) == Executed(old(bindings), pairs, fault)
    {
      var renamed := Rename(bindings, pairs);
      ok := fault == NoFault && renamed.Some?;
      if fault != NotExecuted && renamed.Some? {
        bindings := renamed.value;
      }
    }

    /** Renames the original to the old name, and then the ghost to the original name. */
    method SwapTablesQuickAndBumpy(faults: (Fault, Fault), ghost b: Bindings<T>, ghost progress: Progress)
      returns (ok: bool)
      requires names.BeforeCutOver(b) && bindings == At(names, b, progress)
      requires progress == NotHappened || names.old_ !in b
      modifies this`bindings
      ensures bindings == At(names, b, TwoStepOutcome(names.old_ !in b, progress, faults).0)
      ensures ok == TwoStepOutcome(names.old_ !in b, progress, faults).1
      // Success means that the tables are swapped, and that both statements were executed and answered.
      ensures ok ==> bindings == names.Swapped(b)
      ensures ok <==> progress == NotHappened && names.old_ !in b && faults == (NoFault, NoFault)
      // The names change exactly if the old name is free and the first statement is executed; they are swapped
      // exactly if it is answered as well, and the second is executed.
      ensures progress == NotHappened && names.old_ !in b ==>
                && (bindings == names.Swapped(b) <==> faults.0 == NoFault && faults.1 != NotExecuted)
                && (bindings == names.Halfway(b)
                    <==> faults.0 == AnswerLost || (faults.0 == NoFault && faults.1 == NotExecuted))
                && (bindings == b <==> faults.0 == NotExecuted)
      ensures progress != NotHappened || names.old_ in b ==> bindings == old(bindings)
    {
      PositionsDiffer(names, b);
      TwoStepStatements(names, b, progress);
      ok := ExecNoPrepare([(names.original, names.old_)], faults.0);
      if !ok {
        return;
      }
      TwoStepStatements(names, b, StoppedHalfway);
      ok := ExecNoPrepare([(names.ghost_, names.original)], faults.1);
    }

    /** Renames both tables back at once, or else one by one. */
    method RenameTablesRollback(faults: (Fault, Fault, Fault), ghost b: Bindings<T>, ghost progress: Progress)
      returns (ok: bool)
      requires names.BeforeCutOver(b) && bindings == At(names, b, progress)
      requires progress == NotHappened || names.old_ !in b
      modifies this`bindings
      ensures bindings == At(names, b, RollbackOutcome(progress, faults))
      ensures ok <==> progress == FullyHappened &&
                      (faults.0 == NoFault || (faults.0 == NotExecuted && faults.1 == faults.2 == NoFault))
    {
      RollbackStatements(names, b, progress);
      var renamed := ExecNoPrepare([(names.original, names.ghost_), (names.old_, names.original)], faults.0);
      if renamed {
        return true;
      }
      ok := true;
      ghost var now := if progress == FullyHappened && faults.0 != NotExecuted then NotHappened else progress;
      assert bindings == At(names, b, now);
      RollbackStatements(names, b, now);
      var first := ExecNoPrepare([(names.original, names.ghost_)], faults.1);
      if !first {
        ok := false;
      }
      now := if now == FullyHappened && faults.1 != NotExecuted then StoppedHalfway else now;
      assert bindings == At(names, b, now);
      RollbackStatements(names, b, now);
      var second := ExecNoPrepare([(names.old_, names.original)], faults.2);
      if !second {
        ok := false;
      }
    }

    /** The retry loop around the two-step swap; `faults` lists what befalls each attempt. */
    method RetrySwap(faults: seq<(Fault, Fault)>, ghost b: Bindings<T>) returns (ok: bool)
      requires faults != []
      requires names.BeforeCutOver(b) && bindings == b
      modifies this`bindings
      ensures bindings == At(names, b, RetryOutcome(names.old_ !in b, faults, |faults|).0)
      ensures ok == RetryOutcome(names.old_ !in b, faults, |faults|).1
      ensures ok ==> bindings == names.Swapped(b)
    {
      ok := false;
      ghost var free := names.old_ !in b;
      var i := 0;
      while i < |faults| && !ok
        invariant i <= |faults|
        invariant bindings == At(names, b, RetryOutcome(free, faults, i).0)
        invariant ok == RetryOutcome(free, faults, i).1
        invariant ok ==> RetryOutcome(free, faults, |faults|) == RetryOutcome(free, faults, i)
        invariant ok ==> bindings == names.Swapped(b)
      {
        TakenNameStays(faults, i);
        ok := SwapTablesQuickAndBumpy(faults[i], b, RetryOutcome(free, faults, i).0);
        i := i + 1;
        RetryStops(free, faults, i, |faults|);
      }
    }
  }

  /** Where the first `n` attempts leave the names, with no attempt after a success. */
  function RetryOutcome(free: bool, faults: seq<(Fault, Fault)>, n: nat): (Progress, bool)
    requires n <= |faults|
  {
    if n == 0 then (NotHappened, false)
    else
      var before := RetryOutcome(free, faults, n - 1);
      if before.1 then before else TwoStepOutcome(free, before.0, faults[n - 1])
  }

  lemma {:induction false} TakenNameStays(faults: seq<(Fault, Fault)>, n: nat)
    requires n <= |faults|
    ensures RetryOutcome(false, faults, n) == (NotHappened, false)
  {
    if n > 0 {
      TakenNameStays(faults, n - 1);
    }
  }

  lemma {:induction false} RetryStops(free: bool, faults: seq<(Fault, Fault)>, m: nat, n: nat)
    requires m <= n <= |faults|
    ensures RetryOutcome(free, faults, m).1 || RetryOutcome(free, faults, m).0 != NotHappened ==>
              RetryOutcome(free, faults, n) == (RetryOutcome(free, faults, m).0, RetryOutcome(free, faults, m).1)
  {
    if m < n {
      RetryStops(free, faults, m, n - 1);
    }
  }

  /**
   Retrying the two-step swap is only good for attempts whose first statement never got executed: it succeeds if
   and only if the old name was free and the first attempt that gets so far goes through in one go.
   */
  lemma {:induction false} RetrySucceedsExactly(free: bool, faults: seq<(Fault, Fault)>, n: nat)
    requires n <= |faults|
    ensures RetryOutcome(free, faults, n).1 <==>
              free && exists k :: 0 <= k < n && faults[k] == (NoFault, NoFault) && forall j :: 0 <= j < k ==> faults[j].0 == NotExecuted
    ensures RetryOutcome(free, faults, n) == (NotHappened, false) <==>
              !free || forall j :: 0 <= j < n ==> faults[j].0 == NotExecuted
  {
    if n > 0 {
      RetrySucceedsExactly(free, faults, n - 1);
    }
  }

  /**
   The rollback restores the binding from before the cut-over, whether the swap did not happen, stopped halfway
   or happened fully, provided its statements reach the server; it fails to exactly in the cases listed.
   */
  lemma RollbackRestoresExactly<T>(names: Names, b: Bindings<T>, progress: Progress, faults: (Fault, Fault, Fault))
    requires names.BeforeCutOver(b) && (progress == NotHappened || names.old_ !in b)
    ensures At(names, b, RollbackOutcome(progress, faults)) == b <==>
              match progress
              case NotHappened => true
              case StoppedHalfway => faults.2 != NotExecuted
              case FullyHappened => faults.0 != NotExecuted || (faults.1 != NotExecuted && faults.2 != NotExecuted)
    // What is not restored is left halfway, or as it was.
    ensures progress == FullyHappened ==>
              && (At(names, b, RollbackOutcome(progress, faults)) == names.Halfway(b)
                  <==> faults.0 == NotExecuted && faults.1 != NotExecuted && faults.2 == NotExecuted)
              && (At(names, b, RollbackOutcome(progress, faults)) == names.Swapped(b)
                  <==> faults.0 == NotExecuted && faults.1 == NotExecuted)
  {
    PositionsDiffer(names, b);
  }

  /**
   In all three positions both tables are still bound, and no other name is touched. Only halfway, the original
   name is not bound.
   */
  lemma NoTableIsLost<T>(names: Names, b: Bindings<T>, progress: Progress)
    requires names.BeforeCutOver(b)
    ensures
      var c := At(names, b, progress);
      && (Some(b[names.original]) == Get(c, names.original) || Some(b[names.original]) == Get(c, names.old_))
      && (Some(b[names.ghost_]) == Get(c, names.ghost_) || Some(b[names.ghost_]) == Get(c, names.original))
      && (names.original in c <==> progress != StoppedHalfway)
      && (progress == StoppedHalfway ==>
            Get(c, names.old_) == Some(b[names.original]) && Get(c, names.ghost_) == Some(b[names.ghost_]))
      && (progress == FullyHappened ==>
            && Get(c, names.old_) == Some(b[names.original]) && Get(c, names.original) == Some(b[names.ghost_])
            && names.ghost_ !in c)
      && forall name :: name != names.original && name != names.ghost_ && name != names.old_ ==> Get(c, name) == Get(b, name)
  {
    assert progress == FullyHappened ==> Get(At(names, b, progress), names.original) == Some(b[names.ghost_]);
  }

  function Get<T>(b: Bindings<T>, name: Name): Option<T> {
    if name in b then Some(b[name]) else None
  }
}
