/**
 The schedule of row copy. Together with the application's transactions and the replay of events, gh-ost
 reads the least and the greatest key, then alternates between asking for the end of the next chunk and
 copying that chunk, until no key is left in range. When it stops, every key is covered.
 */
module RowCopy {
  import opened Wrappers
  import opened KeyOrder
  import opened TableEvents
  import opened ChunkIteration
  import C = Convergence

  /** `cursor` ends the last copied chunk; `pending` is the end of a chunk that was chosen but not yet copied. */
  datatype State<R, G> = State(
    tables: C.State<R, G>,
    rangeMin: Option<Key>,
    rangeMax: Option<Key>,
    cursor: Option<Key>,
    pending: Option<Key>,
    finished: bool)

  datatype Step<R> =
    | Elsewhere(step: C.Step<R>)        // the application, or the replay of an event
    | ReadMin
    | ReadMax
    | ChooseChunk(end: Key)
    | NoFurtherRange
    | CopyChunk

  function Start<R, G>(s: State<R, G>): Key
    requires s.rangeMin.Some?
  {
    if s.cursor.Some? then s.cursor.value else s.rangeMin.value
  }

  ghost predicate InRest<R, G>(s: State<R, G>, key: Key)
    requires s.rangeMin.Some? && s.rangeMax.Some?
  {
    InInterval(key, Start(s), s.cursor.None?, s.rangeMax.value)
  }

  ghost predicate Least<R>(t: map<Key, R>, key: Key) {
    key in t && forall k :: k in t ==> AtMost(key, k)
  }

  ghost predicate Greatest<R>(t: map<Key, R>, key: Key) {
    key in t && forall k :: k in t ==> AtMost(k, key)
  }

  /** What a step does to the tables: a plain query that finds no row somewhere, a chunk copy, or nothing. */
  ghost function TablesStep<R, G>(s: State<R, G>, step: Step<R>, t: State<R, G>): Option<C.Step<R>> {
    match step
    case Elsewhere(e) => Some(e)
    case ReadMin =>
      Some(C.Observe(if t.rangeMin.None? then AllKeys() else iset key: Key | Less(key, t.rangeMin.value)))
    case ReadMax =>
      Some(C.Observe(if t.rangeMax.None? then iset{} else iset key: Key | Less(t.rangeMax.value, key)))
    case ChooseChunk(_) => None
    case NoFurtherRange =>
      Some(C.Observe(if s.rangeMin.None? || s.rangeMax.None? then iset{} else iset key: Key | InRest(s, key)))
    case CopyChunk =>
      Some(C.Copy(if s.rangeMin.None? || s.pending.None? then iset{}
                  else iset key: Key | InInterval(key, Start(s), s.cursor.None?, s.pending.value)))
  }

  ghost predicate Next<R(!new), G(!new)>(s: State<R, G>, step: Step<R>, t: State<R, G>, p: R -> G) {
    && (var tables := TablesStep(s, step, t);
        if tables.Some? then C.Enabled(s.tables, tables.value, true) && t.tables == C.Do(s.tables, tables.value, p)
        else t.tables == s.tables)
    && ScheduleNext(s, step, t)
  }

  /** The schedule of one step, whatever it does to the tables. */
  ghost predicate ScheduleNext<R, G>(s: State<R, G>, step: Step<R>, t: State<R, G>) {
    match step
    case Elsewhere(e) =>
      (e.Log? || e.Show? || e.ReplayNext? || e.RollBack?) && t == s.(tables := t.tables)
    case ReadMin =>
      s.rangeMin.None? && !s.finished &&
      if s.tables.visible == map[] then
        // An empty table: there is nothing to copy.
        t == s.(finished := true, tables := t.tables)
      else
        t.rangeMin.Some? && Least(s.tables.visible, t.rangeMin.value) &&
        t == s.(rangeMin := t.rangeMin, tables := t.tables)
    case ReadMax =>
      s.rangeMin.Some? && s.rangeMax.None? &&
      t.rangeMax.Some? && Greatest(s.tables.visible, t.rangeMax.value) &&
      t == s.(rangeMax := t.rangeMax, tables := t.tables)
    case ChooseChunk(end) =>
      s.rangeMin.Some? && s.rangeMax.Some? && s.pending.None? && !s.finished &&
      InRest(s, end) && t == s.(pending := Some(end), tables := t.tables)
    case NoFurtherRange =>
      s.rangeMin.Some? && s.rangeMax.Some? && s.pending.None? && !s.finished &&
      t == s.(finished := true, tables := t.tables)
    case CopyChunk =>
      s.rangeMin.Some? && s.rangeMax.Some? && s.pending.Some? &&
      t == s.(cursor := s.pending, pending := None, tables := t.tables)
  }

  /** The exact condition for a step to keep the tables right. */
  ghost predicate Safe<R(!new), G(!new)>(s: State<R, G>, step: Step<R>, t: State<R, G>)
    requires step == Elsewhere(C.ReplayNext) ==> s.tables.backlog != []
  {
    var tables := TablesStep(s, step, t);
    tables.Some? ==> C.Safe(s.tables, tables.value)
  }

  ghost predicate Init<R(!new), G(!new)>(s: State<R, G>) {
    C.Init(s.tables) && s.rangeMin == s.rangeMax == s.cursor == s.pending == None && !s.finished
  }

  ghost predicate NextSafe<R(!new), G(!new)>(s: State<R, G>, t: State<R, G>, p: R -> G) {
    exists step: Step<R> :: Next(s, step, t, p) && Safe(s, step, t)
  }

  ghost predicate IsSafeRun<R(!new), G(!new)>(run: seq<State<R, G>>, p: R -> G) {
    run != [] && Init(run[0]) && forall i :: 0 <= i < |run| - 1 ==> NextSafe(run[i], run[i + 1], p)
  }

  /** The answers of the applier's queries justify the two outcomes of choosing a chunk. */
  lemma {:induction false} QueryAnswers(keys: seq<Key>, lo: Key, includeLo: bool, hi: Key)
    requires Window(keys, lo, includeLo, hi) == []
    ensures forall key :: key in keys ==> !InInterval(key, lo, includeLo, hi)
  {
    forall key | key in keys
      ensures !InInterval(key, lo, includeLo, hi)
    {
      WindowMembers(keys, lo, includeLo, hi, key);
    }
  }

  // ---- Which keys are covered ----

  /** Keys that the schedule has dealt with so far. */
  ghost predicate Passed<R, G>(s: State<R, G>, key: Key) {
    || s.finished
    || (s.rangeMin.Some? && Less(key, s.rangeMin.value))
    || (s.rangeMax.Some? && Less(s.rangeMax.value, key))
    || (s.rangeMin.Some? && s.cursor.Some? && InInterval(key, s.rangeMin.value, true, s.cursor.value))
  }

  ghost predicate ScheduleInv<R, G>(s: State<R, G>) {
    && (forall key :: Passed(s, key) ==> key in s.tables.covered)
    && (s.rangeMax.Some? || s.cursor.Some? ==> s.rangeMin.Some?)
    && (s.pending.Some? ==> s.rangeMin.Some? && s.rangeMax.Some? && InRest(s, s.pending.value))
    && (s.cursor.Some? ==> s.rangeMax.Some? && InInterval(s.cursor.value, s.rangeMin.value, true, s.rangeMax.value))
  }

  /** A new interval starts where the last one ended: old and new together reach from the minimum to its end. */
  lemma Adjacent<R, G>(s: State<R, G>, end: Key, key: Key)
    requires s.rangeMin.Some? && s.rangeMax.Some?
    requires InInterval(key, s.rangeMin.value, true, end)
    ensures InInterval(key, Start(s), s.cursor.None?, end) ||
            (s.cursor.Some? && InInterval(key, s.rangeMin.value, true, s.cursor.value))
  {
    if s.cursor.Some? {
      AtMostIsNotGreater(key, s.cursor.value);
    }
  }

  /** Chunks do not overlap: no key of the new chunk lies in an earlier one, and the cursor moves up. */
  lemma {:induction false} Disjoint<R, G>(s: State<R, G>, end: Key, key: Key)
    requires ScheduleInv(s) && s.rangeMin.Some? && s.rangeMax.Some? && InRest(s, end)
    ensures s.cursor.Some? ==> Less(s.cursor.value, end)
    ensures s.cursor.Some? && InInterval(key, Start(s), s.cursor.None?, end) ==>
              !InInterval(key, s.rangeMin.value, true, s.cursor.value)
  {
    if s.cursor.Some? {
      AtMostIsNotGreater(key, s.cursor.value);
    }
  }

  lemma CopyChunkSchedule<R(!new), G(!new)>(s: State<R, G>, t: State<R, G>, p: R -> G)
    requires ScheduleInv(s) && Next(s, CopyChunk, t, p)
    ensures ScheduleInv(t)
  {
    var end := s.pending.value;
    if s.cursor.Some? {
      AtMostTransitive(s.rangeMin.value, s.cursor.value, end);
    }
    forall key | Passed(t, key)
      ensures key in t.tables.covered
    {
      if !Passed(s, key) {
        Adjacent(s, end, key);
      }
    }
  }

  lemma NoFurtherRangeSchedule<R(!new), G(!new)>(s: State<R, G>, t: State<R, G>, p: R -> G)
    requires ScheduleInv(s) && Next(s, NoFurtherRange, t, p)
    ensures ScheduleInv(t)
  {
    forall key
      ensures key in t.tables.covered
    {
      AtMostIsNotGreater(s.rangeMin.value, key);
      AtMostIsNotGreater(key, s.rangeMax.value);
      if !Passed(s, key) {
        Adjacent(s, s.rangeMax.value, key);
      }
    }
  }

  lemma ScheduleStep<R(!new), G(!new)>(s: State<R, G>, step: Step<R>, t: State<R, G>, p: R -> G)
    requires ScheduleInv(s) && Next(s, step, t, p)
    ensures ScheduleInv(t)
  {
    match step
    case CopyChunk => CopyChunkSchedule(s, t, p);
    case NoFurtherRange => NoFurtherRangeSchedule(s, t, p);
    case Elsewhere(e) =>
      forall key | Passed(t, key) ensures key in t.tables.covered {
        assert Passed(s, key);
      }
    case ReadMin =>
      forall key | Passed(t, key) ensures key in t.tables.covered {
      }
    case ReadMax =>
      forall key | Passed(t, key) ensures key in t.tables.covered {
        if !Less(t.rangeMax.value, key) {
          assert Passed(s, key);
        }
      }
    case ChooseChunk(end) =>
      forall key | Passed(t, key) ensures key in t.tables.covered {
        assert Passed(s, key);
      }
  }

  /** A step of the schedule keeps the tables right if and only if it is safe. */
  lemma TablesExact<R(!new), G(!new)>(s: State<R, G>, step: Step<R>, t: State<R, G>, p: R -> G)
    requires C.Inv(s.tables, p) && Next(s, step, t, p)
    ensures C.Inv(t.tables, p) <==> Safe(s, step, t)
  {
    var tables := TablesStep(s, step, t);
    if tables.Some? {
      C.StepExact(s.tables, tables.value, p);
    }
  }

  /** The plain queries of the schedule are enabled: what they report absent is not visible. */
  lemma QueriesFindNothing<R(!new), G(!new)>(s: State<R, G>, step: Step<R>, t: State<R, G>)
    requires ScheduleNext(s, step, t) && (step.ReadMin? || step.ReadMax?)
    ensures C.Enabled(s.tables, TablesStep(s, step, t).value, true)
  {
    if step.ReadMax? {
      NothingAbove(s.tables.visible, t.rangeMax.value);
    } else if t.rangeMin.Some? {
      NothingBelow(s.tables.visible, t.rangeMin.value);
    }
  }

  lemma {:induction false} NothingBelow<R>(t: map<Key, R>, least: Key)
    requires Least(t, least)
    ensures forall key :: Less(key, least) ==> key !in t
  {
    forall key | Less(key, least) ensures key !in t {
      AtMostIsNotGreater(least, key);
    }
  }

  lemma {:induction false} NothingAbove<R>(t: map<Key, R>, greatest: Key)
    requires Greatest(t, greatest)
    ensures forall key :: Less(greatest, key) ==> key !in t
  {
    forall key | Less(greatest, key) ensures key !in t {
      AtMostIsNotGreater(key, greatest);
    }
  }

  lemma EarlierRun<R(!new), G(!new)>(run: seq<State<R, G>>, p: R -> G)
    requires IsSafeRun(run, p) && |run| > 1
    ensures IsSafeRun(run[..|run| - 1], p) && NextSafe(run[|run| - 2], run[|run| - 1], p)
  {
    var earlier := run[..|run| - 1];
    forall i | 0 <= i < |earlier| - 1 ensures NextSafe(earlier[i], earlier[i + 1], p) {
      assert NextSafe(run[i], run[i + 1], p);
    }
    assert NextSafe(run[|run| - 2], run[|run| - 2 + 1], p);
  }

  lemma {:induction false} RunInv<R(!new), G(!new)>(run: seq<State<R, G>>, p: R -> G)
    requires IsSafeRun(run, p)
    ensures ScheduleInv(run[|run| - 1]) && C.Inv(run[|run| - 1].tables, p)
  {
    var n := |run| - 1;
    if n == 0 {
      C.InitInv(run[0].tables, p);
    } else {
      EarlierRun(run, p);
      RunInv(run[..n], p);
      var step: Step<R> :| Next(run[n - 1], step, run[n], p) && Safe(run[n - 1], step, run[n]);
      ScheduleStep(run[n - 1], step, run[n], p);
      TablesExact(run[n - 1], step, run[n], p);
    }
  }

  /**
   In every run of row copy, interleaved in any way with the application and the replay of events, in which every
   step is safe: once no further range is reported, nothing is pending and no transaction is hidden, the ghost
   table is the projected original.
   */
  lemma MigrationConverges<R(!new), G(!new)>(run: seq<State<R, G>>, p: R -> G)
    requires IsSafeRun(run, p)
    requires var s := run[|run| - 1]; s.finished && s.tables.backlog == [] && s.tables.prepared == []
    ensures var s := run[|run| - 1]; s.tables.ghostTable == Project(s.tables.visible, p)
  {
    var s := run[|run| - 1];
    RunInv(run, p);
    forall key ensures key in s.tables.covered {
      assert Passed(s, key);
    }
    C.ConvergenceAtTheEnd(s.tables, p);
  }
}
