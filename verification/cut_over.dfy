/**
 The atomic cut-over. Three goroutines take part: main, the lock session and the rename session. The lock
 session creates a sentry table under the old name and locks it together with the original; main drains the
 event backlog; the rename session issues an atomic RENAME, which must block; then the lock session is told to
 drop the sentry and to unlock, and the RENAME goes through ahead of everyone who waits for the original.

 The server is modelled by the bindings of three table names, by the locks of the lock session and by the state
 of the one RENAME. What is assumed of it:
 - a pending RENAME is resolved as soon as the table lock goes, before any waiting DML or DROP;
 - RENAME is all-or-nothing and fails if a target name exists;
 - a dead session releases its locks.
 Either session may die, and any statement, timeout or check may fail, at any step.
 */
module CutOver {
  import opened Wrappers
  import D = Drain

  datatype Table = OriginalTable | GhostTable | SentryTable | OtherTable

  datatype MainPc =
    | AwaitLocked | AwaitLockSession
    | InjectChallenge | AwaitChallenge(id: nat)
    | AwaitRenameSession | AwaitRename
    | CheckLock | Release | AwaitUnlocked | AwaitRenamed
    | SignalExit(success: bool) | DropSentry(success: bool) | Returned(success: bool)

  datatype LockPc =
    | LBegin | LConnection | LGetLock | LSetTimeout | LDropStale | LCreateSentry | LLockTables | LReportLocked
    | LAwaitOk | LDropSentry | LUnlock
    | LDefer1 | LDefer2 | LDefer3 | LDone

  datatype RenamePc =
    | RIdle | RBegin | RConnection | RSetTimeout | RIssue | RAwait
    | RDefer1(renamed: bool) | RDefer2(renamed: bool) | RSetFailed | RSignal | RDone

  datatype Rename = NotIssued | Pending | Committed | Failed

  /** A bounded channel: what waits in it, and how many messages were ever sent. `true` is success. */
  datatype Channel = Channel(waiting: seq<bool>, sent: nat)

  function Send(c: Channel, message: bool): Channel {
    Channel(c.waiting + [message], c.sent + 1)
  }

  function Receive(c: Channel): Channel
    requires c.waiting != []
  {
    Channel(c.waiting[1..], c.sent)
  }

  /**
   `mark` is the number of row events that had been logged when main wrote its challenge; `drained` says that
   the challenge came back. `gaveUpEarly` and `renameBeginFailed` record which branch was taken.
   */
  datatype State<E> = State(
    drain: D.State<E>,
    main: MainPc, locker: LockPc, renamer: RenamePc,
    originalName: Option<Table>, ghostName: Option<Table>, oldName: Option<Table>,
    lockAlive: bool, tablesLocked: bool, userLock: bool, rename: Rename,
    tableLocked: Channel, lockSession: Channel, okToUnlock: Channel, tableUnlocked: Channel,
    renameSession: Channel, tablesRenamed: Channel,
    renameKnownToHaveFailed: bool,
    mark: Option<nat>, drained: bool, gaveUpEarly: bool, renameBeginFailed: bool)

  datatype Action<E> =
    | Main(ok: bool, id: nat, logged: bool)
    | Locker(ok: bool)
    | Renamer(ok: bool)
    | LockSessionDies
    | RenameDies                 // its session is killed, or its lock wait times out
    | ResolveRename
    | AppWrite(event: E)         // application DML on the original name
    | Apply(step: D.Action<E>)   // the streamer, the challenge goroutines and the consumer

  function Logged<E>(s: State<E>): nat {
    |D.Rows(s.drain.log)|
  }

  ghost predicate Init<E>(s: State<E>) {
    && D.Inv(s.drain)
    && s.main == AwaitLocked && s.locker == LBegin && s.renamer == RIdle
    && s.originalName == Some(OriginalTable) && s.ghostName == Some(GhostTable)
    && (s.oldName == None || s.oldName == Some(SentryTable) || s.oldName == Some(OtherTable))
    && !s.lockAlive && !s.tablesLocked && !s.userLock && s.rename == NotIssued
    && s.tableLocked == s.lockSession == s.okToUnlock == s.tableUnlocked == s.renameSession == s.tablesRenamed == Channel([], 0)
    && !s.renameKnownToHaveFailed && s.mark.None? && !s.drained && !s.gaveUpEarly && !s.renameBeginFailed
  }

  // ---- Main ----

  /** The rename session exists, and its RENAME may still be issued. */
  predicate Early(renamer: RenamePc) {
    renamer.RBegin? || renamer.RConnection? || renamer.RSetTimeout? || renamer.RIssue?
  }

  predicate MainEnabled<E(==)>(s: State<E>, ok: bool, id: nat, logged: bool) {
    match s.main
    case AwaitLocked => s.tableLocked.waiting != []
    case AwaitLockSession => s.lockSession.waiting != []
    case InjectChallenge => D.Challenge(id) !in s.drain.log
    case AwaitChallenge(_) => ok ==> D.Enabled(s.drain, D.Deliver)
    case AwaitRenameSession => s.renameSession.waiting != []
    case AwaitRename => ok ==> s.renameKnownToHaveFailed || s.rename == Pending
    case CheckLock => ok ==> s.userLock
    case Release => true
    case AwaitUnlocked => s.tableUnlocked.waiting != []
    case AwaitRenamed => s.tablesRenamed.waiting != []
    case SignalExit(_) => true
    case DropSentry(_) => ok && s.oldName == Some(SentryTable) ==> !s.tablesLocked && s.rename != Pending
    case Returned(_) => false
  }

  function DoMain<E(==)>(s: State<E>, ok: bool, id: nat, logged: bool): State<E>
    requires MainEnabled(s, ok, id, logged)
  {
    match s.main
    case AwaitLocked =>
      s.(tableLocked := Receive(s.tableLocked), main := if s.tableLocked.waiting[0] then AwaitLockSession else SignalExit(false))
    case AwaitLockSession => s.(lockSession := Receive(s.lockSession), main := InjectChallenge)
    case InjectChallenge =>
      // The challenge is written twice under different hints; whether the first write reached the log does not
      // decide whether the second reports an error.
      var drain := if logged then D.Do(s.drain, D.WriteChallenge(id)) else s.drain;
      if ok then s.(drain := drain, mark := Some(Logged(s)), main := AwaitChallenge(id))
      else s.(drain := drain, main := SignalExit(false))
    case AwaitChallenge(own) =>
      if !ok then s.(main := SignalExit(false))
      else
        var drain := D.Do(s.drain, D.Deliver);
        if s.drain.held.value == own then
          s.(drain := drain, drained := true, renamer := RBegin, main := AwaitRenameSession)
        else s.(drain := drain)
    case AwaitRenameSession => s.(renameSession := Receive(s.renameSession), main := AwaitRename)
    case AwaitRename =>
      if ok then s.(main := CheckLock)
      else s.(okToUnlock := Send(s.okToUnlock, true), main := SignalExit(false),
              gaveUpEarly := s.gaveUpEarly || Early(s.renamer))
    case CheckLock => s.(main := if ok then Release else SignalExit(false))
    case Release => s.(okToUnlock := Send(s.okToUnlock, true), main := AwaitUnlocked)
    case AwaitUnlocked =>
      s.(tableUnlocked := Receive(s.tableUnlocked), main := if s.tableUnlocked.waiting[0] then AwaitRenamed else SignalExit(false))
    case AwaitRenamed =>
      s.(tablesRenamed := Receive(s.tablesRenamed), main := SignalExit(s.tablesRenamed.waiting[0]))
    case SignalExit(success) => s.(okToUnlock := Send(s.okToUnlock, true), main := DropSentry(success))
    case DropSentry(success) =>
      // Checking the comment of the table and dropping it are one step here.
      s.(oldName := if ok && s.oldName == Some(SentryTable) then None else s.oldName, main := Returned(success))
  }

  // ---- The lock session ----

  predicate LockerEnabled<E>(s: State<E>, ok: bool) {
    match s.locker
    case LBegin => true
    case LConnection => ok ==> s.lockAlive
    case LGetLock => ok ==> s.lockAlive
    case LSetTimeout => ok ==> s.lockAlive
    case LDropStale => ok ==> s.oldName == None || s.oldName == Some(SentryTable)
    case LCreateSentry => ok ==> s.oldName.None?
    case LLockTables => ok ==> s.lockAlive && s.originalName.Some? && s.oldName.Some?
    case LReportLocked => true
    case LAwaitOk => s.okToUnlock.waiting != []
    case LDropSentry => ok ==> s.lockAlive
    case LUnlock => ok ==> s.lockAlive
    case LDefer1 => true
    case LDefer2 => true
    case LDefer3 => true
    case LDone => false
  }

  /** `tableLocked <- err; return err`, with the deferred sends to follow. */
  function LockFails<E>(s: State<E>): State<E> {
    s.(tableLocked := Send(s.tableLocked, false), locker := LDefer1)
  }

  function DoLocker<E>(s: State<E>, ok: bool): State<E>
    requires LockerEnabled(s, ok)
  {
    match s.locker
    case LBegin =>
      if ok then s.(lockAlive := true, locker := LConnection)
      else s.(tableLocked := Send(s.tableLocked, false), locker := LDone)
    case LConnection => if ok then s.(lockSession := Send(s.lockSession, true), locker := LGetLock) else LockFails(s)
    case LGetLock => if ok then s.(userLock := true, locker := LSetTimeout) else LockFails(s)
    case LSetTimeout => if ok then s.(locker := LDropStale) else LockFails(s)
    case LDropStale => if ok then s.(oldName := None, locker := LCreateSentry) else LockFails(s)
    case LCreateSentry => if ok then s.(oldName := Some(SentryTable), locker := LLockTables) else LockFails(s)
    case LLockTables => if ok then s.(tablesLocked := true, locker := LReportLocked) else LockFails(s)
    case LReportLocked => s.(tableLocked := Send(s.tableLocked, true), locker := LAwaitOk)
    case LAwaitOk => s.(okToUnlock := Receive(s.okToUnlock), locker := LDropSentry)
    case LDropSentry => s.(oldName := if ok then None else s.oldName, locker := LUnlock)
    case LUnlock =>
      if ok then s.(tablesLocked := false, tableUnlocked := Send(s.tableUnlocked, true), locker := LDefer1)
      else s.(tableUnlocked := Send(s.tableUnlocked, false), locker := LDefer1)
    case LDefer1 => s.(lockSession := Send(s.lockSession, false), locker := LDefer2)
    case LDefer2 => s.(tableLocked := Send(s.tableLocked, false), locker := LDefer3)
    case LDefer3 => s.(tableUnlocked := Send(s.tableUnlocked, false), locker := LDone)
  }

  // ---- The rename session ----

  predicate RenamerEnabled<E>(s: State<E>, ok: bool) {
    match s.renamer
    case RIdle => false
    case RDone => false
    case RAwait => ok ==> s.rename == Committed || s.rename == Failed
    case _ => true
  }

  function DoRenamer<E>(s: State<E>, ok: bool): State<E>
    requires RenamerEnabled(s, ok)
  {
    match s.renamer
    case RBegin =>
      // If the transaction cannot begin, nothing is ever sent on the session channel.
      if ok then s.(renamer := RConnection) else s.(renameBeginFailed := true, renamer := RSetFailed)
    case RConnection =>
      if ok then s.(renameSession := Send(s.renameSession, true), renamer := RSetTimeout) else s.(renamer := RDefer1(false))
    case RSetTimeout => s.(renamer := if ok then RIssue else RDefer1(false))
    case RIssue =>
      if ok then s.(rename := Pending, renamer := RAwait)
      else s.(tablesRenamed := Send(s.tablesRenamed, false), renamer := RDefer1(false))
    case RAwait =>
      // The client may see an error although the server goes on with the RENAME.
      var renamed := ok && s.rename == Committed;
      s.(tablesRenamed := Send(s.tablesRenamed, renamed), renamer := RDefer1(renamed))
    case RDefer1(renamed) => s.(renameSession := Send(s.renameSession, false), renamer := RDefer2(renamed))
    case RDefer2(renamed) =>
      s.(tablesRenamed := Send(s.tablesRenamed, false), renamer := if renamed then RDone else RSetFailed)
    case RSetFailed => s.(renameKnownToHaveFailed := true, renamer := RSignal)
    case RSignal => s.(okToUnlock := Send(s.okToUnlock, true), renamer := RDone)
  }

  // ---- All actions ----

  /** The pending RENAME finds its source names bound and its target name free. */
  predicate CanSwap<E>(s: State<E>) {
    s.originalName.Some? && s.ghostName.Some? && s.oldName.None?
  }

  predicate Enabled<E(==)>(s: State<E>, a: Action<E>) {
    match a
    case Main(ok, id, logged) => MainEnabled(s, ok, id, logged)
    case Locker(ok) => LockerEnabled(s, ok)
    case Renamer(ok) => RenamerEnabled(s, ok)
    case LockSessionDies => s.lockAlive
    case RenameDies => s.rename == Pending
    case ResolveRename => s.rename == Pending && !s.tablesLocked
    case AppWrite(_) => s.originalName == Some(OriginalTable) && !s.tablesLocked && s.rename != Pending
    case Apply(step) => (step.Stream? || step.Enqueue? || step.Take? || step.ApplyBatch?) && D.Enabled(s.drain, step)
  }

  function Do<E(==)>(s: State<E>, a: Action<E>): State<E>
    requires Enabled(s, a)
  {
    match a
    case Main(ok, id, logged) => DoMain(s, ok, id, logged)
    case Locker(ok) => DoLocker(s, ok)
    case Renamer(ok) => DoRenamer(s, ok)
    case LockSessionDies => s.(lockAlive := false, tablesLocked := false, userLock := false)
    case RenameDies => s.(rename := Failed)
    case ResolveRename =>
      if CanSwap(s) then s.(rename := Committed, oldName := s.originalName, originalName := s.ghostName, ghostName := None)
      else s.(rename := Failed)
    case AppWrite(event) => s.(drain := D.Do(s.drain, D.LogRow(event)))
    case Apply(step) => s.(drain := D.Do(s.drain, step))
  }

  ghost predicate Reaches<E>(s: State<E>, actions: seq<Action<E>>, t: State<E>)
    decreases |actions|
  {
    if actions == [] then s == t
    else Enabled(s, actions[0]) && Reaches(Do(s, actions[0]), actions[1..], t)
  }
}
