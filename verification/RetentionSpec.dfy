/** The telemetry store and its retention pruning: three deletes under foreign keys, each a statement of
    its own, with SQL's treatment of NULL in NOT IN. */
module RetentionSpec {
  import opened Text

  type RowID = nat

  datatype ProcessRow = ProcessRow(parentID: int, binaryPath: string, sha256: string, commandLine: string,
                                   username: string, launchedAt: int)
  datatype FileRow = FileRow(process: Option<RowID>, filePath: string, action: string, occurredAt: int)
  datatype NetRow = NetRow(process: Option<RowID>, protocol: string, localIP: string, localPort: int,
                           remoteIP: string, remotePort: int, occurredAt: int)
  datatype AlertRow = AlertRow(process: Option<RowID>, ruleName: string, category: string, riskScore: real,
                               description: string, triggeredAt: int)

  /** The four tables tied by foreign keys, and the next id each AUTOINCREMENT will hand out. */
  datatype DB = DB(
    processes: map<RowID, ProcessRow>, files: map<RowID, FileRow>, nets: map<RowID, NetRow>,
    alerts: map<RowID, AlertRow>,
    nextProcess: RowID, nextFile: RowID, nextNet: RowID, nextAlert: RowID)

  ghost predicate Refers(process: Option<RowID>, db: DB) {
    process.Some? ==> process.value in db.processes
  }

  /** Every foreign key that is not NULL names a process, and no id in use will be handed out again. */
  ghost predicate Consistent(db: DB) {
    && (forall i :: i in db.files ==> Refers(db.files[i].process, db) && i < db.nextFile)
    && (forall i :: i in db.nets ==> Refers(db.nets[i].process, db) && i < db.nextNet)
    && (forall i :: i in db.alerts ==> Refers(db.alerts[i].process, db) && i < db.nextAlert)
    && (forall p :: p in db.processes ==> p < db.nextProcess)
  }

  // ---------- Pruning ----------

  ghost predicate IsAlerted(db: DB, p: RowID) {
    exists i :: i in db.alerts && db.alerts[i].process == Some(p)
  }

  /** SELECT DISTINCT process_id FROM alert_logs WHERE process_id IS NOT NULL. */
  function Alerted(db: DB): (s: set<RowID>)
    ensures forall p :: p in s <==> IsAlerted(db, p)
  {
    set i | i in db.alerts && db.alerts[i].process.Some? :: db.alerts[i].process.value
  }

  /** `x NOT IN s`, as a WHERE clause takes it: true of anything when `s` is empty, and otherwise not true
      of NULL. */
  predicate NotIn(x: Option<RowID>, s: set<RowID>) {
    s == {} || (x.Some? && x.value !in s)
  }

  predicate OldFile(db: DB, r: FileRow, cutoff: int) {
    r.occurredAt < cutoff && NotIn(r.process, Alerted(db))
  }

  predicate OldNet(db: DB, r: NetRow, cutoff: int) {
    r.occurredAt < cutoff && NotIn(r.process, Alerted(db))
  }

  predicate OldProcess(db: DB, p: RowID, cutoff: int)
    requires p in db.processes
  {
    db.processes[p].launchedAt < cutoff && NotIn(Some(p), Alerted(db))
  }

  function DeleteFiles(db: DB, cutoff: int): DB {
    db.(files := map i | i in db.files && !OldFile(db, db.files[i], cutoff) :: db.files[i])
  }

  function DeleteNets(db: DB, cutoff: int): DB {
    db.(nets := map i | i in db.nets && !OldNet(db, db.nets[i], cutoff) :: db.nets[i])
  }

  /** The processes the third delete picks. */
  function Doomed(db: DB, cutoff: int): set<RowID> {
    set p | p in db.processes && OldProcess(db, p, cutoff)
  }

  ghost predicate HasRow(db: DB, p: RowID) {
    || (exists i :: i in db.files && db.files[i].process == Some(p))
    || (exists i :: i in db.nets && db.nets[i].process == Some(p))
    || IsAlerted(db, p)
  }

  /** Deleting these processes would leave a foreign key dangling. */
  ghost predicate Violates(db: DB, doomed: set<RowID>) {
    exists p :: p in doomed && HasRow(db, p)
  }

  datatype Result = Result(db: DB, ok: bool)

  /** The third delete: all the picked processes go, or the statement is rolled back. */
  ghost function DeleteProcesses(db: DB, cutoff: int): Result {
    var doomed := Doomed(db, cutoff);
    if Violates(db, doomed) then Result(db, false)
    else Result(db.(processes := db.processes - doomed), true)
  }

  ghost function DeleteChildren(db: DB, cutoff: int): DB {
    DeleteNets(DeleteFiles(db, cutoff), cutoff)
  }

  ghost function Prune(db: DB, cutoff: int): Result {
    DeleteProcesses(DeleteChildren(db, cutoff), cutoff)
  }

  /** Pruning when the engine itself fails at statement 1, 2 or 3: earlier statements stand. */
  ghost function PruneFailing(db: DB, cutoff: int, at: nat): Result {
    if at == 1 then Result(db, false)
    else if at == 2 then Result(DeleteFiles(db, cutoff), false)
    else if at == 3 then Result(DeleteChildren(db, cutoff), false)
    else Prune(db, cutoff)
  }

  /** Some old process that no alert names still has a file or network row at or after the cutoff. */
  ghost predicate StillActive(db: DB, cutoff: int) {
    exists p :: p in db.processes && OldProcess(db, p, cutoff) && ActiveSince(db, p, cutoff)
  }

  ghost predicate ActiveSince(db: DB, p: RowID, cutoff: int) {
    || (exists i :: i in db.files && db.files[i].process == Some(p) && db.files[i].occurredAt >= cutoff)
    || (exists i :: i in db.nets && db.nets[i].process == Some(p) && db.nets[i].occurredAt >= cutoff)
  }

  lemma OldProcessIsNotAlerted(db: DB, p: RowID, cutoff: int)
    requires p in db.processes && OldProcess(db, p, cutoff)
    ensures !IsAlerted(db, p)
  {
    assert p !in Alerted(db);
  }

  /** After the first two deletes, an unalerted old process has rows exactly if it has recent ones. */
  lemma RowsLeft(db: DB, p: RowID, cutoff: int)
    requires p in db.processes && OldProcess(db, p, cutoff)
    ensures HasRow(DeleteChildren(db, cutoff), p) <==> ActiveSince(db, p, cutoff)
    ensures OldProcess(DeleteChildren(db, cutoff), p, cutoff)
  {
    OldProcessIsNotAlerted(db, p, cutoff);
    var e := DeleteChildren(db, cutoff);
    assert Alerted(e) == Alerted(db) == Alerted(DeleteFiles(db, cutoff));
    forall i | i in db.files && db.files[i].process == Some(p)
      ensures i in e.files <==> db.files[i].occurredAt >= cutoff
    {
    }
    forall i | i in db.nets && db.nets[i].process == Some(p)
      ensures i in e.nets <==> db.nets[i].occurredAt >= cutoff
    {
    }
  }

  /** The prune is rejected, with the processes table as it was, exactly when some old process without
      alerts is still active. */
  lemma PruneFailsIffStillActive(db: DB, cutoff: int)
    ensures !Prune(db, cutoff).ok <==> StillActive(db, cutoff)
    ensures !Prune(db, cutoff).ok ==> Prune(db, cutoff).db.processes == db.processes
    ensures Prune(db, cutoff).ok ==> Prune(db, cutoff).db.processes == db.processes - Doomed(db, cutoff)
  {
    var e := DeleteChildren(db, cutoff);
    DoomedUnchanged(db, cutoff);
    forall p | p in Doomed(db, cutoff)
      ensures HasRow(e, p) <==> ActiveSince(db, p, cutoff)
    {
      RowsLeft(db, p, cutoff);
    }
    assert Violates(e, Doomed(e, cutoff)) <==> StillActive(db, cutoff);
  }

  lemma DoomedUnchanged(db: DB, cutoff: int)
    ensures Alerted(DeleteChildren(db, cutoff)) == Alerted(db)
    ensures Doomed(DeleteChildren(db, cutoff), cutoff) == Doomed(db, cutoff)
  {
    assert Alerted(DeleteChildren(db, cutoff)) == Alerted(db) == Alerted(DeleteFiles(db, cutoff));
  }

  lemma ChildrenDeletedConsistently(db: DB, cutoff: int)
    requires Consistent(db)
    ensures Consistent(DeleteFiles(db, cutoff)) && Consistent(DeleteChildren(db, cutoff))
  {
    var d := DeleteFiles(db, cutoff);
    assert forall x :: Refers(x, d) <==> Refers(x, db);
    var e := DeleteNets(d, cutoff);
    assert forall x :: Refers(x, e) <==> Refers(x, db);
  }

  lemma DeleteProcessesKeepsConsistent(db: DB, cutoff: int)
    requires Consistent(db)
    ensures Consistent(DeleteProcesses(db, cutoff).db)
  {
    var doomed := Doomed(db, cutoff);
    if !Violates(db, doomed) {
      var f := DeleteProcesses(db, cutoff).db;
      forall p | p in doomed
        ensures !HasRow(db, p)
      {
      }
      forall i | i in f.files
        ensures Refers(f.files[i].process, f)
      {
        assert Refers(db.files[i].process, db);
      }
      forall i | i in f.nets
        ensures Refers(f.nets[i].process, f)
      {
        assert Refers(db.nets[i].process, db);
      }
      forall i | i in f.alerts
        ensures Refers(f.alerts[i].process, f)
      {
        assert Refers(db.alerts[i].process, db);
      }
    }
  }

  /** However far it gets, pruning a consistent database leaves it consistent. */
  lemma PruneKeepsConsistent(db: DB, cutoff: int, at: nat)
    requires Consistent(db)
    ensures Consistent(PruneFailing(db, cutoff, at).db)
  {
    ChildrenDeletedConsistently(db, cutoff);
    DeleteProcessesKeepsConsistent(DeleteChildren(db, cutoff), cutoff);
  }

  /** Nothing tied to an alerted process goes, and no alert goes. */
  lemma AlertedRowsSurvive(db: DB, cutoff: int, at: nat, p: RowID)
    requires IsAlerted(db, p)
    ensures var d := PruneFailing(db, cutoff, at).db;
      && d.alerts == db.alerts
      && (p in db.processes ==> p in d.processes && d.processes[p] == db.processes[p])
      && (forall i :: i in db.files && db.files[i].process == Some(p) ==> i in d.files && d.files[i] == db.files[i])
      && (forall i :: i in db.nets && db.nets[i].process == Some(p) ==> i in d.nets && d.nets[i] == db.nets[i])
  {
    assert p in Alerted(db);
    DoomedUnchanged(db, cutoff);
    assert Alerted(DeleteFiles(db, cutoff)) == Alerted(db);
  }

  /** A row with no process is pruned only while no alert names any process. */
  lemma OrphanRowsGoOnlyWithoutAlerts(db: DB, cutoff: int, i: RowID)
    requires i in db.files && db.files[i].process == None && db.files[i].occurredAt < cutoff
    ensures i in Prune(db, cutoff).db.files <==> exists p :: IsAlerted(db, p)
  {
    if p :| IsAlerted(db, p) {
      assert p in Alerted(db);
    } else {
      assert Alerted(db) == {};
    }
  }

  // ---------- Exactly what goes ----------

  /** A row this old goes when it belongs to a process no alert names; and while no alert names any process,
      also when it belongs to none. */
  ghost predicate Unprotected(db: DB, process: Option<RowID>) {
    match process
    case Some(p) => forall i :: i in db.alerts ==> db.alerts[i].process != Some(p)
    case None => forall i :: i in db.alerts ==> db.alerts[i].process == None
  }

  lemma NotInAlertedIsUnprotected(db: DB, process: Option<RowID>)
    ensures NotIn(process, Alerted(db)) <==> Unprotected(db, process)
  {
    forall p | p in Alerted(db)
      ensures exists i :: i in db.alerts && db.alerts[i].process == Some(p)
    {
      assert IsAlerted(db, p);
    }
    forall i | i in db.alerts && db.alerts[i].process.Some?
      ensures db.alerts[i].process.value in Alerted(db)
    {
      assert IsAlerted(db, db.alerts[i].process.value);
    }
  }

  /** The file and network rows a prune removes: those from before the cutoff that nothing protects. */
  lemma PruneRemovesRows(db: DB, cutoff: int)
    ensures var d := Prune(db, cutoff).db;
      && d.files.Keys <= db.files.Keys && d.nets.Keys <= db.nets.Keys && d.alerts == db.alerts
      && (forall i :: i in db.files ==>
            (i !in d.files <==> db.files[i].occurredAt < cutoff && Unprotected(db, db.files[i].process)))
      && (forall i :: i in db.nets ==>
            (i !in d.nets <==> db.nets[i].occurredAt < cutoff && Unprotected(db, db.nets[i].process)))
      && (forall i :: i in d.files ==> d.files[i] == db.files[i])
      && (forall i :: i in d.nets ==> d.nets[i] == db.nets[i])
  {
    assert Alerted(DeleteFiles(db, cutoff)) == Alerted(db);
    forall i | i in db.files
      ensures NotIn(db.files[i].process, Alerted(db)) <==> Unprotected(db, db.files[i].process)
    {
      NotInAlertedIsUnprotected(db, db.files[i].process);
    }
    forall i | i in db.nets
      ensures NotIn(db.nets[i].process, Alerted(db)) <==> Unprotected(db, db.nets[i].process)
    {
      NotInAlertedIsUnprotected(db, db.nets[i].process);
    }
  }

  /** A process from before the cutoff that no alert names. */
  ghost predicate IsOld(db: DB, p: RowID, cutoff: int) {
    p in db.processes && db.processes[p].launchedAt < cutoff && Unprotected(db, Some(p))
  }

  /** A prune removes all old processes, or none when one of them has a file or network row at or after the
      cutoff; and it says which. */
  lemma PruneRemovesProcesses(db: DB, cutoff: int)
    ensures var r := Prune(db, cutoff);
      && (r.ok <==> forall p: RowID :: IsOld(db, p, cutoff) ==>
            && (forall i :: i in db.files && db.files[i].process == Some(p) ==> db.files[i].occurredAt < cutoff)
            && (forall i :: i in db.nets && db.nets[i].process == Some(p) ==> db.nets[i].occurredAt < cutoff))
      && (forall p: RowID :: p in r.db.processes <==> p in db.processes && !(r.ok && IsOld(db, p, cutoff)))
      && (forall p :: p in r.db.processes ==> r.db.processes[p] == db.processes[p])
  {
    PruneFailsIffStillActive(db, cutoff);
    forall p | p in db.processes
      ensures OldProcess(db, p, cutoff) <==> IsOld(db, p, cutoff)
    {
      NotInAlertedIsUnprotected(db, Some(p));
    }
    assert forall p: RowID :: p in Doomed(db, cutoff) <==> IsOld(db, p, cutoff);
  }

  // ---------- Pruning twice ----------

  lemma FilesTwice(db: DB, c1: int, c2: int)
    requires c1 <= c2
    ensures DeleteChildren(DeleteChildren(db, c1), c2) == DeleteChildren(db, c2)
  {
    var e := DeleteChildren(db, c1);
    DoomedUnchanged(db, c1);
    assert Alerted(DeleteFiles(db, c1)) == Alerted(db);
    assert Alerted(DeleteFiles(db, c2)) == Alerted(db);
    assert Alerted(DeleteFiles(e, c2)) == Alerted(db);
    assert DeleteChildren(e, c2).files == DeleteChildren(db, c2).files;
    assert DeleteChildren(e, c2).nets == DeleteChildren(db, c2).nets;
  }

  /** The process table has no part in the first two deletes. */
  lemma ChildrenIgnoreProcesses(db: DB, ps: map<RowID, ProcessRow>, cutoff: int)
    ensures DeleteChildren(db.(processes := ps), cutoff) == DeleteChildren(db, cutoff).(processes := ps)
  {
    var d := db.(processes := ps);
    assert Alerted(d) == Alerted(db);
    assert Alerted(DeleteFiles(d, cutoff)) == Alerted(DeleteFiles(db, cutoff)) == Alerted(db);
    assert DeleteFiles(d, cutoff).files == DeleteFiles(db, cutoff).files;
    assert DeleteChildren(d, cutoff).nets == DeleteChildren(db, cutoff).nets;
  }

  lemma PruneShape(db: DB, cutoff: int)
    ensures Prune(db, cutoff).db == DeleteChildren(db, cutoff).(processes := Prune(db, cutoff).db.processes)
  {
  }

  lemma DoomedGrows(db: DB, c1: int, c2: int)
    requires c1 <= c2
    ensures Doomed(db, c1) <= Doomed(db, c2)
  {
  }

  /** What the first prune leaves decides the second as the original database would. */
  lemma OutcomesAgree(db: DB, c1: int, c2: int)
    requires c1 <= c2
    ensures StillActive(Prune(db, c1).db, c2) <==> StillActive(db, c2)
  {
    var d := Prune(db, c1).db;
    PruneFailsIffStillActive(db, c1);
    DoomedUnchanged(db, c1);
    assert Alerted(d) == Alerted(db);
    forall p | p in db.processes && OldProcess(db, p, c2) && ActiveSince(db, p, c2)
      ensures p in d.processes && OldProcess(d, p, c2) && ActiveSince(d, p, c2)
    {
      RecentRowsSurvive(db, c1, c2, p);
      assert p in Doomed(db, c1) ==> StillActive(db, c1);
    }
    forall p | p in d.processes && OldProcess(d, p, c2) && ActiveSince(d, p, c2)
      ensures p in db.processes && OldProcess(db, p, c2) && ActiveSince(db, p, c2)
    {
    }
  }

  lemma RecentRowsSurvive(db: DB, c1: int, c2: int, p: RowID)
    requires c1 <= c2 && ActiveSince(db, p, c2)
    ensures ActiveSince(Prune(db, c1).db, p, c2) && ActiveSince(db, p, c1)
  {
    var d := Prune(db, c1).db;
    if i :| i in db.files && db.files[i].process == Some(p) && db.files[i].occurredAt >= c2 {
      assert i in d.files && d.files[i] == db.files[i];
    } else {
      var i :| i in db.nets && db.nets[i].process == Some(p) && db.nets[i].occurredAt >= c2;
      assert i in d.nets && d.nets[i] == db.nets[i];
    }
  }

  /** Pruning to an earlier and then a later cutoff, against pruning to the later one at once: the outcome
      and the child tables always agree. The process tables differ exactly when some unalerted process is old
      at the first cutoff, none of those is still active, and one old at the second cutoff is: the first
      prune removes what the second alone would have kept. */
  lemma PruneTwice(db: DB, c1: int, c2: int)
    requires c1 <= c2
    ensures var once, twice := Prune(db, c2), Prune(Prune(db, c1).db, c2);
      && twice.ok == once.ok
      && twice.db == once.db.(processes := twice.db.processes)
      && (twice.db == once.db <==> !(!StillActive(db, c1) && Doomed(db, c1) != {} && StillActive(db, c2)))
  {
    var first := Prune(db, c1);
    var once, twice := Prune(db, c2), Prune(first.db, c2);
    PruneFailsIffStillActive(db, c1);
    PruneFailsIffStillActive(db, c2);
    PruneFailsIffStillActive(first.db, c2);
    OutcomesAgree(db, c1, c2);
    PruneShape(db, c1);
    PruneShape(db, c2);
    PruneShape(first.db, c2);
    FilesTwice(db, c1, c2);
    ChildrenIgnoreProcesses(DeleteChildren(db, c1), first.db.processes, c2);
    TwiceProcesses(db, c1, c2);
  }

  lemma RemovedTwice<K, V>(m: map<K, V>, a: set<K>, b: set<K>)
    requires a <= b
    ensures (m - a) - (b - a) == m - b
  {
  }

  lemma RemovedNothing<K, V>(m: map<K, V>, a: set<K>)
    requires a <= m.Keys
    ensures m - a == m <==> a == {}
  {
    if k :| k in a {
      assert k in m && k !in m - a;
    }
  }

  lemma DoomedAfter(db: DB, c1: int, c2: int)
    requires c1 <= c2
    ensures var first := Prune(db, c1);
      Doomed(first.db, c2) == if first.ok then Doomed(db, c2) - Doomed(db, c1) else Doomed(db, c2)
  {
    var d := Prune(db, c1).db;
    PruneFailsIffStillActive(db, c1);
    DoomedUnchanged(db, c1);
    assert Alerted(d) == Alerted(db);
    forall p | p in d.processes
      ensures OldProcess(d, p, c2) <==> OldProcess(db, p, c2)
    {
    }
  }

  lemma TwiceProcesses(db: DB, c1: int, c2: int)
    requires c1 <= c2
    ensures var once, twice := Prune(db, c2), Prune(Prune(db, c1).db, c2);
      (twice.db.processes == once.db.processes) <==>
        !(!StillActive(db, c1) && Doomed(db, c1) != {} && StillActive(db, c2))
  {
    PruneFailsIffStillActive(db, c1);
    PruneFailsIffStillActive(db, c2);
    PruneFailsIffStillActive(Prune(db, c1).db, c2);
    OutcomesAgree(db, c1, c2);
    DoomedAfter(db, c1, c2);
    DoomedGrows(db, c1, c2);
    RemovedTwice(db.processes, Doomed(db, c1), Doomed(db, c2));
    RemovedNothing(db.processes, Doomed(db, c1));
  }

  /** Pruning again to the same cutoff changes nothing and ends the same way. */
  lemma PruneIsIdempotent(db: DB, cutoff: int)
    ensures Prune(Prune(db, cutoff).db, cutoff) == Prune(db, cutoff)
  {
    PruneTwice(db, cutoff, cutoff);
    PruneFailsIffStillActive(db, cutoff);
  }

  // ---------- Inserts, and whole runs ----------

  /** An insert whose process id names no process breaks the foreign key and is refused. */
  function ProcessRef(db: DB, processID: int): Option<RowID> {
    if processID >= 0 && processID as RowID in db.processes then Some(processID as RowID) else None
  }

  function InsertProcess(db: DB, row: ProcessRow): DB {
    db.(processes := db.processes[db.nextProcess := row], nextProcess := db.nextProcess + 1)
  }

  function InsertFile(db: DB, row: FileRow): DB {
    db.(files := db.files[db.nextFile := row], nextFile := db.nextFile + 1)
  }

  function InsertNet(db: DB, row: NetRow): DB {
    db.(nets := db.nets[db.nextNet := row], nextNet := db.nextNet + 1)
  }

  function InsertAlert(db: DB, row: AlertRow): DB {
    db.(alerts := db.alerts[db.nextAlert := row], nextAlert := db.nextAlert + 1)
  }

  datatype Op =
    | AddProcess(process: ProcessRow)
    | AddFile(file: FileRow) | AddNet(net: NetRow) | AddAlert(alert: AlertRow)
    | DoPrune(cutoff: int, failsAt: nat)

  /** A statement that would break a foreign key changes nothing. */
  ghost function Apply(db: DB, op: Op): DB {
    match op
    case AddProcess(r) => InsertProcess(db, r)
    case AddFile(r) => if Refers(r.process, db) then InsertFile(db, r) else db
    case AddNet(r) => if Refers(r.process, db) then InsertNet(db, r) else db
    case AddAlert(r) => if Refers(r.process, db) then InsertAlert(db, r) else db
    case DoPrune(cutoff, at) => PruneFailing(db, cutoff, at).db
  }

  ghost function Run(db: DB, ops: seq<Op>): DB
    decreases |ops|
  {
    if ops == [] then db else Run(Apply(db, ops[0]), ops[1..])
  }

  const EMPTY := DB(map[], map[], map[], map[], 1, 1, 1, 1)

  lemma ApplyKeepsConsistent(db: DB, op: Op)
    requires Consistent(db)
    ensures Consistent(Apply(db, op))
  {
    match op
    case AddProcess(r) =>
      var d := InsertProcess(db, r);
      assert forall x :: Refers(x, db) ==> Refers(x, d);
    case AddFile(r) =>
      var d := Apply(db, op);
      assert forall x :: Refers(x, db) ==> Refers(x, d);
    case AddNet(r) =>
      var d := Apply(db, op);
      assert forall x :: Refers(x, db) ==> Refers(x, d);
    case AddAlert(r) =>
      var d := Apply(db, op);
      assert forall x :: Refers(x, db) ==> Refers(x, d);
    case DoPrune(cutoff, at) => PruneKeepsConsistent(db, cutoff, at);
  }

  /** Every run of inserts and prunes, failing ones among them, keeps the foreign keys. */
  lemma {:induction false} RunKeepsConsistent(db: DB, ops: seq<Op>)
    requires Consistent(db)
    ensures Consistent(Run(db, ops))
    decreases |ops|
  {
    if ops == [] {
    } else {
      ApplyKeepsConsistent(db, ops[0]);
      RunKeepsConsistent(Apply(db, ops[0]), ops[1..]);
    }
  }

  /** A process an alert names is never lost again, whatever is inserted and pruned afterwards. */
  lemma {:induction false} AlertedProcessSurvivesRun(db: DB, ops: seq<Op>, p: RowID)
    requires Consistent(db) && IsAlerted(db, p)
    ensures IsAlerted(Run(db, ops), p) && p in Run(db, ops).processes && p in db.processes
    ensures Run(db, ops).processes[p] == db.processes[p]
    decreases |ops|
  {
    var i :| i in db.alerts && db.alerts[i].process == Some(p);
    assert Refers(db.alerts[i].process, db);
    if ops == [] {
    } else {
      var d := Apply(db, ops[0]);
      ApplyKeepsConsistent(db, ops[0]);
      if ops[0].DoPrune? {
        AlertedRowsSurvive(db, ops[0].cutoff, ops[0].failsAt, p);
      }
      assert i in d.alerts && d.alerts[i] == db.alerts[i];
      AlertedProcessSurvivesRun(d, ops[1..], p);
    }
  }

  /** From the alert on: an alert inserted for a stored process keeps that process whatever follows. */
  lemma InsertedAlertProtects(db: DB, row: AlertRow, p: RowID, ops: seq<Op>)
    requires Consistent(db) && p in db.processes && row.process == Some(p)
    ensures var d := Apply(db, AddAlert(row));
      && IsAlerted(d, p) && p in Run(d, ops).processes && Run(d, ops).processes[p] == db.processes[p]
  {
    var d := Apply(db, AddAlert(row));
    ApplyKeepsConsistent(db, AddAlert(row));
    assert db.nextAlert in d.alerts && d.alerts[db.nextAlert].process == Some(p);
    AlertedProcessSurvivesRun(d, ops, p);
  }

  // ---------- A database on which pruning twice deletes more ----------

  const IDLE := ProcessRow(0, "", "", "", "", 0)
  const ACTIVE := ProcessRow(0, "", "", "", "", 5)
  const RECENT := FileRow(Some(2), "", "", 20)

  /** One process old and idle, another a little younger but active. */
  const TWO_PROCESSES := DB(map[1 := IDLE, 2 := ACTIVE], map[1 := RECENT], map[], map[], 3, 2, 1, 1)

  lemma TwoProcessesAreStored()
    ensures Run(EMPTY, [AddProcess(IDLE), AddProcess(ACTIVE), AddFile(RECENT)]) == TWO_PROCESSES
  {
    var one := Apply(EMPTY, AddProcess(IDLE));
    var two := Apply(one, AddProcess(ACTIVE));
    var ops := [AddProcess(IDLE), AddProcess(ACTIVE), AddFile(RECENT)];
    assert ops[1..] == [AddProcess(ACTIVE), AddFile(RECENT)] && ops[1..][1..] == [AddFile(RECENT)];
    assert ops[1..][1..][1..] == [];
    assert two.processes == TWO_PROCESSES.processes && Apply(two, AddFile(RECENT)) == TWO_PROCESSES;
    assert Run(two, [AddFile(RECENT)]) == TWO_PROCESSES;
  }

  /** Pruned to 3 and then to 10 it loses the idle process, pruned to 10 at once it does not. */
  lemma TwoPrunesCanDeleteMore()
    ensures !Prune(TWO_PROCESSES, 10).ok && !Prune(Prune(TWO_PROCESSES, 3).db, 10).ok
    ensures 1 in Prune(TWO_PROCESSES, 10).db.processes && 1 !in Prune(Prune(TWO_PROCESSES, 3).db, 10).db.processes
  {
    var db := TWO_PROCESSES;
    assert Alerted(db) == {};
    assert OldProcess(db, 1, 3) && !OldProcess(db, 2, 3) && OldProcess(db, 2, 10);
    assert 1 in Doomed(db, 3);
    assert db.files[1].process == Some(2) && db.files[1].occurredAt >= 10;
    assert ActiveSince(db, 2, 10);
    assert StillActive(db, 10) && !StillActive(db, 3);
    PruneFailsIffStillActive(db, 3);
    PruneFailsIffStillActive(db, 10);
    OutcomesAgree(db, 3, 10);
    PruneFailsIffStillActive(Prune(db, 3).db, 10);
  }
}
