/** The store as an object: inserts under foreign keys, and the three statements of pruning. */
module Retention {
  import opened Text
  import opened RetentionSpec

  class Storage {
    var db: DB

    ghost predicate Valid()
      reads this
    {
      Consistent(db)
    }

    constructor ()
      ensures Valid() && db == EMPTY
    {
      db := EMPTY;
    }

    /** The new id is one that was never handed out before. */
    method InsertProcess(parentID: int, binaryPath: string, sha256: string, commandLine: string, username: string,
                         now: int)
      returns (id: RowID)
      requires Valid()
      modifies this
      ensures Valid() && id == old(db).nextProcess && id !in old(db).processes
      ensures db == Apply(old(db), AddProcess(ProcessRow(parentID, binaryPath, sha256, commandLine, username, now)))
      ensures db.processes ==
        old(db).processes[id := ProcessRow(parentID, binaryPath, sha256, commandLine, username, now)]
      ensures db.files == old(db).files && db.nets == old(db).nets && db.alerts == old(db).alerts
    {
      var row := ProcessRow(parentID, binaryPath, sha256, commandLine, username, now);
      ApplyKeepsConsistent(db, AddProcess(row));
      id := db.nextProcess;
      db := db.(processes := db.processes[id := row], nextProcess := id + 1);
    }

    /** Refused, with nothing stored, exactly when the process id names no process. */
    method InsertFileModification(processID: int, filePath: string, action: string, now: int) returns (ok: bool)
      requires Valid()
      modifies this
      ensures Valid() && (ok <==> processID >= 0 && processID as RowID in old(db).processes)
      ensures db == if ok
        then Apply(old(db), AddFile(FileRow(Some(processID as RowID), filePath, action, now))) else old(db)
      ensures ok ==>
        db.files == old(db).files[old(db).nextFile := FileRow(Some(processID as RowID), filePath, action, now)]
      ensures db.processes == old(db).processes && db.nets == old(db).nets && db.alerts == old(db).alerts
    {
      var ref := ProcessRef(db, processID);
      ok := ref.Some?;
      if ok {
        var row := FileRow(ref, filePath, action, now);
        ApplyKeepsConsistent(db, AddFile(row));
        db := db.(files := db.files[db.nextFile := row], nextFile := db.nextFile + 1);
      }
    }

    method InsertNetworkConnection(processID: int, protocol: string, localIP: string, localPort: int,
                                   remoteIP: string, remotePort: int, now: int) returns (ok: bool)
      requires Valid()
      modifies this
      ensures Valid() && (ok <==> processID >= 0 && processID as RowID in old(db).processes)
      ensures db == if ok
        then Apply(old(db), AddNet(NetRow(Some(processID as RowID), protocol, localIP, localPort,
                                          remoteIP, remotePort, now)))
        else old(db)
      ensures ok ==> db.nets == old(db).nets[old(db).nextNet :=
        NetRow(Some(processID as RowID), protocol, localIP, localPort, remoteIP, remotePort, now)]
      ensures db.processes == old(db).processes && db.files == old(db).files && db.alerts == old(db).alerts
    {
      var ref := ProcessRef(db, processID);
      ok := ref.Some?;
      if ok {
        var row := NetRow(ref, protocol, localIP, localPort, remoteIP, remotePort, now);
        ApplyKeepsConsistent(db, AddNet(row));
        db := db.(nets := db.nets[db.nextNet := row], nextNet := db.nextNet + 1);
      }
    }

    method InsertAlertLog(ruleName: string, category: string, riskScore: real, description: string,
                          processID: int, now: int) returns (ok: bool)
      requires Valid()
      modifies this
      ensures Valid() && (ok <==> processID >= 0 && processID as RowID in old(db).processes)
      ensures db == if ok
        then Apply(old(db), AddAlert(AlertRow(Some(processID as RowID), ruleName, category, riskScore,
                                              description, now)))
        else old(db)
      ensures ok ==> db.alerts == old(db).alerts[old(db).nextAlert :=
        AlertRow(Some(processID as RowID), ruleName, category, riskScore, description, now)]
      ensures db.processes == old(db).processes && db.files == old(db).files && db.nets == old(db).nets
    {
      var ref := ProcessRef(db, processID);
      ok := ref.Some?;
      if ok {
        var row := AlertRow(ref, ruleName, category, riskScore, description, now);
        ApplyKeepsConsistent(db, AddAlert(row));
        db := db.(alerts := db.alerts[db.nextAlert := row], nextAlert := db.nextAlert + 1);
      }
    }

    /** The third delete as the engine runs it: look for a row that would be left dangling, row by row. */
    method RemoveProcesses(cutoff: int) returns (ok: bool)
      requires Valid()
      modifies this
      ensures Valid() && Result(db, ok) == DeleteProcesses(old(db), cutoff)
    {
      var doomed := Doomed(db, cutoff);
      ok := (forall i :: i in db.files ==> db.files[i].process.None? || db.files[i].process.value !in doomed)
         && (forall i :: i in db.nets ==> db.nets[i].process.None? || db.nets[i].process.value !in doomed)
         && (forall i :: i in db.alerts ==> db.alerts[i].process.None? || db.alerts[i].process.value !in doomed);
      ReferenceCheck(db, doomed);
      if ok {
        DeleteProcessesKeepsConsistent(db, cutoff);
        db := db.(processes := db.processes - doomed);
      }
    }

    lemma ReferenceCheck(d: DB, doomed: set<RowID>)
      ensures !Violates(d, doomed) <==>
        (&& (forall i :: i in d.files ==> d.files[i].process.None? || d.files[i].process.value !in doomed)
         && (forall i :: i in d.nets ==> d.nets[i].process.None? || d.nets[i].process.value !in doomed)
         && (forall i :: i in d.alerts ==> d.alerts[i].process.None? || d.alerts[i].process.value !in doomed))
    {
      forall i | i in d.files && d.files[i].process.Some?
        ensures HasRow(d, d.files[i].process.value)
      {
      }
      forall i | i in d.nets && d.nets[i].process.Some?
        ensures HasRow(d, d.nets[i].process.value)
      {
      }
      forall i | i in d.alerts && d.alerts[i].process.Some?
        ensures HasRow(d, d.alerts[i].process.value)
      {
        assert IsAlerted(d, d.alerts[i].process.value);
      }
    }

    /** `failsAt` says at which statement the engine itself fails, if at one of the three. */
    method PruneOldTelemetry(cutoff: int, failsAt: nat) returns (ok: bool)
      requires Valid()
      modifies this
      ensures Valid() && Result(db, ok) == PruneFailing(old(db), cutoff, failsAt)
      ensures failsAt !in {1, 2, 3} ==> (ok <==> !StillActive(old(db), cutoff))
    {
      ChildrenDeletedConsistently(db, cutoff);
      PruneFailsIffStillActive(db, cutoff);
      if failsAt == 1 {
        return false;
      }
      db := DeleteFiles(db, cutoff);
      if failsAt == 2 {
        return false;
      }
      db := DeleteNets(db, cutoff);
      if failsAt == 3 {
        return false;
      }
      ok := RemoveProcesses(cutoff);
    }
  }
}
