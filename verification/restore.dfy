/**
  Backup restore: a safety backup, the swap of the private storage directory, the
  database import, and the compensation that reinstates both.  Every primitive
  may fail; a failed import leaves the database in any state, and a failed
  removal of a directory leaves any part of it.
 */
module Restore {
  import opened Wrappers

  type Database = string

  type Tree = map<string, string>

  /** What a verified archive extracts to. */
  datatype Archive = Archive(database: Database, storage: Tree)

  datatype Outcome =
    | Returned
    | FailedUntouched           // nothing had been changed yet
    | SafetyReinstated          // "the safety backup was reinstated"
    | BothFailed                // restore and compensation failed, recovery files are kept
    | WorkingFilesLeft          // the working directory could not be removed

  /** What goes wrong while one archive is extracted and imported. */
  datatype Attempt = Attempt(extract: bool, importing: bool, reconnect: bool, verify: bool)

  /** What goes wrong in a restore: with the archive itself, with the storage directories, with the safety backup. */
  datatype Faults = Faults(
    incoming: Attempt,
    safetyBackup: bool,        // the safety backup cannot be created
    noRestorer: bool,
    moveAside: bool,           // the private storage cannot be moved to the working directory
    parent: bool,
    install: bool,             // the extracted storage cannot be moved into place
    compensation: Attempt,
    removeRestored: bool,      // the installed storage cannot be removed
    moveBack: bool,
    removeWork: bool)

  const NO_FAULTS :=
    Faults(Attempt(false, false, false, false), false, false, false, false, false,
           Attempt(false, false, false, false), false, false, false)

  /** Something fails before anything has been changed. */
  predicate FailsEarly(f: Faults) {
    f.incoming.extract || f.safetyBackup || f.noRestorer
  }

  /** The archive's storage gets into place; `had` says whether there was a private storage to move aside. */
  predicate Installs(f: Faults, had: bool) {
    !(had && f.moveAside) && !f.parent && !f.install
  }

  predicate Restores(f: Faults, had: bool) {
    Installs(f, had) && !f.incoming.importing && !f.incoming.reconnect && !f.incoming.verify
  }

  /** What the mutating half has done can be undone. */
  predicate Compensates(f: Faults, had: bool) {
    && !f.compensation.extract && !f.compensation.importing && !f.compensation.reconnect && !f.compensation.verify
    && !(Installs(f, had) && f.removeRestored)
    && !(had && !f.moveAside && f.moveBack)
  }

  /** The contents of a directory that may be missing. */
  function TreeOf(directory: Option<Tree>): Tree {
    if directory.None? then map[] else directory.value
  }

  class RestoreWorld {
    var database: Database
    var privateStorage: Option<Tree>
    var rollbackStorage: Option<Tree>     // in the working directory
    var incomingStorage: Option<Tree>     // in the working directory
    var safetyBackup: Option<Archive>

    /** `importAndReconnect`; an import that fails leaves any database. */
    method Import(source: Database, faults: Attempt) returns (ok: bool)
      modifies this`database
      ensures ok <==> !faults.importing && !faults.reconnect
      ensures !faults.importing ==> database == source
    {
      if faults.importing {
        database := *;
        return false;
      }
      database := source;
      ok := !faults.reconnect;
    }

    /** `extractVerified` into an empty directory, the connection match, and the payload lookup. */
    method Extract(archive: Archive, faults: Attempt) returns (ok: bool, payload: Database, tree: Tree)
      ensures ok <==> !faults.extract
      ensures ok ==> payload == archive.database && tree == archive.storage
    {
      ok, payload, tree := !faults.extract, archive.database, archive.storage;
    }

    /** `createSafetyBackup` */
    method CreateSafetyBackup(fails: bool) returns (ok: bool)
      modifies this`safetyBackup
      ensures ok <==> !fails
      ensures safetyBackup == if ok then Some(Archive(database, TreeOf(privateStorage))) else old(safetyBackup)
    {
      ok := !fails;
      if ok {
        safetyBackup := Some(Archive(database, TreeOf(privateStorage)));
      }
    }

    /** The private storage directory is moved aside, if there is one. */
    method MoveStorageAside(fails: bool) returns (ok: bool, moved: bool)
      requires rollbackStorage.None?
      modifies this`privateStorage, this`rollbackStorage
      ensures ok <==> !(old(privateStorage).Some? && fails)
      ensures moved <==> old(privateStorage).Some? && !fails
      ensures moved ==> rollbackStorage == old(privateStorage) && privateStorage.None?
      ensures !moved ==> rollbackStorage.None? && privateStorage == old(privateStorage)
    {
      ok, moved := true, false;
      if privateStorage.Some? {
        if fails {
          return false, false;
        }
        rollbackStorage, privateStorage := privateStorage, None;
        moved := true;
      }
    }

    /** The extracted storage is moved into place. */
    method InstallStorage(fails: bool) returns (ok: bool)
      requires privateStorage.None? && incomingStorage.Some?
      modifies this`privateStorage, this`incomingStorage
      ensures ok <==> !fails
      ensures privateStorage == if ok then old(incomingStorage) else None
    {
      ok := !fails;
      if ok {
        privateStorage, incomingStorage := incomingStorage, None;
      }
    }

    /** The mutating half of `restoreLocked`, with the flags its compensation looks at. */
    method Mutate(payload: Database, faults: Faults) returns (ok: bool, storageMoved: bool, storageInstalled: bool)
      requires rollbackStorage.None? && incomingStorage.Some?
      modifies this`database, this`privateStorage, this`rollbackStorage, this`incomingStorage
      ensures ok <==> Restores(faults, old(privateStorage).Some?)
      ensures storageMoved <==> old(privateStorage).Some? && !faults.moveAside
      ensures storageInstalled <==> Installs(faults, old(privateStorage).Some?)
      ensures ok ==> database == payload && privateStorage == old(incomingStorage)
      ensures storageMoved ==> rollbackStorage == old(privateStorage)
      ensures !storageMoved && !storageInstalled ==> privateStorage == old(privateStorage)
      ensures storageMoved && !storageInstalled ==> privateStorage.None?
      ensures storageInstalled ==> privateStorage.Some?
      ensures !storageMoved ==> rollbackStorage.None?
    {
      storageInstalled := false;
      ok, storageMoved := MoveStorageAside(faults.moveAside);
      if !ok {
        return;
      }
      ok := InstallStorage(faults.parent || faults.install);
      if !ok {
        return;
      }
      storageInstalled := true;
      ok := Import(payload, faults.incoming);
      if ok {
        ok := !faults.incoming.verify;         // the verification of the restored database
      }
    }

    /** `deleteDirectory` on the failed restored storage; one that fails leaves any part of it. */
    method RemoveStorage(fails: bool) returns (ok: bool)
      modifies this`privateStorage
      ensures ok <==> !fails
      ensures ok ==> privateStorage.None?
    {
      if fails {
        privateStorage := *;
        return false;
      }
      privateStorage := None;
      ok := true;
    }

    /** `reinstatePrivateStorage` */
    method ReinstatePrivateStorage(storageInstalled: bool, storageMoved: bool, removeFails: bool, moveFails: bool)
      returns (ok: bool)
      requires storageMoved ==> rollbackStorage.Some?
      requires storageMoved && !storageInstalled ==> privateStorage.None?
      requires storageInstalled ==> privateStorage.Some?
      modifies this`privateStorage, this`rollbackStorage
      ensures ok <==> !(storageInstalled && removeFails) && !(storageMoved && moveFails)
      ensures ok && storageMoved ==> privateStorage == old(rollbackStorage)
      ensures ok && !storageMoved && storageInstalled ==> privateStorage.None?
      ensures !storageMoved && !storageInstalled ==> privateStorage == old(privateStorage)
      ensures !ok && storageMoved ==> rollbackStorage == old(rollbackStorage)
    {
      if storageInstalled && privateStorage.Some? {
        var removed := RemoveStorage(removeFails);
        if !removed {
          return false;
        }
      }
      if storageMoved {
        if rollbackStorage.None? || moveFails {
          return false;
        }
        privateStorage, rollbackStorage := rollbackStorage, None;
      }
      return true;
    }

    /** The catch block of `restoreLocked`: both halves back, or an intact copy kept. */
    method Compensate(storageMoved: bool, storageInstalled: bool, faults: Faults,
                      ghost database0: Database, ghost storage0: Option<Tree>)
      returns (ok: bool)
      requires safetyBackup == Some(Archive(database0, TreeOf(storage0)))
      requires storageMoved <==> storage0.Some? && !faults.moveAside
      requires storageInstalled <==> Installs(faults, storage0.Some?)
      requires storageMoved ==> rollbackStorage == storage0
      requires !storageMoved && !storageInstalled ==> privateStorage == storage0
      requires storageMoved && !storageInstalled ==> privateStorage.None?
      requires !storageMoved ==> rollbackStorage.None?
      requires storageInstalled ==> privateStorage.Some?
      modifies this`database, this`privateStorage, this`rollbackStorage
      ensures ok <==> Compensates(faults, storage0.Some?)
      ensures ok ==> database == database0 && privateStorage == storage0
      ensures storage0.Some? ==> privateStorage == storage0 || rollbackStorage == storage0
    {
      var extracted, payload, tree := Extract(safetyBackup.value, faults.compensation);
      if !extracted {
        return false;
      }
      var imported := Import(payload, faults.compensation);
      if !imported {
        return false;
      }
      var reinstated :=
        ReinstatePrivateStorage(storageInstalled, storageMoved, faults.removeRestored, faults.moveBack);
      if !reinstated {
        return false;
      }
      ok := !faults.compensation.verify;       // the verification of the reinstated database
    }

    /** The `finally` block: the working directory goes, with all that is in it; or any part of it stays. */
    method RemoveWorkingDirectory(fails: bool) returns (ok: bool)
      modifies this`rollbackStorage, this`incomingStorage
      ensures ok <==> !fails
      ensures ok ==> rollbackStorage.None? && incomingStorage.None?
    {
      ok := !fails;
      if ok {
        rollbackStorage, incomingStorage := None, None;
      } else {
        rollbackStorage := *;
        incomingStorage := *;
      }
    }

    /** `restoreLocked`: every outcome, and exactly when it is that. */
    method RestoreLocked(archive: Archive, faults: Faults) returns (outcome: Outcome)
      requires rollbackStorage.None?
      modifies this
      ensures var had := old(privateStorage).Some?;
              outcome ==
                if !FailsEarly(faults) && !Restores(faults, had) && !Compensates(faults, had) then BothFailed
                else if faults.removeWork then WorkingFilesLeft
                else if FailsEarly(faults) then FailedUntouched
                else if Restores(faults, had) then Returned
                else SafetyReinstated
      ensures faults == NO_FAULTS ==> outcome == Returned
      ensures outcome == Returned ==>
                database == archive.database && privateStorage == Some(archive.storage)
      ensures outcome == FailedUntouched || outcome == SafetyReinstated ==>
                database == old(database) && privateStorage == old(privateStorage)
      ensures outcome == BothFailed ==>
                && safetyBackup == Some(Archive(old(database), TreeOf(old(privateStorage))))
                && (old(privateStorage).Some? ==>
                      privateStorage == old(privateStorage) || rollbackStorage == old(privateStorage))
      ensures outcome == WorkingFilesLeft ==>
                if !FailsEarly(faults) && Restores(faults, old(privateStorage).Some?)
                then database == archive.database && privateStorage == Some(archive.storage)
                else database == old(database) && privateStorage == old(privateStorage)
      ensures outcome == Returned || outcome == SafetyReinstated ==>
                safetyBackup == Some(Archive(old(database), TreeOf(old(privateStorage))))
    {
      outcome := RestoreBody(archive, faults);
      if outcome != BothFailed {
        var cleaned := RemoveWorkingDirectory(faults.removeWork);
        if !cleaned {
          return WorkingFilesLeft;
        }
      }
    }

    /** `restoreLocked` without its `finally` block. */
    method RestoreBody(archive: Archive, faults: Faults) returns (outcome: Outcome)
      requires rollbackStorage.None?
      modifies this
      ensures outcome ==
                if FailsEarly(faults) then FailedUntouched
                else if Restores(faults, old(privateStorage).Some?) then Returned
                else if Compensates(faults, old(privateStorage).Some?) then SafetyReinstated
                else BothFailed
      ensures outcome == Returned ==>
                database == archive.database && privateStorage == Some(archive.storage)
      ensures outcome == FailedUntouched || outcome == SafetyReinstated ==>
                database == old(database) && privateStorage == old(privateStorage)
      ensures outcome == BothFailed && old(privateStorage).Some? ==>
                privateStorage == old(privateStorage) || rollbackStorage == old(privateStorage)
      ensures outcome != FailedUntouched ==>
                safetyBackup == Some(Archive(old(database), TreeOf(old(privateStorage))))
    {
      var extracted, payload, tree := Extract(archive, faults.incoming);
      if !extracted {
        return FailedUntouched;
      }
      incomingStorage := Some(tree);
      var saved := CreateSafetyBackup(faults.safetyBackup);
      if !saved {
        return FailedUntouched;
      }
      if faults.noRestorer {
        return FailedUntouched;
      }
      var ok, storageMoved, storageInstalled := Mutate(payload, faults);
      if ok {
        return Returned;
      }
      var compensated := Compensate(storageMoved, storageInstalled, faults, old(database), old(privateStorage));
      return if compensated then SafetyReinstated else BothFailed;
    }
  }
}
