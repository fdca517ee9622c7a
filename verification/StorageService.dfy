/**
 The storage service's transactions as it runs them: statement after statement on its tables,
 with a rollback when one of them throws.
 */
module StorageService {
  import opened Basics
  import opened Storage
  import opened StorageRuns

  /** One row of a clean-up's query. */
  datatype Row = Row(file: Id, tenant: Id, bytes: int)

  class Tables {
    var files: map<Id, File>
    var variants: map<Id, map<Kind, int>>
    var intents: map<Id, Intent>
    var quotas: map<Id, Quota>
    var ledger: seq<Usage>

    function State(): Db
      reads this
    {
      Db(files, variants, intents, quotas, ledger)
    }

    constructor ()
      ensures State() == EMPTY.db
    {
      files, variants, intents, quotas, ledger := map[], map[], map[], map[], [];
    }

    method Rollback(saved: Db)
      modifies this
      ensures State() == saved
    {
      files, variants, intents, quotas, ledger :=
        saved.files, saved.variants, saved.intents, saved.quotas, saved.ledger;
    }

    method ReserveQuota(tenant: Id, delta: int) returns (error: Option<Error>)
      modifies this
      ensures Outcome(State(), error) == Storage.ReserveQuota(old(State()), tenant, delta)
      ensures State() == old(State()).(quotas := quotas) && quotas.Keys == old(quotas).Keys
      ensures forall t :: t in quotas ==>
                quotas[t].limit == old(quotas)[t].limit && (t != tenant ==> quotas[t] == old(quotas)[t])
      ensures delta > 0 && !(tenant in old(quotas) && old(quotas)[tenant].used + delta <= old(quotas)[tenant].limit) ==>
                error == Some(QuotaExceeded) && quotas == old(quotas)
      ensures delta <= 0 || (tenant in old(quotas) && old(quotas)[tenant].used + delta <= old(quotas)[tenant].limit) ==>
                error == None
                && (tenant in quotas ==>
                      quotas[tenant].used
                      == (if delta >= 0 || old(quotas)[tenant].used + delta >= 0 then old(quotas)[tenant].used + delta
                          else 0))
    {
      if delta == 0 {
        return None;
      }
      if delta > 0 {
        if tenant !in quotas || quotas[tenant].used + delta > quotas[tenant].limit {
          return Some(QuotaExceeded);
        }
        quotas := quotas[tenant := quotas[tenant].(used := quotas[tenant].used + delta)];
        return None;
      }
      if tenant in quotas {
        var left := quotas[tenant].used - (-delta);
        quotas := quotas[tenant := quotas[tenant].(used := if 0 < left then left else 0)];
      }
      return None;
    }

    method RecordUsage(tenant: Id, file: Id, delta: int)
      modifies this`ledger
      ensures State() == Record(old(State()), tenant, file, delta)
    {
      ledger := ledger + [Usage(tenant, Some(file), delta)];
    }

    /** Upserts the variants one by one. */
    method PersistVariants(file: Id, rows: seq<Variant>)
      modifies this`variants
      ensures variants == Storage.PersistVariants(old(variants), file, rows)
    {
      for i := 0 to |rows|
        invariant variants == Storage.PersistVariants(old(variants), file, rows[..i])
      {
        var stored := if file in variants then variants[file] else map[];
        variants := variants[file := stored[rows[i].kind := rows[i].bytes]];
        assert rows[..i + 1][..i] == rows[..i];
        ghost var base := if file in old(variants) then old(variants)[file] else map[];
        assert Upserted(base, rows[..i + 1]) == Upserted(base, rows[..i])[rows[i].kind := rows[i].bytes];
      }
      assert rows[..|rows|] == rows;
    }

    method MarkIntent(file: Id, from: IntentStatus, to: IntentStatus)
      modifies this`intents
      ensures State() == Storage.MarkIntent(old(State()), file, from, to)
    {
      if file in intents && intents[file].status == from {
        intents := intents[file := intents[file].(status := to)];
      }
    }

    method CreateUploadIntent(
        file: Id, tenant: Id, provider: Id, bytes: int, maxBytes: int, tokenHash: Id, expiresAt: int, now: int)
      returns (error: Option<Error>)
      modifies this
      ensures Outcome(State(), error)
              == Storage.CreateUploadIntent(
                   old(State()), file, tenant, provider, bytes, maxBytes, tokenHash, expiresAt, now)
      ensures error
              == if bytes < 1 then Some(FileSize)
                 else if bytes > maxBytes then Some(FileTooLarge)
                 else if tenant !in old(quotas) || old(quotas)[tenant].used + bytes > old(quotas)[tenant].limit then
                   Some(QuotaExceeded)
                 else if file in old(files) || (exists f :: f in old(intents) && old(intents)[f].tokenHash == tokenHash)
                 then Some(UniqueViolation)
                 else None
      ensures error.Some? ==> State() == old(State())
      ensures error.None? ==>
                && State() == Db(files, old(variants), intents, quotas, ledger)
                && files == old(files)[file := File(tenant, provider, bytes, Pending, now, 0)]
                && intents == old(intents)[file := Intent(tenant, bytes, tokenHash, Open, expiresAt)]
                && quotas == old(quotas)[tenant := Quota(old(quotas)[tenant].used + bytes, old(quotas)[tenant].limit)]
                && ledger == old(ledger) + [Usage(tenant, Some(file), bytes)]
    {
      if bytes < 1 { return Some(FileSize); }
      if bytes > maxBytes { return Some(FileTooLarge); }
      var saved := State();
      error := ReserveQuota(tenant, bytes);
      if error.Some? { return; }
      if file in files || exists f :: f in intents && intents[f].tokenHash == tokenHash {
        Rollback(saved);
        return Some(UniqueViolation);
      }
      files := files[file := File(tenant, provider, bytes, Pending, now, 0)];
      intents := intents[file := Intent(tenant, bytes, tokenHash, Open, expiresAt)];
      RecordUsage(tenant, file, bytes);
    }

    method UploadFile(
        file: Id, tenant: Id, provider: Id, bytes: int, maxBytes: int, content: Content, now: int)
      returns (error: Option<Error>)
      modifies this
      ensures Outcome(State(), error)
              == Storage.UploadFile(old(State()), file, tenant, provider, bytes, maxBytes, content, now)
      ensures var cost := bytes + TotalBytes(ManagedVariants(content));
              error
              == if bytes < 1 then Some(FileSize)
                 else if bytes > maxBytes then Some(FileTooLarge)
                 else if tenant !in old(quotas) || old(quotas)[tenant].used + cost > old(quotas)[tenant].limit then
                   Some(QuotaExceeded)
                 else if file in old(files) then Some(UniqueViolation)
                 else None
      ensures error.Some? ==> State() == old(State())
      ensures error.None? ==>
                var cost := bytes + TotalBytes(ManagedVariants(content));
                && files == old(files)[file := File(tenant, provider, bytes, Available, now, 0)]
                && intents == old(intents)
                && quotas == old(quotas)[tenant := Quota(old(quotas)[tenant].used + cost, old(quotas)[tenant].limit)]
                && ledger == old(ledger) + [Usage(tenant, Some(file), cost)]
                && variants == Storage.PersistVariants(old(variants), file, ManagedVariants(content))
    {
      if bytes < 1 { return Some(FileSize); }
      if bytes > maxBytes { return Some(FileTooLarge); }
      var saved := State();
      var rows := ManagedVariants(content);
      var delta := bytes + TotalBytes(rows);
      error := ReserveQuota(tenant, delta);
      if error.Some? { return; }
      if file in files {
        Rollback(saved);
        return Some(UniqueViolation);
      }
      files := files[file := File(tenant, provider, bytes, Available, now, 0)];
      PersistVariants(file, rows);
      RecordUsage(tenant, file, delta);
    }

    method ClaimIntent(file: Id, tokenHash: Id, now: int) returns (claimed: Option<Intent>)
      modifies this`intents
      ensures Outcome(State(), if claimed.Some? then None else Some(InvalidIntent))
              == Storage.ClaimIntent(old(State()), file, tokenHash, now)
      ensures claimed.Some? ==> file in intents && claimed.value == intents[file]
    {
      if file in intents && intents[file].tokenHash == tokenHash && intents[file].status.Open?
         && intents[file].expiresAt > now && file in files && files[file].status.Pending?
      {
        intents := intents[file := intents[file].(status := Processing)];
        claimed := Some(intents[file]);
      } else {
        claimed := None;
      }
    }

    /** The completing transaction: the guarded file update comes first, so a later error must undo it. */
    method CompleteUpload(file: Id, tenant: Id, reserved: int, received: int, content: Content)
      returns (error: Option<Error>)
      modifies this
      ensures Outcome(State(), error) == Storage.CompleteUpload(old(State()), file, tenant, reserved, received, content)
    {
      var saved := State();
      if file !in files || !files[file].status.Pending? {
        return Some(AlreadyCompleted);
      }
      var rows := ManagedVariants(content);
      var delta := received + TotalBytes(rows) - reserved;
      files := files[file := files[file].(status := Available, bytes := received)];
      error := ReserveQuota(tenant, delta);
      if error.Some? {
        Rollback(saved);
        return;
      }
      MarkIntent(file, Processing, Completed);
      PersistVariants(file, rows);
      RecordUsage(tenant, file, delta);
    }

    method Abandon(file: Id, tenant: Id, bytes: int)
      modifies this
      ensures State() == Storage.Abandon(old(State()), file, tenant, bytes)
      ensures file !in old(files) || old(files)[file].status != Pending ==> State() == old(State())
      ensures file in old(files) && old(files)[file].status == Pending ==>
                && State() == Db(files, old(variants), old(intents), quotas, ledger)
                && files == old(files)[file := old(files)[file].(status := Abandoned)]
                && quotas.Keys == old(quotas).Keys && quotas - {tenant} == old(quotas) - {tenant}
                && (tenant in quotas && bytes >= 0 ==>
                      quotas[tenant].limit == old(quotas)[tenant].limit
                      && quotas[tenant].used
                         == if bytes == 0 || old(quotas)[tenant].used >= bytes then old(quotas)[tenant].used - bytes
                            else 0)
                && ledger == old(ledger) + [Usage(tenant, Some(file), -bytes)]
    {
      if file in files && files[file].status.Pending? {
        files := files[file := files[file].(status := Abandoned)];
        var _ := ReserveQuota(tenant, -bytes);
        RecordUsage(tenant, file, -bytes);
      }
    }

    method RecoverUpload(file: Id, tenant: Id, reserved: int, error: Error, now: int)
      modifies this
      ensures State() == Storage.RecoverUpload(old(State()), file, tenant, reserved, error, now)
    {
      if PermanentFailure(error) {
        Abandon(file, tenant, reserved);
        MarkIntent(file, Processing, Expired);
      } else if file in intents && intents[file].expiresAt > now {
        MarkIntent(file, Processing, Open);
      }
    }

    /** What a completion does with its claimed intent: the checks, then the transaction. */
    method FinishClaimed(
        task: Task, failure: Option<Error>, declared: int, received: int, content: Content)
      returns (error: Option<Error>, ghost step: Step)
      requires task.Completing?
      modifies this
      ensures Next(Sys(old(State()), multiset{task}), step)
              == Sys(State(), if error.None? then multiset{}
                              else multiset{Failing(task.file, task.tenant, task.bytes, error.value)})
      ensures error.None? ==> IsAvailable(State(), task.file) && files[task.file].bytes == received == task.bytes
      ensures error.Some? ==> State() == old(State())
    {
      FinishOrFail(Sys(State(), multiset{task}), task, failure, declared, received, content);
      step := if failure.Some? then StorageRuns.Fail(task, failure.value)
              else Finish(task, declared, received, content);
      if failure.Some? {
        return failure, step;
      }
      if !SizesAgree(task.bytes, declared, received) {
        return Some(SizeMismatch), step;
      }
      error := CompleteUpload(task.file, task.tenant, task.bytes, received, content);
      if error.None? { CompletedIsAvailable(old(State()), task, received, content); }
    }

    /**
     A completion nothing interrupts: the claim, the checks (`failure` is what they throw, if not the size), the
     transaction, and the recovery of whatever threw.  It is a run of the protocol's steps that leaves no task.  Whoever
     does not hold the token of an open, unexpired intent of a pending file gets the one error and changes nothing;
     whoever does makes the file available with the reserved size, or not at all.
     */
    method CompleteUploadIntent(
        file: Id, tokenHash: Id, failure: Option<Error>, declared: int, received: int, content: Content,
        now: int, later: int)
      returns (error: Option<Error>, ghost steps: seq<Step>)
      modifies this
      ensures Run(Sys(old(State()), multiset{}), [Claim(file, tokenHash, now)] + steps) == Sys(State(), multiset{})
      ensures !(file in old(intents) && old(intents)[file].tokenHash == tokenHash && old(intents)[file].status.Open?
                && old(intents)[file].expiresAt > now && file in old(files) && old(files)[file].status.Pending?) ==>
                error == Some(InvalidIntent) && State() == old(State())
      ensures error.None? ==>
                file in old(intents) && old(intents)[file].tokenHash == tokenHash && old(intents)[file].status.Open?
                && old(intents)[file].expiresAt > now && file in old(files) && old(files)[file].status.Pending?
      ensures error.None? ==>
                file in files && files[file].status.Available? && file in old(intents)
                && files[file].bytes == received == old(intents)[file].bytes
      ensures error.Some? && !IsAvailable(old(State()), file) ==> !IsAvailable(State(), file)
    {
      ClaimsExactlyWhen(State(), file, tokenHash, now);
      hide Next, Storage.RecoverUpload, Storage.CompleteUpload;
      ghost var before := State();
      var claimed := ClaimIntent(file, tokenHash, now);
      ClaimStarts(before, file, tokenHash, now);
      steps := [];
      if claimed.None? {
        RunOf(Sys(before, multiset{}), Claim(file, tokenHash, now), []);
        return Some(InvalidIntent), steps;
      }
      var task := Completing(file, claimed.value.tenant, claimed.value.bytes);
      ghost var during := Sys(State(), multiset{task});
      ghost var step;
      error, step := FinishClaimed(task, failure, declared, received, content);
      if error.None? {
        steps := [step];
        RunOf(Sys(before, multiset{}), Claim(file, tokenHash, now), steps);
        RunOf(during, step, []);
        return;
      }
      ghost var failing := Failing(file, task.tenant, task.bytes, error.value);
      ghost var failed := Sys(State(), multiset{failing});
      RecoverEnds(failed, failing, later);
      RecoveredIsNotAvailable(State(), task, error.value, later);
      RecoverUpload(file, task.tenant, task.bytes, error.value, later);
      steps := [step, StorageRuns.Recover(failing, later)];
      RunOf(Sys(before, multiset{}), Claim(file, tokenHash, now), steps);
      RunOf(during, step, [StorageRuns.Recover(failing, later)]);
      RunOf(failed, StorageRuns.Recover(failing, later), []);
    }

    method DeleteFile(file: Id, tenant: Id, total: int, now: int) returns (error: Option<Error>)
      modifies this
      ensures Outcome(State(), error) == Storage.DeleteFile(old(State()), file, tenant, total, now)
      ensures error
              == if file in old(files) && old(files)[file].status == Available then None else Some(NotAvailable)
      ensures error.Some? ==> State() == old(State())
      ensures error.None? ==>
                && State() == Db(files, old(variants), old(intents), quotas, ledger)
                && files == old(files)[file := old(files)[file].(status := Deleted, deletedAt := now)]
                && quotas.Keys == old(quotas).Keys && quotas - {tenant} == old(quotas) - {tenant}
                && (tenant in quotas && total >= 0 ==>
                      quotas[tenant].limit == old(quotas)[tenant].limit
                      && quotas[tenant].used
                         == if total == 0 || old(quotas)[tenant].used >= total then old(quotas)[tenant].used - total
                            else 0)
                && ledger == old(ledger) + [Usage(tenant, Some(file), -total)]
    {
      if file !in files || !files[file].status.Available? {
        return Some(NotAvailable);
      }
      files := files[file := files[file].(status := Deleted, deletedAt := now)];
      var _ := ReserveQuota(tenant, -total);
      RecordUsage(tenant, file, -total);
      return None;
    }

    method ExpireIntent(file: Id, tenant: Id, bytes: int, provider: Id)
      modifies this
      ensures State() == Storage.ExpireIntent(old(State()), file, tenant, bytes, provider)
    {
      MarkIntent(file, Open, Expired);
      if file in files && files[file].provider == provider {
        Abandon(file, tenant, bytes);
      }
    }

    method ReleaseOrphan(file: Id, tenant: Id, bytes: int, provider: Id)
      modifies this
      ensures State() == Storage.ReleaseOrphan(old(State()), file, tenant, bytes, provider)
    {
      if file in files && files[file].provider == provider {
        Abandon(file, tenant, bytes);
      }
    }

    /** The guarded delete, with its cascades. */
    method PurgeFile(file: Id, provider: Id)
      modifies this
      ensures State() == Storage.PurgeFile(old(State()), file, provider)
    {
      if file in files && files[file].status.Deleted? && files[file].provider == provider {
        files := files - {file};
        variants := variants - {file};
        intents := intents - {file};
        ledger := Unlinked(ledger, file);
      }
    }

    /** The loop over the rows of the expired-intents query; a row whose object cannot be deleted is skipped. */
    method CleanupExpiredUploadIntents(rows: seq<Row>, objectDeleted: seq<bool>, provider: Id) returns (cleaned: nat)
      requires |objectDeleted| == |rows|
      modifies this
      ensures CleanedUp(old(State()), ExpiredIntents, rows, objectDeleted, provider, State(), cleaned)
    {
      cleaned := 0;
      ghost var start := Sys(State(), Reading(ExpiredIntents, rows, provider));
      for i := 0 to |rows|
        invariant HalfCleaned(start, ExpiredIntents, rows, objectDeleted, provider, i, State(), cleaned)
      {
        CleanupAdvances(start, ExpiredIntents, rows, objectDeleted, provider, i, State(), cleaned);
        if objectDeleted[i] {
          ExpireIntent(rows[i].file, rows[i].tenant, rows[i].bytes, provider);
          cleaned := cleaned + 1;
        }
      }
      CleanupEnds(start, ExpiredIntents, rows, objectDeleted, provider, State(), cleaned);
    }

    /** The loop over the rows of the orphaned-files query. */
    method CleanupOrphanedFiles(rows: seq<Row>, objectDeleted: seq<bool>, provider: Id) returns (cleaned: nat)
      requires |objectDeleted| == |rows|
      modifies this
      ensures CleanedUp(old(State()), OrphanedFiles, rows, objectDeleted, provider, State(), cleaned)
    {
      cleaned := 0;
      ghost var start := Sys(State(), Reading(OrphanedFiles, rows, provider));
      for i := 0 to |rows|
        invariant HalfCleaned(start, OrphanedFiles, rows, objectDeleted, provider, i, State(), cleaned)
      {
        CleanupAdvances(start, OrphanedFiles, rows, objectDeleted, provider, i, State(), cleaned);
        if objectDeleted[i] {
          ReleaseOrphan(rows[i].file, rows[i].tenant, rows[i].bytes, provider);
          cleaned := cleaned + 1;
        }
      }
      CleanupEnds(start, OrphanedFiles, rows, objectDeleted, provider, State(), cleaned);
    }

    /** The loop over the rows of the deleted-files query. */
    method CleanupDeletedFiles(rows: seq<Row>, objectDeleted: seq<bool>, provider: Id) returns (cleaned: nat)
      requires |objectDeleted| == |rows|
      modifies this
      ensures CleanedUp(old(State()), DeletedFiles, rows, objectDeleted, provider, State(), cleaned)
    {
      cleaned := 0;
      ghost var start := Sys(State(), Reading(DeletedFiles, rows, provider));
      for i := 0 to |rows|
        invariant HalfCleaned(start, DeletedFiles, rows, objectDeleted, provider, i, State(), cleaned)
      {
        CleanupAdvances(start, DeletedFiles, rows, objectDeleted, provider, i, State(), cleaned);
        if objectDeleted[i] {
          PurgeFile(rows[i].file, provider);
          cleaned := cleaned + 1;
        }
      }
      CleanupEnds(start, DeletedFiles, rows, objectDeleted, provider, State(), cleaned);
    }
  }

  // ----- a completion as a run

  predicate IsAvailable(db: Db, file: Id) { file in db.files && db.files[file].status.Available? }

  lemma RunOf(s: Sys, step: Step, rest: seq<Step>)
    ensures Run(s, [step] + rest) == Run(Next(s, step), rest)
    ensures rest == [] ==> Run(s, [step]) == Next(s, step)
    ensures |rest| == 1 ==> [step] + rest == [step, rest[0]]
  {
    hide Next;
    assert ([step] + rest)[1..] == rest;
    if rest == [] { assert [step] + rest == [step]; }
  }

  lemma ClaimStarts(db: Db, file: Id, tokenHash: Id, now: int)
    ensures var claim := Storage.ClaimIntent(db, file, tokenHash, now);
            Next(Sys(db, multiset{}), Claim(file, tokenHash, now))
            == if claim.error.Some? then Sys(db, multiset{})
               else Sys(claim.db, multiset{Completing(file, db.intents[file].tenant, db.intents[file].bytes)})
    ensures Storage.ClaimIntent(db, file, tokenHash, now).error.None? ==> file in db.intents
    ensures IsAvailable(Storage.ClaimIntent(db, file, tokenHash, now).db, file) == IsAvailable(db, file)
  {
  }

  lemma CompletedIsAvailable(db: Db, task: Task, received: int, content: Content)
    requires task.Completing?
             && Storage.CompleteUpload(db, task.file, task.tenant, task.bytes, received, content).error.None?
    ensures var done := Storage.CompleteUpload(db, task.file, task.tenant, task.bytes, received, content).db;
            IsAvailable(done, task.file) && done.files[task.file].bytes == received
  {
    hide Storage.PersistVariants, ManagedVariants, TotalBytes;
  }

  lemma RecoveredIsNotAvailable(db: Db, task: Task, error: Error, now: int)
    requires task.Completing?
    ensures IsAvailable(Storage.RecoverUpload(db, task.file, task.tenant, task.bytes, error, now), task.file) ==>
              IsAvailable(db, task.file)
  {
  }

  /** What the middle of a completion does: its end, or a failure to recover from. */
  lemma FinishOrFail(
      s: Sys, task: Task, failure: Option<Error>, declared: int, received: int, content: Content)
    requires task.Completing? && s.tasks == multiset{task}
    ensures var done := Storage.CompleteUpload(s.db, task.file, task.tenant, task.bytes, received, content);
            var error := if failure.Some? then failure
                         else if !SizesAgree(task.bytes, declared, received) then Some(SizeMismatch)
                         else done.error;
            var step := if failure.Some? then StorageRuns.Fail(task, failure.value)
                        else Finish(task, declared, received, content);
            Next(s, step)
            == if error.None? then Sys(done.db, multiset{})
               else Sys(s.db, multiset{Failing(task.file, task.tenant, task.bytes, error.value)})
  {
    hide Storage.CompleteUpload;
  }

  lemma RecoverEnds(s: Sys, task: Task, now: int)
    requires task.Failing? && s.tasks == multiset{task}
    ensures Next(s, StorageRuns.Recover(task, now))
            == Sys(Storage.RecoverUpload(s.db, task.file, task.tenant, task.bytes, task.error, now), multiset{})
  {
    hide Storage.RecoverUpload;
  }

  // ----- the clean-up loops as runs

  datatype Cleanup = ExpiredIntents | OrphanedFiles | DeletedFiles

  /** The task that a clean-up has for a row it has read. */
  function TaskFor(cleanup: Cleanup, row: Row, provider: Id): Task {
    match cleanup
    case ExpiredIntents => Expiring(row.file, row.tenant, row.bytes, provider)
    case OrphanedFiles => Orphaned(row.file, row.tenant, row.bytes, provider)
    case DeletedFiles => Purging(row.file, provider)
  }

  /** The step of one turn: the transaction if the object is deleted; otherwise the row is dropped. */
  function TurnStep(cleanup: Cleanup, row: Row, objectDeleted: bool, provider: Id): Step {
    var task := TaskFor(cleanup, row, provider);
    if !objectDeleted then Crash(task)
    else
      match cleanup
      case ExpiredIntents => CommitExpire(task)
      case OrphanedFiles => CommitOrphan(task)
      case DeletedFiles => CommitPurge(task)
  }

  /** What the transaction of a turn leaves. */
  function TurnTables(db: Db, cleanup: Cleanup, row: Row, objectDeleted: bool, provider: Id): Db {
    if !objectDeleted then db
    else
      match cleanup
      case ExpiredIntents => Storage.ExpireIntent(db, row.file, row.tenant, row.bytes, provider)
      case OrphanedFiles => Storage.ReleaseOrphan(db, row.file, row.tenant, row.bytes, provider)
      case DeletedFiles => Storage.PurgeFile(db, row.file, provider)
  }

  /** The tasks of a clean-up that has read `rows`. */
  function Reading(cleanup: Cleanup, rows: seq<Row>, provider: Id): multiset<Task> {
    if rows == [] then multiset{}
    else multiset{TaskFor(cleanup, rows[0], provider)} + Reading(cleanup, rows[1..], provider)
  }

  lemma ReadingHead(cleanup: Cleanup, rows: seq<Row>, provider: Id)
    requires rows != []
    ensures var first := TaskFor(cleanup, rows[0], provider);
            first in Reading(cleanup, rows, provider)
            && Reading(cleanup, rows, provider) - multiset{first} == Reading(cleanup, rows[1..], provider)
  {
  }

  function CleanupSteps(cleanup: Cleanup, rows: seq<Row>, objectDeleted: seq<bool>, provider: Id): seq<Step>
    requires |objectDeleted| == |rows|
    decreases |rows|
  {
    if rows == [] then []
    else
      var n := |rows| - 1;
      CleanupSteps(cleanup, rows[..n], objectDeleted[..n], provider)
      + [TurnStep(cleanup, rows[n], objectDeleted[n], provider)]
  }

  /**
   A clean-up is the run of its turns' steps, from the tables with its rows read, and it counts the deleted objects.
   */
  ghost predicate CleanedUp(
      before: Db, cleanup: Cleanup, rows: seq<Row>, objectDeleted: seq<bool>, provider: Id, after: Db, cleaned: nat)
    requires |objectDeleted| == |rows|
  {
    Run(Sys(before, Reading(cleanup, rows, provider)), CleanupSteps(cleanup, rows, objectDeleted, provider))
    == Sys(after, multiset{})
    && cleaned == |Cleaned(objectDeleted)|
  }

  ghost predicate HalfCleaned(
      start: Sys, cleanup: Cleanup, rows: seq<Row>, objectDeleted: seq<bool>, provider: Id, i: nat, db: Db,
      cleaned: nat)
    requires |objectDeleted| == |rows| && i <= |rows|
  {
    Run(start, CleanupSteps(cleanup, rows[..i], objectDeleted[..i], provider))
    == Sys(db, Reading(cleanup, rows[i..], provider))
    && cleaned == |Cleaned(objectDeleted[..i])|
  }

  /** One turn of a clean-up loop. */
  lemma CleanupAdvances(
      start: Sys, cleanup: Cleanup, rows: seq<Row>, objectDeleted: seq<bool>, provider: Id, i: nat, db: Db,
      cleaned: nat)
    requires |objectDeleted| == |rows| && i < |rows|
    requires HalfCleaned(start, cleanup, rows, objectDeleted, provider, i, db, cleaned)
    ensures HalfCleaned(start, cleanup, rows, objectDeleted, provider, i + 1,
                        TurnTables(db, cleanup, rows[i], objectDeleted[i], provider),
                        cleaned + if objectDeleted[i] then 1 else 0)
  {
    hide TurnTables, TurnStep, TaskFor, Next, Run;
    var step := TurnStep(cleanup, rows[i], objectDeleted[i], provider);
    assert rows[..i + 1][..i] == rows[..i] && objectDeleted[..i + 1][..i] == objectDeleted[..i];
    RunLast(start, CleanupSteps(cleanup, rows[..i], objectDeleted[..i], provider), step);
    ReadingHead(cleanup, rows[i..], provider);
    CleanupTurn(db, Reading(cleanup, rows[i..], provider), cleanup, rows[i], objectDeleted[i], provider);
    assert rows[i..][1..] == rows[i + 1..];
    assert objectDeleted[..i + 1][i] == objectDeleted[i] && rows[..i + 1][i] == rows[i];
  }

  lemma CleanupEnds(
      start: Sys, cleanup: Cleanup, rows: seq<Row>, objectDeleted: seq<bool>, provider: Id, db: Db, cleaned: nat)
    requires |objectDeleted| == |rows|
    requires HalfCleaned(start, cleanup, rows, objectDeleted, provider, |rows|, db, cleaned)
    ensures Run(start, CleanupSteps(cleanup, rows, objectDeleted, provider)) == Sys(db, multiset{})
    ensures cleaned == |Cleaned(objectDeleted)|
  {
    hide Run;
    assert rows[..|rows|] == rows && objectDeleted[..|rows|] == objectDeleted && rows[|rows|..] == [];
  }

  /** A turn's step does what the turn's transaction does, and ends the row's task. */
  lemma CleanupTurn(db: Db, tasks: multiset<Task>, cleanup: Cleanup, row: Row, objectDeleted: bool, provider: Id)
    requires TaskFor(cleanup, row, provider) in tasks
    ensures Next(Sys(db, tasks), TurnStep(cleanup, row, objectDeleted, provider))
            == Sys(TurnTables(db, cleanup, row, objectDeleted, provider),
                   tasks - multiset{TaskFor(cleanup, row, provider)})
  {
    TurnIsEnabled(Sys(db, tasks), cleanup, row, objectDeleted, provider);
    TurnWrites(db, cleanup, row, objectDeleted, provider);
    TurnEndsItsTask(db, cleanup, row, objectDeleted, provider);
    hide StorageRuns.Tables, Started, Ended, Enabled, TurnTables, TurnStep, TaskFor;
  }

  lemma TurnIsEnabled(s: Sys, cleanup: Cleanup, row: Row, objectDeleted: bool, provider: Id)
    requires TaskFor(cleanup, row, provider) in s.tasks
    ensures Enabled(s, TurnStep(cleanup, row, objectDeleted, provider))
  {
  }

  lemma TurnWrites(db: Db, cleanup: Cleanup, row: Row, objectDeleted: bool, provider: Id)
    ensures StorageRuns.Tables(db, TurnStep(cleanup, row, objectDeleted, provider))
            == TurnTables(db, cleanup, row, objectDeleted, provider)
  {
    hide Storage.ExpireIntent, Storage.ReleaseOrphan, Storage.PurgeFile;
  }

  lemma TurnEndsItsTask(db: Db, cleanup: Cleanup, row: Row, objectDeleted: bool, provider: Id)
    ensures Ended(TurnStep(cleanup, row, objectDeleted, provider)) == multiset{TaskFor(cleanup, row, provider)}
    ensures Started(db, TurnStep(cleanup, row, objectDeleted, provider)) == multiset{}
  {
  }

  function Cleaned(objectDeleted: seq<bool>): seq<bool> {
    if objectDeleted == [] then []
    else
      var n := |objectDeleted| - 1;
      Cleaned(objectDeleted[..n]) + if objectDeleted[n] then [true] else []
  }

  lemma {:induction false} RunLast(s: Sys, steps: seq<Step>, last: Step)
    ensures Run(s, steps + [last]) == Next(Run(s, steps), last)
    decreases |steps|
  {
    if steps == [] {
      assert (steps + [last])[1..] == [];
    } else {
      assert (steps + [last])[1..] == steps[1..] + [last];
      RunLast(Next(s, steps[0]), steps[1..], last);
    }
  }
}
