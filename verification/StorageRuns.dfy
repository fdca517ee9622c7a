/**
 Every interleaving of the storage service's operations.

 An operation that reads rows, works on them and writes later is a task in flight: it keeps what it read.
 A run is any sequence of single transactions taken by any number of tasks; a task may also die at any point.
 */
module StorageRuns {
  import opened Basics
  import opened Sums
  import opened Storage

  /** What an operation in flight remembers from its reads. */
  datatype Task =
    | Completing(file: Id, tenant: Id, bytes: int)
    | Failing(file: Id, tenant: Id, bytes: int, error: Error)
    | Sizing(file: Id, tenant: Id, bytes: int)
    | Deleting(file: Id, tenant: Id, bytes: int)
    | Expiring(file: Id, tenant: Id, bytes: int, provider: Id)
    | Orphaned(file: Id, tenant: Id, bytes: int, provider: Id)
    | Purging(file: Id, provider: Id)

  datatype Sys = Sys(db: Db, tasks: multiset<Task>)

  datatype Step =
    | CreateIntent(
        file: Id, tenant: Id, provider: Id, bytes: int, maxBytes: int, tokenHash: Id, expiresAt: int, now: int)
    | Upload(file: Id, tenant: Id, provider: Id, bytes: int, maxBytes: int, content: Content, now: int)
    | Claim(file: Id, tokenHash: Id, now: int)
    | Finish(task: Task, declared: int, received: int, content: Content)
    | Fail(task: Task, error: Error)
    | Recover(task: Task, now: int)
    | ReadForDelete(file: Id)
    | ReadVariants(task: Task)
    | CommitDelete(task: Task, now: int)
    | SelectExpired(file: Id, provider: Id, now: int)
    | CommitExpire(task: Task)
    | SelectOrphan(file: Id, provider: Id, olderThan: int)
    | CommitOrphan(task: Task)
    | SelectDeleted(file: Id, provider: Id, olderThan: int)
    | CommitPurge(task: Task)
    | AddQuota(tenant: Id, initialLimit: nat)
    | ChangeLimit(tenant: Id, limit: int)
    | Crash(task: Task)

  function RowSum(rows: map<Kind, int>): int {
    (if Optimized in rows then rows[Optimized] else 0)
    + (if Thumbnail in rows then rows[Thumbnail] else 0)
    + (if DocumentPreview in rows then rows[DocumentPreview] else 0)
  }

  /** Whether a step can be taken: its task exists and has got that far, or its row matches the query. */
  predicate Enabled(s: Sys, step: Step) {
    match step
    case Claim(f, hash, now) => ClaimIntent(s.db, f, hash, now).error.None?
    case Finish(task, _, _, _) => task in s.tasks && task.Completing?
    case Fail(task, _) => task in s.tasks && task.Completing?
    case Recover(task, _) => task in s.tasks && task.Failing?
    case ReadForDelete(f) => f in s.db.files && s.db.files[f].status.Available?
    case ReadVariants(task) => task in s.tasks && task.Sizing?
    case CommitDelete(task, _) => task in s.tasks && task.Deleting?
    case SelectExpired(f, p, now) =>
      f in s.db.intents && f in s.db.files && s.db.intents[f].status.Open? && s.db.intents[f].expiresAt <= now
      && s.db.files[f].provider == p
    case CommitExpire(task) => task in s.tasks && task.Expiring?
    case SelectOrphan(f, p, olderThan) =>
      f in s.db.files && s.db.files[f].status.Pending? && s.db.files[f].createdAt < olderThan
      && s.db.files[f].provider == p
      && !(f in s.db.intents && (s.db.intents[f].status.Open? || s.db.intents[f].status.Processing?))
    case CommitOrphan(task) => task in s.tasks && task.Orphaned?
    case SelectDeleted(f, p, olderThan) =>
      f in s.db.files && s.db.files[f].status.Deleted? && s.db.files[f].deletedAt < olderThan
      && s.db.files[f].provider == p
    case CommitPurge(task) => task in s.tasks && task.Purging?
    case _ => true
  }

  /** The tables after a step. */
  function Tables(db: Db, step: Step): Db {
    match step
    case CreateIntent(f, t, p, bytes, maxBytes, hash, expiresAt, now) =>
      CreateUploadIntent(db, f, t, p, bytes, maxBytes, hash, expiresAt, now).db
    case Upload(f, t, p, bytes, maxBytes, content, now) => UploadFile(db, f, t, p, bytes, maxBytes, content, now).db
    case Claim(f, hash, now) => ClaimIntent(db, f, hash, now).db
    case Finish(Completing(f, t, b), declared, received, content) =>
      if SizesAgree(b, declared, received) then CompleteUpload(db, f, t, b, received, content).db else db
    case Recover(Failing(f, t, b, error), now) => RecoverUpload(db, f, t, b, error, now)
    case CommitDelete(Deleting(f, t, b), now) => DeleteFile(db, f, t, b, now).db
    case CommitExpire(Expiring(f, t, b, p)) => ExpireIntent(db, f, t, b, p)
    case CommitOrphan(Orphaned(f, t, b, p)) => ReleaseOrphan(db, f, t, b, p)
    case CommitPurge(Purging(f, p)) => PurgeFile(db, f, p)
    case AddQuota(t, limit) => OpenQuota(db, t, limit)
    case ChangeLimit(t, limit) => SetLimit(db, t, limit)
    case _ => db
  }

  /** The task a step starts or goes on as, with what it has read. */
  function Started(db: Db, step: Step): multiset<Task> {
    match step
    case Claim(f, _, _) =>
      if f in db.intents then multiset{Completing(f, db.intents[f].tenant, db.intents[f].bytes)} else multiset{}
    case Finish(Completing(f, t, b), declared, received, content) =>
      if !SizesAgree(b, declared, received) then multiset{Failing(f, t, b, SizeMismatch)}
      else
        var done := CompleteUpload(db, f, t, b, received, content);
        if done.error.None? then multiset{} else multiset{Failing(f, t, b, done.error.value)}
    case Fail(Completing(f, t, b), error) => multiset{Failing(f, t, b, error)}
    case ReadForDelete(f) =>
      if f in db.files then multiset{Sizing(f, db.files[f].tenant, db.files[f].bytes)} else multiset{}
    case ReadVariants(Sizing(f, t, b)) => multiset{Deleting(f, t, b + RowSum(VariantRows(db, f)))}
    case SelectExpired(f, p, _) =>
      if f in db.intents then multiset{Expiring(f, db.intents[f].tenant, db.intents[f].bytes, p)} else multiset{}
    case SelectOrphan(f, p, _) =>
      if f in db.files then multiset{Orphaned(f, db.files[f].tenant, db.files[f].bytes, p)} else multiset{}
    case SelectDeleted(f, p, _) => multiset{Purging(f, p)}
    case _ => multiset{}
  }

  /** The task whose turn it was, if the step belongs to one. */
  function Ended(step: Step): multiset<Task> {
    if HasTask(step) then multiset{step.task} else multiset{}
  }

  predicate HasTask(step: Step) {
    step.Finish? || step.Fail? || step.Recover? || step.ReadVariants? || step.CommitDelete? || step.CommitExpire?
    || step.CommitOrphan? || step.CommitPurge? || step.Crash?
  }

  /** One atomic step; a step that is not enabled changes nothing. */
  function Next(s: Sys, step: Step): Sys {
    if Enabled(s, step) then Sys(Tables(s.db, step), s.tasks - Ended(step) + Started(s.db, step)) else s
  }

  /** The service's checks that the uploaded object has the size the intent reserved. */
  predicate SizesAgree(reserved: int, declared: int, received: int) {
    declared == reserved && received == declared
  }

  function Run(s: Sys, steps: seq<Step>): Sys
    decreases |steps|
  {
    if steps == [] then s else Run(Next(s, steps[0]), steps[1..])
  }

  /**
   Which files each clean-up reads: those with an open intent that has expired, pending ones whose intent, if any, is
   completed or expired, and deleted ones; the last two only from before a time.
   */
  lemma CleanupsRead(s: Sys, f: Id, provider: Id, at: int)
    ensures Enabled(s, SelectExpired(f, provider, at)) <==>
              f in s.db.files && s.db.files[f].provider == provider
              && f in s.db.intents && s.db.intents[f].status.Open? && !(at < s.db.intents[f].expiresAt)
    ensures Enabled(s, SelectOrphan(f, provider, at)) <==>
              f in s.db.files && s.db.files[f].provider == provider && s.db.files[f].status == Pending
              && s.db.files[f].createdAt < at
              && (f in s.db.intents ==> s.db.intents[f].status.Completed? || s.db.intents[f].status.Expired?)
    ensures Enabled(s, SelectDeleted(f, provider, at)) <==>
              f in s.db.files && s.db.files[f].provider == provider && s.db.files[f].status == Deleted
              && s.db.files[f].deletedAt < at
  {
  }

  /** What a clean-up or a deletion remembers of the file it has read; it writes nothing yet. */
  lemma ReadsRemember(db: Db, f: Id, provider: Id, at: int)
    requires f in db.files
    ensures Started(db, ReadForDelete(f)) == multiset{Sizing(f, db.files[f].tenant, db.files[f].bytes)}
    ensures f in db.intents ==>
              Started(db, SelectExpired(f, provider, at))
              == multiset{Expiring(f, db.intents[f].tenant, db.intents[f].bytes, provider)}
    ensures Started(db, SelectOrphan(f, provider, at))
            == multiset{Orphaned(f, db.files[f].tenant, db.files[f].bytes, provider)}
    ensures Started(db, SelectDeleted(f, provider, at)) == multiset{Purging(f, provider)}
    ensures db == Tables(db, ReadForDelete(f)) == Tables(db, SelectExpired(f, provider, at))
            == Tables(db, SelectOrphan(f, provider, at)) == Tables(db, SelectDeleted(f, provider, at))
  {
  }

  const EMPTY: Sys := Sys(Db(map[], map[], map[], map[], []), multiset{})

  // ----- what holds in every state

  /** What a task read still tells the truth about its file, if the file is still in the state it was read in. */
  ghost predicate TaskOk(db: Db, task: Task) {
    task.file in db.files ==>
      var file := db.files[task.file];
      match task
      case Sizing(_, t, b) => !file.status.Pending? && (file.status.Available? ==> t == file.tenant && b == file.bytes)
      case Deleting(_, t, b) =>
        !file.status.Pending? && (file.status.Available? ==> t == file.tenant && b == Charge(db, task.file))
      case Purging(_, _) => true
      case Completing(_, t, b) => file.status.Pending? ==> t == file.tenant && b == file.bytes
      case Failing(_, t, b, _) => file.status.Pending? ==> t == file.tenant && b == file.bytes
      case Expiring(_, t, b, _) => file.status.Pending? ==> t == file.tenant && b == file.bytes
      case Orphaned(_, t, b, _) => file.status.Pending? ==> t == file.tenant && b == file.bytes
  }

  ghost predicate Inv(s: Sys) {
    Balanced(s.db) && forall k :: k in s.tasks ==> TaskOk(s.db, k)
  }

  /** A new file's id is not the id of a file that an operation still in flight has read. */
  ghost predicate Fresh(s: Sys, step: Step) {
    (step.CreateIntent? || step.Upload?) ==> forall k :: k in s.tasks ==> k.file != step.file
  }

  ghost predicate FreshRun(s: Sys, steps: seq<Step>)
    decreases |steps|
  {
    steps != [] ==> Fresh(s, steps[0]) && FreshRun(Next(s, steps[0]), steps[1..])
  }

  // ----- the file life cycle only moves forward

  ghost predicate Forward(db: Db, db': Db, file: Id)
    requires file in db.files && file in db'.files
  {
    var before, after := db.files[file], db'.files[file];
    && after.tenant == before.tenant
    && match before.status
       case Pending => after.status.Pending? ==> after.bytes == before.bytes
       case Available =>
         (after.status.Available? && after == before && VariantRows(db', file) == VariantRows(db, file))
         || after.status.Deleted?
       case Deleted => after.status.Deleted?
       case Abandoned => after.status.Abandoned?
  }

  /** No file goes back to an earlier state of its life, and only `created` may appear. */
  ghost predicate FileAdvances(db: Db, db': Db, created: set<Id>, f: Id) {
    f in db'.files ==> if f in db.files then Forward(db, db', f) else f in created
  }

  ghost predicate Advances(db: Db, db': Db, created: set<Id>) {
    forall f: Id :: FileAdvances(db, db', created, f)
  }

  lemma AdvancesFrame(db: Db, db': Db, created: set<Id>, file: Id)
    requires OnlyRowsOf(db, db', file) && FileAdvances(db, db', created, file)
    ensures Advances(db, db', created)
  {
    forall f: Id ensures FileAdvances(db, db', created, f) {
      if f != file { SameRowsSameCharge(db, db', f); }
    }
  }

  lemma TaskSurvives(db: Db, db': Db, created: set<Id>, task: Task)
    requires Advances(db, db', created) && task.file !in created && TaskOk(db, task)
    ensures TaskOk(db', task)
  {
    assert FileAdvances(db, db', created, task.file);
  }

  // ----- what each transaction moves

  /** A transaction that moves `delta` bytes for one file if it commits, and does nothing if it throws. */
  ghost predicate Transfer(db: Db, done: Outcome, f: Id, t: Id, delta: int, created: set<Id>) {
    if done.error.None? then Moved(db, done.db, f, t, delta) && FileAdvances(db, done.db, created, f) else done.db == db
  }

  lemma TransferKeeps(db: Db, done: Outcome, f: Id, t: Id, delta: int, created: set<Id>)
    requires Balanced(db) && Transfer(db, done, f, t, delta, created)
    ensures Balanced(done.db) && Advances(db, done.db, created)
  {
    if done.error.None? {
      Move(db, done.db, f, t, delta);
      AdvancesFrame(db, done.db, created, f);
    }
  }

  lemma CreateMoves(db: Db, f: Id, t: Id, p: Id, bytes: int, maxBytes: int, hash: Id, expiresAt: int, now: int)
    requires FileOk(db, f)
    ensures Transfer(db, CreateUploadIntent(db, f, t, p, bytes, maxBytes, hash, expiresAt, now), f, t, bytes, {f})
  {
  }

  /** A file without variant rows gets exactly the managed ones. */
  lemma VariantsPersisted(db: Db, db': Db, f: Id, content: Content)
    requires f !in db.variants && db'.variants == PersistVariants(db.variants, f, ManagedVariants(content))
    ensures db'.variants.Keys <= db.variants.Keys + {f}
    ensures forall g :: g in db.variants ==> g in db'.variants && db'.variants[g] == db.variants[g]
    ensures Sum(VariantRows(db', f)) == TotalBytes(ManagedVariants(content))
    ensures forall k :: k in VariantRows(db', f) ==> VariantRows(db', f)[k] >= 0
  {
    ManagedVariantsCost(content);
    if ManagedVariants(content) == [] { assert VariantRows(db', f) == map[]; }
  }

  lemma UploadMoves(db: Db, f: Id, t: Id, p: Id, bytes: int, maxBytes: int, content: Content, now: int)
    requires FileOk(db, f)
    ensures Transfer(db, UploadFile(db, f, t, p, bytes, maxBytes, content, now),
                     f, t, bytes + TotalBytes(ManagedVariants(content)), {f})
  {
    hide PersistVariants, ManagedVariants;
    var done := UploadFile(db, f, t, p, bytes, maxBytes, content, now);
    if done.error.None? {
      VariantsPersisted(db, done.db, f, content);
    }
  }

  lemma CompleteMoves(db: Db, f: Id, t: Id, reserved: int, content: Content)
    requires FileOk(db, f) && TaskOk(db, Completing(f, t, reserved))
    ensures Transfer(db, CompleteUpload(db, f, t, reserved, reserved, content), f, t,
                     TotalBytes(ManagedVariants(content)), {})
  {
    hide PersistVariants, ManagedVariants;
    var done := CompleteUpload(db, f, t, reserved, reserved, content);
    if done.error.None? {
      VariantsPersisted(db, done.db, f, content);
    }
  }

  lemma AbandonMoves(db: Db, f: Id, t: Id, bytes: int)
    requires FileOk(db, f) && TaskOk(db, Completing(f, t, bytes))
    requires f in db.files && db.files[f].status.Pending? && Charge(db, f) <= Used(db, db.files[f].tenant)
    ensures Transfer(db, Outcome(Abandon(db, f, t, bytes), None), f, t, -bytes, {})
  {
  }

  lemma DeleteMoves(db: Db, f: Id, t: Id, total: int, now: int)
    requires FileOk(db, f) && TaskOk(db, Deleting(f, t, total))
    requires f in db.files ==> Charge(db, f) <= Used(db, db.files[f].tenant)
    ensures Transfer(db, DeleteFile(db, f, t, total, now), f, t, -total, {})
  {
    SumNonNegative(VariantRows(db, f));
  }

  // ----- each transaction keeps the books

  /** The books only read files, variants, the counters' values and the ledger. */
  lemma SameBooks(db: Db, db': Db)
    requires Balanced(db) && Rows(db')
    requires db'.files == db.files && db'.variants == db.variants && db'.ledger == db.ledger
    requires UsedMoves(db, db', 0, 0)
    ensures Balanced(db') && Advances(db, db', {})
  {
    forall t: Id ensures Used(db', t) == Held(db', t) && Used(db', t) == TenantLedger(db'.ledger, t) {
      assert Charges(db', t) == Charges(db, t);
    }
  }

  lemma QuotaRowKeeps(db: Db, db': Db)
    requires Balanced(db) && db' == db.(quotas := db'.quotas) && UsedMoves(db, db', 0, 0)
    ensures Balanced(db') && Advances(db, db', {})
  {
    assert FileOk(db, 0) && VariantRows(db', 0) == VariantRows(db, 0);
    RowsFrame(db, db', 0);
    SameBooks(db, db');
  }

  lemma MarkKeeps(db: Db, f: Id, from: IntentStatus, to: IntentStatus)
    requires Balanced(db)
    ensures Balanced(MarkIntent(db, f, from, to)) && Advances(db, MarkIntent(db, f, from, to), {})
  {
    assert FileOk(db, f) && VariantRows(MarkIntent(db, f, from, to), f) == VariantRows(db, f);
    RowsFrame(db, MarkIntent(db, f, from, to), f);
    SameBooks(db, MarkIntent(db, f, from, to));
  }

  lemma CompleteKeeps(db: Db, f: Id, t: Id, reserved: int, content: Content)
    requires Balanced(db) && TaskOk(db, Completing(f, t, reserved))
    ensures var db' := CompleteUpload(db, f, t, reserved, reserved, content).db;
            Balanced(db') && Advances(db, db', {})
  {
    assert FileOk(db, f);
    CompleteMoves(db, f, t, reserved, content);
    TransferKeeps(db, CompleteUpload(db, f, t, reserved, reserved, content), f, t,
                  TotalBytes(ManagedVariants(content)), {});
  }

  lemma DeleteKeeps(db: Db, f: Id, t: Id, total: int, now: int)
    requires Balanced(db) && TaskOk(db, Deleting(f, t, total))
    ensures Balanced(DeleteFile(db, f, t, total, now).db) && Advances(db, DeleteFile(db, f, t, total, now).db, {})
  {
    assert FileOk(db, f);
    if f in db.files { ReleaseIsExact(db, f); }
    DeleteMoves(db, f, t, total, now);
    TransferKeeps(db, DeleteFile(db, f, t, total, now), f, t, -total, {});
  }

  lemma AbandonKeeps(db: Db, f: Id, t: Id, bytes: int)
    requires Balanced(db) && TaskOk(db, Completing(f, t, bytes))
    ensures Balanced(Abandon(db, f, t, bytes)) && Advances(db, Abandon(db, f, t, bytes), {})
  {
    assert FileOk(db, f);
    if f in db.files && db.files[f].status.Pending? {
      ReleaseIsExact(db, f);
      AbandonMoves(db, f, t, bytes);
      TransferKeeps(db, Outcome(Abandon(db, f, t, bytes), None), f, t, -bytes, {});
    }
  }

  lemma RecoverKeeps(db: Db, f: Id, t: Id, reserved: int, error: Error, now: int)
    requires Balanced(db) && TaskOk(db, Completing(f, t, reserved))
    ensures Balanced(RecoverUpload(db, f, t, reserved, error, now))
            && Advances(db, RecoverUpload(db, f, t, reserved, error, now), {})
  {
    if PermanentFailure(error) {
      AbandonKeeps(db, f, t, reserved);
      MarkKeeps(Abandon(db, f, t, reserved), f, Processing, Expired);
      AdvancesThrough(db, Abandon(db, f, t, reserved), RecoverUpload(db, f, t, reserved, error, now));
    } else {
      MarkKeeps(db, f, Processing, Open);
    }
  }

  lemma ExpireKeeps(db: Db, f: Id, t: Id, bytes: int, p: Id)
    requires Balanced(db) && TaskOk(db, Completing(f, t, bytes))
    ensures Balanced(ExpireIntent(db, f, t, bytes, p)) && Advances(db, ExpireIntent(db, f, t, bytes, p), {})
  {
    var marked := MarkIntent(db, f, Open, Expired);
    MarkKeeps(db, f, Open, Expired);
    AbandonKeeps(marked, f, t, bytes);
    AdvancesThrough(db, marked, ExpireIntent(db, f, t, bytes, p));
  }

  lemma AdvancesThrough(a: Db, b: Db, c: Db)
    requires Advances(a, b, {}) && (Advances(b, c, {}) || b == c)
    requires a.files == b.files || b.files == c.files
    requires a.variants == b.variants == c.variants
    ensures Advances(a, c, {})
  {
    forall f: Id ensures FileAdvances(a, c, {}, f) {
      assert FileAdvances(a, b, {}, f) && (b != c ==> FileAdvances(b, c, {}, f));
    }
  }

  lemma PurgeKeeps(db: Db, f: Id, p: Id)
    requires Balanced(db)
    ensures Balanced(PurgeFile(db, f, p)) && Advances(db, PurgeFile(db, f, p), {})
  {
    var db' := PurgeFile(db, f, p);
    if f in db.files && f !in db'.files {
      var t := db.files[f].tenant;
      assert OnlyRowsOf(db, db', f);
      RowsFrame(db, db', f);
      AdvancesFrame(db, db', {}, f);
      HeldMoves(db, db', f, t);
      forall u: Id ensures Used(db', u) == Held(db', u) && Used(db', u) == TenantLedger(db'.ledger, u) {
        if u != t { HeldElsewhere(db, db', f, t, u); }
        UnlinkedKeepsTenants(db.ledger, f, u);
      }
      forall g: Id ensures FileLedger(db'.ledger, g) == ChargeOf(db', g) {
        UnlinkedClearsFile(db.ledger, f, g);
        if g != f { SameRowsSameCharge(db, db', g); }
      }
    }
  }

  lemma RowSumIsSum(rows: map<Kind, int>)
    ensures RowSum(rows) == Sum(rows)
  {
    var a := rows - {Optimized};
    var b := a - {Thumbnail};
    var c := b - {DocumentPreview};
    if Optimized in rows { SumSplit(rows, Optimized); } else { assert a == rows; }
    if Thumbnail in a { SumSplit(a, Thumbnail); } else { assert b == a; }
    if DocumentPreview in b { SumSplit(b, DocumentPreview); } else { assert c == b; }
    assert c == map[] by {
      forall k | k in c ensures false { match k { case Optimized => case Thumbnail => case DocumentPreview => } }
    }
  }

  // ----- main results

  function Created(step: Step): set<Id> {
    if step.CreateIntent? || step.Upload? then {step.file} else {}
  }

  ghost predicate StepKeepsBooks(s: Sys, step: Step) {
    Balanced(Next(s, step).db) && Advances(s.db, Next(s, step).db, Created(step))
  }

  lemma CommitKeeps(db: Db, step: Step)
    requires Balanced(db)
    requires step.Finish? || step.Recover? || step.CommitDelete? || step.CommitExpire? || step.CommitOrphan?
             || step.CommitPurge?
    requires TaskOk(db, step.task)
    ensures Balanced(Tables(db, step)) && Advances(db, Tables(db, step), {})
  {
    hide CompleteUpload, RecoverUpload, DeleteFile, ExpireIntent, Abandon, PurgeFile, Balanced;
    match step
    case Finish(Completing(f, t, b), _, _, c) => CompleteKeeps(db, f, t, b, c);
    case Recover(Failing(f, t, b, error), n) => RecoverKeeps(db, f, t, b, error, n);
    case CommitDelete(Deleting(f, t, b), n) => DeleteKeeps(db, f, t, b, n);
    case CommitExpire(Expiring(f, t, b, p)) => ExpireKeeps(db, f, t, b, p);
    case CommitOrphan(Orphaned(f, t, b, p)) => AbandonKeeps(db, f, t, b);
    case CommitPurge(Purging(f, p)) => PurgeKeeps(db, f, p);
    case _ =>
  }

  lemma TaskStepAdvances(s: Sys, step: Step)
    requires Inv(s)
    requires step.Finish? || step.Recover? || step.CommitDelete? || step.CommitExpire? || step.CommitOrphan?
             || step.CommitPurge?
    ensures StepKeepsBooks(s, step)
  {
    if Enabled(s, step) {
      assert TaskOk(s.db, step.task);
      CommitKeeps(s.db, step);
    }
  }

  lemma CreatingStepAdvances(s: Sys, step: Step)
    requires Inv(s) && (step.CreateIntent? || step.Upload?)
    ensures StepKeepsBooks(s, step)
  {
    assert FileOk(s.db, step.file);
    match step
    case CreateIntent(f, t, p, b, m, h, e, n) =>
      CreateMoves(s.db, f, t, p, b, m, h, e, n);
      TransferKeeps(s.db, CreateUploadIntent(s.db, f, t, p, b, m, h, e, n), f, t, b, {f});
    case Upload(f, t, p, b, m, c, n) =>
      UploadMoves(s.db, f, t, p, b, m, c, n);
      TransferKeeps(s.db, UploadFile(s.db, f, t, p, b, m, c, n), f, t, b + TotalBytes(ManagedVariants(c)), {f});
  }

  lemma PlainStepKeeps(db: Db, step: Step)
    requires Balanced(db) && !step.CreateIntent? && !step.Upload?
    requires HasTask(step) ==> step.Fail? || step.ReadVariants? || step.Crash?
    ensures Balanced(Tables(db, step)) && Advances(db, Tables(db, step), {})
  {
    hide Balanced, Advances;
    match step
    case Claim(f, h, n) =>
      MarkKeeps(db, f, Open, Processing);
      QuotaRowKeeps(db, db);
    case AddQuota(t, l) => QuotaRowKeeps(db, OpenQuota(db, t, l));
    case ChangeLimit(t, l) => QuotaRowKeeps(db, SetLimit(db, t, l));
    case _ => QuotaRowKeeps(db, db);
  }

  lemma StepAdvances(s: Sys, step: Step)
    requires Inv(s)
    ensures StepKeepsBooks(s, step)
  {
    hide Tables, Balanced, Advances;
    if step.CreateIntent? || step.Upload? {
      CreatingStepAdvances(s, step);
    } else if HasTask(step) && !step.Fail? && !step.ReadVariants? && !step.Crash? {
      TaskStepAdvances(s, step);
    } else {
      PlainStepKeeps(s.db, step);
      QuotaRowKeeps(s.db, s.db);
    }
  }

  lemma FailedCompletionKeeps(db: Db, f: Id, t: Id, b: int, received: int, content: Content)
    ensures var done := CompleteUpload(db, f, t, b, received, content); done.error.Some? ==> done.db == db
  {
  }

  /** A task's readings are true when it takes them. */
  lemma NewTaskOk(s: Sys, step: Step, k: Task)
    requires FileOk(s.db, k.file) && (HasTask(step) && step.task in s.tasks ==> TaskOk(s.db, step.task))
    requires Enabled(s, step) && k in Started(s.db, step)
    ensures TaskOk(Tables(s.db, step), k)
  {
    hide ReserveQuota, CreateUploadIntent, UploadFile, CompleteUpload, RecoverUpload, DeleteFile;
    hide ExpireIntent, ReleaseOrphan, PurgeFile, OpenQuota, SetLimit;
    match step
    case ReadVariants(task) => RowSumIsSum(VariantRows(s.db, task.file));
    case Finish(Completing(f, t, b), _, received, c) => FailedCompletionKeeps(s.db, f, t, b, received, c);
    case _ =>
  }

  /** Every step, by whichever task, keeps the books balanced and every task's readings true. */
  lemma StepKeeps(s: Sys, step: Step)
    requires Inv(s) && Fresh(s, step)
    ensures Inv(Next(s, step))
  {
    hide Tables, Started;
    var s' := Next(s, step);
    var created := Created(step);
    StepAdvances(s, step);
    forall k | k in s'.tasks ensures TaskOk(s'.db, k) {
      if k in s.tasks {
        TaskSurvives(s.db, s'.db, created, k);
      } else {
        assert FileOk(s.db, k.file);
        NewTaskOk(s, step, k);
      }
    }
  }

  lemma {:induction false} EveryRunKeeps(s: Sys, steps: seq<Step>)
    requires Inv(s) && FreshRun(s, steps)
    ensures Inv(Run(s, steps))
    decreases |steps|
  {
    if steps != [] {
      StepKeeps(s, steps[0]);
      EveryRunKeeps(Next(s, steps[0]), steps[1..]);
    }
  }

  /** From empty tables on: at any point of any run, all three accounts of a tenant's bytes agree. */
  lemma EveryRunFromEmpty(steps: seq<Step>, tenant: Id, file: Id)
    requires FreshRun(EMPTY, steps)
    ensures var db := Run(EMPTY, steps).db;
            && Used(db, tenant) == Held(db, tenant) == TenantLedger(db.ledger, tenant)
            && FileLedger(db.ledger, file) == ChargeOf(db, file)
  {
    assert Charges(EMPTY.db, tenant) == map[];
    forall t: Id ensures Used(EMPTY.db, t) == Held(EMPTY.db, t) {
      assert Charges(EMPTY.db, t) == map[];
    }
    EveryRunKeeps(EMPTY, steps);
  }

  // ----- the limit

  predicate WithinLimit(db: Db) {
    forall t :: t in db.quotas ==> db.quotas[t].used <= db.quotas[t].limit
  }

  /** The one step that can leave a tenant over its limit: an administrator setting it below what is used. */
  predicate UndercutsUse(db: Db, step: Step) {
    step.ChangeLimit? && step.tenant in db.quotas
    && (if step.limit < 0 then 0 else step.limit) < db.quotas[step.tenant].used
  }

  /** What a step does to one counter, limits aside. */
  predicate CounterMoves(before: Quota, after: Quota) {
    after.limit == before.limit && (after.used <= before.used || after.used <= before.limit)
  }

  ghost predicate CountersMove(db: Db, db': Db) {
    db'.quotas.Keys == db.quotas.Keys && forall t :: t in db.quotas ==> CounterMoves(db.quotas[t], db'.quotas[t])
  }

  lemma CountersAreNatural(db: Db, t: Id)
    requires Balanced(db)
    ensures Used(db, t) >= 0
  {
    forall f | f in Charges(db, t) ensures Charges(db, t)[f] >= 0 {
      assert FileOk(db, f);
      SumNonNegative(VariantRows(db, f));
    }
    SumNonNegative(Charges(db, t));
    assert Held(db, t) >= 0;
  }

  lemma ReserveMovesCounters(db: Db, t: Id, delta: int)
    requires Used(db, t) >= 0
    ensures CountersMove(db, ReserveQuota(db, t, delta).db)
  {
  }

  lemma AbandonMovesCounters(db: Db, f: Id, t: Id, b: int)
    requires Used(db, t) >= 0
    ensures CountersMove(db, Abandon(db, f, t, b))
  {
    if f in db.files { ReserveMovesCounters(SetStatus(db, f, Abandoned), t, -b); }
  }

  lemma CompleteMovesCounters(db: Db, f: Id, t: Id, b: int, received: int, content: Content)
    requires Used(db, t) >= 0
    ensures CountersMove(db, CompleteUpload(db, f, t, b, received, content).db)
  {
    if f in db.files {
      ReserveMovesCounters(db.(files := db.files[f := db.files[f].(status := Available, bytes := received)]), t,
                           received + TotalBytes(ManagedVariants(content)) - b);
    }
  }

  lemma CommitKeepsLimits(db: Db, step: Step)
    requires Balanced(db) && HasTask(step)
    ensures CountersMove(db, Tables(db, step))
  {
    hide Balanced, ReserveQuota, CompleteUpload, Abandon;
    match step
    case Finish(Completing(f, t, b), _, received, c) =>
      CountersAreNatural(db, t);
      CompleteMovesCounters(db, f, t, b, received, c);
    case Recover(Failing(f, t, b, _), _) =>
      CountersAreNatural(db, t);
      AbandonMovesCounters(db, f, t, b);
    case CommitDelete(Deleting(f, t, b), n) =>
      CountersAreNatural(db, t);
      if f in db.files {
        ReserveMovesCounters(db.(files := db.files[f := db.files[f].(status := Deleted, deletedAt := n)]), t, -b);
      }
    case CommitExpire(Expiring(f, t, b, _)) =>
      CountersAreNatural(db, t);
      AbandonMovesCounters(MarkIntent(db, f, Open, Expired), f, t, b);
    case CommitOrphan(Orphaned(f, t, b, _)) =>
      CountersAreNatural(db, t);
      AbandonMovesCounters(db, f, t, b);
    case _ =>
  }

  lemma OtherStepsWithinLimit(db: Db, step: Step)
    requires WithinLimit(db) && !HasTask(step) && !step.ChangeLimit?
    ensures WithinLimit(Tables(db, step))
  {
  }

  lemma ChangeLimitWithinLimit(db: Db, step: Step)
    requires Balanced(db) && WithinLimit(db) && step.ChangeLimit?
    ensures WithinLimit(Tables(db, step)) <==> !UndercutsUse(db, step)
  {
    hide Balanced;
    CountersAreNatural(db, step.tenant);
    var after := SetLimit(db, step.tenant, step.limit);
    assert step.tenant in after.quotas;
    assert forall t :: t in after.quotas && t != step.tenant ==> after.quotas[t] == db.quotas[t];
  }

  /** A step leaves every tenant within its limit exactly when it is not an administrator undercutting the use. */
  lemma StepWithinLimit(s: Sys, step: Step)
    requires Inv(s) && WithinLimit(s.db)
    ensures WithinLimit(Next(s, step).db) <==> !UndercutsUse(s.db, step)
  {
    hide Tables, Balanced;
    if HasTask(step) {
      CommitKeepsLimits(s.db, step);
    } else if step.ChangeLimit? {
      ChangeLimitWithinLimit(s.db, step);
    } else {
      OtherStepsWithinLimit(s.db, step);
    }
  }

  /** While no administrator undercuts it, no tenant ever uses more than its limit. */
  lemma {:induction false} EveryRunWithinLimit(s: Sys, steps: seq<Step>)
    requires Inv(s) && FreshRun(s, steps) && WithinLimit(s.db)
    requires forall i :: 0 <= i < |steps| ==> !steps[i].ChangeLimit?
    ensures WithinLimit(Run(s, steps).db)
    decreases |steps|
  {
    if steps != [] {
      StepKeeps(s, steps[0]);
      StepWithinLimit(s, steps[0]);
      EveryRunWithinLimit(Next(s, steps[0]), steps[1..]);
    }
  }

  // ----- one claim per opening of an intent

  function OpenIntents(db: Db, f: Id): nat {
    if f in db.intents && db.intents[f].status.Open? then 1 else 0
  }

  /**
   What opens an intent that was not open: its creation, or the recovery from a failure that is not permanent, before
   the intent expires.
   */
  predicate OpensIntent(s: Sys, step: Step, f: Id) {
    && (step.CreateIntent? || (step.Recover? && step.task.Failing? && !PermanentFailure(step.task.error)))
    && OpenIntents(s.db, f) == 0 && OpenIntents(Next(s, step).db, f) == 1
  }

  predicate ClaimsIntent(s: Sys, step: Step, f: Id) {
    step.Claim? && step.file == f && Enabled(s, step)
  }

  function ClaimCount(s: Sys, steps: seq<Step>, f: Id): nat
    decreases |steps|
  {
    if steps == [] then 0
    else (if ClaimsIntent(s, steps[0], f) then 1 else 0) + ClaimCount(Next(s, steps[0]), steps[1..], f)
  }

  function OpeningCount(s: Sys, steps: seq<Step>, f: Id): nat
    decreases |steps|
  {
    if steps == [] then 0
    else (if OpensIntent(s, steps[0], f) then 1 else 0) + OpeningCount(Next(s, steps[0]), steps[1..], f)
  }

  lemma CommitOpens(db: Db, step: Step, f: Id)
    requires HasTask(step)
    ensures OpenIntents(Tables(db, step), f)
            <= OpenIntents(db, f)
               + if step.Recover? && step.task.Failing? && step.task.file == f && !PermanentFailure(step.task.error)
                 then 1 else 0
  {
    hide PersistVariants, ManagedVariants, Unlinked, TotalBytes, PermanentFailure;
    match step
    case Finish(Completing(g, t, b), declared, received, content) => CompletionOpens(db, g, t, b, received, content, f);
    case Recover(Failing(g, t, b, error), now) =>
    case CommitExpire(Expiring(g, t, b, p)) =>
    case _ =>
  }

  lemma CompletionOpens(db: Db, g: Id, t: Id, b: int, received: int, content: Content, f: Id)
    ensures OpenIntents(CompleteUpload(db, g, t, b, received, content).db, f) <= OpenIntents(db, f)
  {
    hide PersistVariants, ManagedVariants, TotalBytes;
  }

  /** A claim closes its intent; nothing but an opening opens one. */
  lemma StepOpens(s: Sys, step: Step, f: Id)
    ensures OpenIntents(Next(s, step).db, f) + (if ClaimsIntent(s, step, f) then 1 else 0)
            <= OpenIntents(s.db, f) + if OpensIntent(s, step, f) then 1 else 0
  {
    if HasTask(step) {
      CommitOpens(s.db, step, f);
      hide Tables, Started, OpenIntents;
    } else {
      hide PersistVariants, ManagedVariants, TotalBytes, Started, Ended;
    }
  }

  /** Over any run of any number of callers an intent is claimed at most once each time it is opened. */
  lemma {:induction false} ClaimedOncePerOpening(s: Sys, steps: seq<Step>, f: Id)
    ensures ClaimCount(s, steps, f) <= OpenIntents(s.db, f) + OpeningCount(s, steps, f)
    decreases |steps|
  {
    hide Next, ClaimsIntent, OpensIntent, OpenIntents;
    if steps != [] {
      StepOpens(s, steps[0], f);
      ClaimedOncePerOpening(Next(s, steps[0]), steps[1..], f);
    }
  }

  // ----- why ids must not be reused under an operation in flight

  /** A delete quoting a wrong total leaves usage records for a file that owes nothing. */
  lemma WrongTotalUnbalances(db: Db, f: Id, t: Id, bytes: int, now: int)
    requires FileBooks(db) && f in db.files && db.files[f].status.Available? && bytes != Charge(db, f)
    ensures !FileBooks(DeleteFile(db, f, t, bytes, now).db)
  {
    var db' := DeleteFile(db, f, t, bytes, now).db;
    RecordAdds(db.ledger, Usage(t, Some(f), -bytes), t, f);
    assert FileLedger(db'.ledger, f) == Charge(db, f) - bytes && ChargeOf(db', f) == 0;
  }

  /** A delete charging another tenant leaves the owner's counter above what it holds. */
  lemma WrongTenantUnbalances(db: Db, f: Id, t: Id, now: int)
    requires Books(db) && f in db.files && db.files[f].status.Available? && t != db.files[f].tenant
             && Charge(db, f) != 0
    ensures !Books(DeleteFile(db, f, t, Charge(db, f), now).db)
  {
    var db', owner := DeleteFile(db, f, t, Charge(db, f), now).db, db.files[f].tenant;
    HeldMoves(db, db', f, owner);
    assert Used(db', owner) == Used(db, owner) && Held(db', owner) != Held(db, owner);
  }

  /** A delete that quotes any figure: the books survive it exactly when it quotes the file's own tenant and charge. */
  lemma DeleteNeedsTrueFigures(db: Db, f: Id, t: Id, bytes: int, now: int)
    requires Balanced(db) && f in db.files && db.files[f].status.Available?
    ensures Balanced(DeleteFile(db, f, t, bytes, now).db) <==> (t == db.files[f].tenant && bytes == Charge(db, f))
  {
    hide DeleteFile;
    assert FileOk(db, f);
    SumNonNegative(VariantRows(db, f));
    if bytes != Charge(db, f) {
      WrongTotalUnbalances(db, f, t, bytes, now);
    } else if t != db.files[f].tenant {
      WrongTenantUnbalances(db, f, t, now);
    } else {
      DeleteKeeps(db, f, t, bytes, now);
    }
  }

  /** What a new upload with this id goes through: an intent under a caller's id, its claim, and its completion. */
  predicate Reuses(create: Step, claim: Step, file: Id) {
    && create.CreateIntent? && create.file == file
    && claim.Claim? && claim.file == file && claim.tokenHash == create.tokenHash && claim.now < create.expiresAt
  }

  function Taken(create: Step): Task
    requires create.CreateIntent?
  {
    Completing(create.file, create.tenant, create.bytes)
  }

  function Completed(create: Step, content: Content): Step
    requires create.CreateIntent?
  {
    Finish(Taken(create), create.bytes, create.bytes, content)
  }

  lemma CreatedThenClaimed(s: Sys, create: Step, claim: Step, file: Id)
    requires Inv(s) && Reuses(create, claim, file)
    requires CreateUploadIntent(s.db, file, create.tenant, create.provider, create.bytes, create.maxBytes,
                                create.tokenHash, create.expiresAt, create.now).error.None?
    ensures var claimed := Next(Next(s, create), claim);
            && Balanced(claimed.db) && claimed.tasks == s.tasks + multiset{Taken(create)}
            && TaskOk(claimed.db, Taken(create))
            && file in claimed.db.files && claimed.db.files[file].status.Pending?
            && claimed.db.files[file].tenant == create.tenant
            && file !in claimed.db.variants
  {
    CreatingStepAdvances(s, create);
    assert FileOk(s.db, file);
    var created := Next(s, create);
    MarkKeeps(created.db, file, Open, Processing);
    hide Balanced;
    assert Tables(created.db, claim) == MarkIntent(created.db, file, Open, Processing);
  }

  /** A completed upload owes its bytes and its variants, to its own tenant. */
  lemma CompletedOwes(db: Db, create: Step, content: Content)
    requires create.CreateIntent? && Balanced(db) && TaskOk(db, Taken(create))
    requires create.file in db.files && db.files[create.file].status.Pending?
             && db.files[create.file].tenant == create.tenant
    requires create.file !in db.variants
    requires CompleteUpload(db, create.file, create.tenant, create.bytes, create.bytes, content).error.None?
    ensures var db' := CompleteUpload(db, create.file, create.tenant, create.bytes, create.bytes, content).db;
            && Balanced(db') && create.file in db'.files && db'.files[create.file].status.Available?
            && db'.files[create.file].tenant == create.tenant
            && Charge(db', create.file) == create.bytes + TotalBytes(ManagedVariants(content))
  {
    CompleteKeeps(db, create.file, create.tenant, create.bytes, content);
    hide PersistVariants, ManagedVariants, Balanced;
    var db' := CompleteUpload(db, create.file, create.tenant, create.bytes, create.bytes, content).db;
    VariantsPersisted(db, db', create.file, content);
  }

  /**
   A file was purged, and a caller gives its id to a new upload intent, which is claimed and completed while a delete
   that read the old file is still in flight.  The books survive that delete if and only if the old tenant and total
   happen to be the new file's.
   */
  lemma ReuseNeedsSameBytes(s: Sys, create: Step, claim: Step, content: Content, stale: Task, now: int)
    requires Inv(s) && stale.Deleting? && stale in s.tasks && Reuses(create, claim, stale.file)
    requires CreateUploadIntent(s.db, stale.file, create.tenant, create.provider, create.bytes, create.maxBytes,
                                create.tokenHash, create.expiresAt, create.now).error.None?
    requires var db := Next(Next(s, create), claim).db;
             CompleteUpload(db, stale.file, create.tenant, create.bytes, create.bytes, content).error.None?
    ensures var done := Next(Next(Next(s, create), claim), Completed(create, content));
            Balanced(Next(done, CommitDelete(stale, now)).db) <==>
            stale.tenant == create.tenant && stale.bytes == create.bytes + TotalBytes(ManagedVariants(content))
  {
    var claimed := Next(Next(s, create), claim);
    CreatedThenClaimed(s, create, claim, stale.file);
    hide *;
    CompletedOwes(claimed.db, create, content);
    var done := Next(claimed, Completed(create, content));
    FinishCompletes(claimed, create, content, stale);
    StaleDeletes(done, stale, now);
    DeleteNeedsTrueFigures(done.db, stale.file, stale.tenant, stale.bytes, now);
  }

  lemma FinishCompletes(s: Sys, create: Step, content: Content, stale: Task)
    requires create.CreateIntent? && stale.Deleting? && stale in s.tasks && Taken(create) in s.tasks
    ensures var done := Next(s, Completed(create, content));
            && done.db == CompleteUpload(s.db, create.file, create.tenant, create.bytes, create.bytes, content).db
            && stale in done.tasks
  {
    hide CompleteUpload;
  }

  lemma StaleDeletes(s: Sys, stale: Task, now: int)
    requires stale.Deleting? && stale in s.tasks
    ensures Next(s, CommitDelete(stale, now)).db == DeleteFile(s.db, stale.file, stale.tenant, stale.bytes, now).db
  {
    hide DeleteFile;
  }
}
