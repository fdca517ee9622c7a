/**
 The storage service's tables and transactions, as values.

 Each function below is one database transaction (or one single-statement update) of the service,
 with the statement's own guards.  A transaction that throws leaves the tables as they were.
 Identifiers matter only up to equality, so a number stands for each; times are milliseconds.
 */
module Storage {
  import opened Basics
  import opened Sums

  datatype FileStatus = Pending | Available | Deleted | Abandoned
  datatype File = File(tenant: Id, provider: Id, bytes: int, status: FileStatus, createdAt: int, deletedAt: int)
  datatype IntentStatus = Open | Processing | Completed | Expired
  datatype Intent = Intent(tenant: Id, bytes: int, tokenHash: Id, status: IntentStatus, expiresAt: int)
  datatype Quota = Quota(used: int, limit: int)
  /** A usage record; its file reference is cleared when the file row is purged. */
  datatype Usage = Usage(tenant: Id, file: Option<Id>, delta: int)

  datatype Db = Db(
    files: map<Id, File>,
    variants: map<Id, map<Kind, int>>,
    intents: map<Id, Intent>,
    quotas: map<Id, Quota>,
    ledger: seq<Usage>)

  datatype Error =
    | FileSize | FileTooLarge | QuotaExceeded | UniqueViolation
    | InvalidIntent | AlreadyCompleted | NotAvailable
    | ChecksumMismatch | ContentTypeMismatch | MalwareDetected | MimeNotAllowed | SizeMismatch
    | OtherFailure

  /** What a transaction leaves behind: the tables, and the error it threw if any. */
  datatype Outcome = Outcome(db: Db, error: Option<Error>)

  /** What the managed variants of an upload are, by content class. */
  datatype Content =
    | Image(optimized: nat, thumbnail: nat)
    | Document(preview: nat)
    | Opaque

  datatype Kind = Optimized | Thumbnail | DocumentPreview
  datatype Variant = Variant(kind: Kind, bytes: nat)

  function ManagedVariants(content: Content): seq<Variant> {
    match content
    case Image(o, t) => [Variant(Optimized, o), Variant(Thumbnail, t)]
    case Document(p) => [Variant(DocumentPreview, p)]
    case Opaque => []
  }

  function TotalBytes(variants: seq<Variant>): nat {
    if variants == [] then 0 else TotalBytes(variants[..|variants| - 1]) + variants[|variants| - 1].bytes
  }

  /** The variant rows of one file after an upsert on (file, kind) for each variant in turn. */
  function Upserted(rows: map<Kind, int>, variants: seq<Variant>): map<Kind, int> {
    if variants == [] then rows
    else
      var last := variants[|variants| - 1];
      Upserted(rows, variants[..|variants| - 1])[last.kind := last.bytes]
  }

  function VariantRows(db: Db, file: Id): map<Kind, int> {
    if file in db.variants then db.variants[file] else map[]
  }

  /** The variants table after upserting `variants` for `file`. */
  function PersistVariants(table: map<Id, map<Kind, int>>, file: Id, variants: seq<Variant>): map<Id, map<Kind, int>> {
    if variants == [] then table
    else table[file := Upserted(if file in table then table[file] else map[], variants)]
  }

  /** The rows a new upload has: its optimized image and thumbnail, its preview, or none. */
  lemma ManagedRows(table: map<Id, map<Kind, int>>, file: Id, content: Content)
    requires file !in table
    ensures PersistVariants(table, file, ManagedVariants(content))
            == match content
               case Image(optimized, thumbnail) => table[file := map[Optimized := optimized, Thumbnail := thumbnail]]
               case Document(preview) => table[file := map[DocumentPreview := preview]]
               case Opaque => table
  {
    match content
    case Image(optimized, thumbnail) =>
      var variants := ManagedVariants(content);
      assert variants[..1] == [Variant(Optimized, optimized)] && variants[..1][..0] == [];
      assert Upserted(map[], variants[..1]) == map[Optimized := optimized];
      assert Upserted(map[], variants) == map[Optimized := optimized][Thumbnail := thumbnail];
    case Document(preview) =>
      assert ManagedVariants(content)[..0] == [];
      assert Upserted(map[], ManagedVariants(content)) == map[DocumentPreview := preview];
    case Opaque =>
  }

  function Record(db: Db, tenant: Id, file: Id, delta: int): Db {
    db.(ledger := db.ledger + [Usage(tenant, Some(file), delta)])
  }

  function SetStatus(db: Db, file: Id, status: FileStatus): Db
    requires file in db.files
  {
    db.(files := db.files[file := db.files[file].(status := status)])
  }

  /** The quota counter: a positive change must fit the limit, a negative one is clamped at zero. */
  function ReserveQuota(db: Db, tenant: Id, delta: int): Outcome {
    if delta == 0 then Outcome(db, None)
    else if delta > 0 then
      if tenant in db.quotas && db.quotas[tenant].used + delta <= db.quotas[tenant].limit then
        Outcome(db.(quotas := db.quotas[tenant := db.quotas[tenant].(used := db.quotas[tenant].used + delta)]), None)
      else Outcome(db, Some(QuotaExceeded))
    else Outcome(Released(db, tenant, -delta), None)
  }

  function Released(db: Db, tenant: Id, bytes: int): Db {
    if tenant in db.quotas then
      var left := db.quotas[tenant].used - bytes;
      db.(quotas := db.quotas[tenant := db.quotas[tenant].(used := if left < 0 then 0 else left)])
    else db
  }

  predicate TokenInUse(db: Db, tokenHash: Id) {
    exists f :: f in db.intents && db.intents[f].tokenHash == tokenHash
  }

  function CreateUploadIntent(
      db: Db, file: Id, tenant: Id, provider: Id, bytes: int, maxBytes: int, tokenHash: Id, expiresAt: int, now: int)
    : Outcome
  {
    if bytes < 1 then Outcome(db, Some(FileSize))
    else if bytes > maxBytes then Outcome(db, Some(FileTooLarge))
    else
      var reserved := ReserveQuota(db, tenant, bytes);
      if reserved.error.Some? then reserved
      else if file in db.files || TokenInUse(db, tokenHash) then Outcome(db, Some(UniqueViolation))
      else
        Outcome(
          Record(
            reserved.db.(files := db.files[file := File(tenant, provider, bytes, Pending, now, 0)],
                         intents := db.intents[file := Intent(tenant, bytes, tokenHash, Open, expiresAt)]),
            tenant, file, bytes),
          None)
  }

  function UploadFile(db: Db, file: Id, tenant: Id, provider: Id, bytes: int, maxBytes: int, content: Content, now: int)
    : Outcome
  {
    if bytes < 1 then Outcome(db, Some(FileSize))
    else if bytes > maxBytes then Outcome(db, Some(FileTooLarge))
    else
      var variants := ManagedVariants(content);
      var reserved := ReserveQuota(db, tenant, bytes + TotalBytes(variants));
      if reserved.error.Some? then reserved
      else if file in db.files then Outcome(db, Some(UniqueViolation))
      else
        Outcome(
          Record(
            reserved.db.(files := db.files[file := File(tenant, provider, bytes, Available, now, 0)],
                         variants := PersistVariants(db.variants, file, variants)),
            tenant, file, bytes + TotalBytes(variants)),
          None)
  }

  /** Claiming an intent for completion: the guarded update to `processing`. */
  function ClaimIntent(db: Db, file: Id, tokenHash: Id, now: int): Outcome {
    if file in db.intents && db.intents[file].tokenHash == tokenHash && db.intents[file].status.Open?
       && db.intents[file].expiresAt > now && file in db.files && db.files[file].status.Pending?
    then Outcome(db.(intents := db.intents[file := db.intents[file].(status := Processing)]), None)
    else Outcome(db, Some(InvalidIntent))
  }

  /** Only the token of an open, unexpired intent of a pending file claims it, and it only marks the intent. */
  lemma ClaimsExactlyWhen(db: Db, file: Id, tokenHash: Id, now: int)
    ensures var claim := ClaimIntent(db, file, tokenHash, now);
            && (claim.error.None? <==>
                  file in db.intents && db.intents[file].tokenHash == tokenHash && db.intents[file].status.Open?
                  && db.intents[file].expiresAt > now && file in db.files && db.files[file].status.Pending?)
            && (claim.error.Some? ==> claim == Outcome(db, Some(InvalidIntent)))
            && (claim.error.None? ==>
                  && claim.db == db.(intents := claim.db.intents) && claim.db.intents.Keys == db.intents.Keys
                  && claim.db.intents[file] == db.intents[file].(status := Processing)
                  && forall g :: g in db.intents && g != file ==> claim.db.intents[g] == db.intents[g])
  {
  }

  function MarkIntent(db: Db, file: Id, from: IntentStatus, to: IntentStatus): Db {
    if file in db.intents && db.intents[file].status == from
    then db.(intents := db.intents[file := db.intents[file].(status := to)])
    else db
  }

  /** The completing transaction; `tenant` and `reserved` were read from the intent when it was claimed. */
  function CompleteUpload(db: Db, file: Id, tenant: Id, reserved: int, received: int, content: Content): (r: Outcome)
    ensures r.error.Some? ==> r.db == db
  {
    if file !in db.files || !db.files[file].status.Pending? then Outcome(db, Some(AlreadyCompleted))
    else
      var variants := ManagedVariants(content);
      var delta := received + TotalBytes(variants) - reserved;
      var marked := db.(files := db.files[file := db.files[file].(status := Available, bytes := received)]);
      var charged := ReserveQuota(marked, tenant, delta);
      if charged.error.Some? then Outcome(db, charged.error)
      else
        Outcome(
          Record(
            MarkIntent(charged.db, file, Processing, Completed)
            .(variants := PersistVariants(db.variants, file, variants)),
            tenant, file, delta),
          None)
  }

  /** A completion fails unless the file is pending and its tenant has room for what exceeds the reservation. */
  lemma CompletesExactlyWhen(db: Db, file: Id, tenant: Id, reserved: int, received: int, content: Content)
    ensures var delta := received + TotalBytes(ManagedVariants(content)) - reserved;
            CompleteUpload(db, file, tenant, reserved, received, content).error
            == if file !in db.files || db.files[file].status != Pending then Some(AlreadyCompleted)
               else if delta > 0
                       && (tenant !in db.quotas || db.quotas[tenant].used + delta > db.quotas[tenant].limit) then
                 Some(QuotaExceeded)
               else None
  {
    hide TotalBytes, ManagedVariants, PersistVariants;
  }

  /** It makes the file available with the bytes received, completes the intent, and charges the difference. */
  lemma CompletedRows(db: Db, file: Id, tenant: Id, reserved: int, received: int, content: Content)
    requires CompleteUpload(db, file, tenant, reserved, received, content).error == None
    ensures var delta := received + TotalBytes(ManagedVariants(content)) - reserved;
            var after := CompleteUpload(db, file, tenant, reserved, received, content).db;
            && file in db.files && after.files == db.files[file := after.files[file]]
            && after.files[file] == db.files[file].(status := Available, bytes := received)
            && after.ledger == db.ledger + [Usage(tenant, Some(file), delta)]
            && after.variants == PersistVariants(db.variants, file, ManagedVariants(content))
            && (file !in db.intents || db.intents[file].status != Processing ==> after.intents == db.intents)
            && (file in db.intents && db.intents[file].status == Processing ==>
                  after.intents == db.intents[file := db.intents[file].(status := Completed)])
            && (tenant !in db.quotas ==> after.quotas == db.quotas)
            && (tenant in db.quotas && (delta >= 0 || db.quotas[tenant].used + delta >= 0) ==>
                  after.quotas
                  == db.quotas[tenant := Quota(db.quotas[tenant].used + delta, db.quotas[tenant].limit)])
  {
    hide TotalBytes, ManagedVariants, PersistVariants;
  }

  predicate PermanentFailure(error: Error) {
    error in {ChecksumMismatch, ContentTypeMismatch, FileTooLarge, MalwareDetected, MimeNotAllowed, SizeMismatch}
  }

  /** Gives a pending file's reservation back. */
  function Abandon(db: Db, file: Id, tenant: Id, bytes: int): Db {
    if file in db.files && db.files[file].status.Pending?
    then Record(ReserveQuota(SetStatus(db, file, Abandoned), tenant, -bytes).db, tenant, file, -bytes)
    else db
  }

  /** Only a pending file is abandoned, and what it has reserved is recorded as given back. */
  lemma AbandonedRows(db: Db, file: Id, tenant: Id, bytes: int)
    ensures var after := Abandon(db, file, tenant, bytes);
            var pending := file in db.files && db.files[file].status == Pending;
            && after.intents == db.intents && after.variants == db.variants
            && (!pending ==> after == db)
            && (pending ==>
                  after.files == db.files[file := db.files[file].(status := Abandoned)]
                  && after.ledger == db.ledger + [Usage(tenant, Some(file), -bytes)])
  {
  }

  /** After a failed completion: permanent failures release the reservation, others reopen the intent. */
  function RecoverUpload(db: Db, file: Id, tenant: Id, reserved: int, error: Error, now: int): Db {
    if PermanentFailure(error) then MarkIntent(Abandon(db, file, tenant, reserved), file, Processing, Expired)
    else if file in db.intents && db.intents[file].expiresAt > now then MarkIntent(db, file, Processing, Open)
    else db
  }

  /** The six permanent errors end the intent, any other reopens it until it expires. */
  lemma RecoveredIntent(db: Db, file: Id, tenant: Id, reserved: int, error: Error, now: int)
    ensures var after := RecoverUpload(db, file, tenant, reserved, error, now).intents;
            var permanent := error.ChecksumMismatch? || error.ContentTypeMismatch? || error.FileTooLarge?
                             || error.MalwareDetected? || error.MimeNotAllowed? || error.SizeMismatch?;
            && (file !in db.intents || db.intents[file].status != Processing ==> after == db.intents)
            && (file in db.intents && db.intents[file].status == Processing ==>
                  after == if permanent then db.intents[file := db.intents[file].(status := Expired)]
                           else if now < db.intents[file].expiresAt then
                             db.intents[file := db.intents[file].(status := Open)]
                           else db.intents)
  {
    hide ReserveQuota, Abandon;
    AbandonedRows(db, file, tenant, reserved);
  }

  /** And they give a pending file's reservation back. */
  lemma RecoveredFile(db: Db, file: Id, tenant: Id, reserved: int, error: Error, now: int)
    ensures var after := RecoverUpload(db, file, tenant, reserved, error, now);
            var permanent := error.ChecksumMismatch? || error.ContentTypeMismatch? || error.FileTooLarge?
                             || error.MalwareDetected? || error.MimeNotAllowed? || error.SizeMismatch?;
            && (permanent && file in db.files && db.files[file].status == Pending ==>
                  after.files == db.files[file := db.files[file].(status := Abandoned)]
                  && after.ledger == db.ledger + [Usage(tenant, Some(file), -reserved)])
            && (!permanent || file !in db.files || db.files[file].status != Pending ==>
                  after == db.(intents := after.intents))
  {
    AbandonedRows(db, file, tenant, reserved);
    hide Abandon;
  }

  /** The deleting transaction; `total` was computed from earlier reads of the file and its variants. */
  function DeleteFile(db: Db, file: Id, tenant: Id, total: int, now: int): Outcome {
    if file !in db.files || !db.files[file].status.Available? then Outcome(db, Some(NotAvailable))
    else
      var deleted := db.(files := db.files[file := db.files[file].(status := Deleted, deletedAt := now)]);
      Outcome(Record(ReserveQuota(deleted, tenant, -total).db, tenant, file, -total), None)
  }

  function ExpireIntent(db: Db, file: Id, tenant: Id, bytes: int, provider: Id): Db {
    var marked := MarkIntent(db, file, Open, Expired);
    if file in db.files && db.files[file].provider == provider then Abandon(marked, file, tenant, bytes) else marked
  }

  function ReleaseOrphan(db: Db, file: Id, tenant: Id, bytes: int, provider: Id): Db {
    if file in db.files && db.files[file].provider == provider then Abandon(db, file, tenant, bytes) else db
  }

  /** Deleting a file row cascades to variants and intents and clears the usage records' reference. */
  function PurgeFile(db: Db, file: Id, provider: Id): Db {
    if file in db.files && db.files[file].status.Deleted? && db.files[file].provider == provider
    then
      db.(files := db.files - {file}, variants := db.variants - {file}, intents := db.intents - {file},
          ledger := Unlinked(db.ledger, file))
    else db
  }

  /** An expired intent no longer opens, and its file is abandoned if it is pending with the provider cleaned up. */
  lemma ExpiredRows(db: Db, file: Id, tenant: Id, bytes: int, provider: Id)
    ensures var after := ExpireIntent(db, file, tenant, bytes, provider);
            var abandons := file in db.files && db.files[file].provider == provider
                            && db.files[file].status == Pending;
            && after.intents
               == (if file in db.intents && db.intents[file].status == Open
                   then db.intents[file := db.intents[file].(status := Expired)] else db.intents)
            && after.variants == db.variants
            && after.files
               == (if abandons then db.files[file := db.files[file].(status := Abandoned)] else db.files)
            && after.ledger == (if abandons then db.ledger + [Usage(tenant, Some(file), -bytes)] else db.ledger)
            && (!abandons ==> after.quotas == db.quotas)
  {
    AbandonedRows(MarkIntent(db, file, Open, Expired), file, tenant, bytes);
    hide Abandon;
  }

  /** An orphaned file is released in the same way. */
  lemma ReleasedRows(db: Db, file: Id, tenant: Id, bytes: int, provider: Id)
    ensures ReleaseOrphan(db, file, tenant, bytes, provider)
            == if file in db.files && db.files[file].provider == provider && db.files[file].status == Pending
               then Abandon(db, file, tenant, bytes) else db
  {
    hide ReserveQuota;
  }

  /** A purge takes out a deleted file with its variants and intent, and keeps its usage records, unlinked. */
  lemma {:induction false} PurgedRows(db: Db, file: Id, provider: Id)
    ensures var after := PurgeFile(db, file, provider);
            var purges := file in db.files && db.files[file].status == Deleted && db.files[file].provider == provider;
            && (!purges ==> after == db)
            && (purges ==>
                  && after.files == db.files - {file} && after.variants == db.variants - {file}
                  && after.intents == db.intents - {file} && after.quotas == db.quotas
                  && |after.ledger| == |db.ledger|
                  && forall i :: 0 <= i < |db.ledger| ==>
                       after.ledger[i]
                       == Usage(db.ledger[i].tenant,
                                if db.ledger[i].file == Some(file) then None else db.ledger[i].file,
                                db.ledger[i].delta))
  {
    UnlinkedRecords(db.ledger, file);
  }

  lemma {:induction false} UnlinkedRecords(ledger: seq<Usage>, file: Id)
    ensures forall i :: 0 <= i < |ledger| ==>
              Unlinked(ledger, file)[i]
              == Usage(ledger[i].tenant, if ledger[i].file == Some(file) then None else ledger[i].file, ledger[i].delta)
    decreases |ledger|
  {
    if ledger != [] { UnlinkedRecords(ledger[..|ledger| - 1], file); }
  }

  function Unlinked(ledger: seq<Usage>, file: Id): (r: seq<Usage>)
    ensures |r| == |ledger|
  {
    if ledger == [] then []
    else
      var last := ledger[|ledger| - 1];
      Unlinked(ledger[..|ledger| - 1], file) + [if last.file == Some(file) then last.(file := None) else last]
  }

  /** Creating an organization's quota row (kept when it exists) and changing its limit. */
  function OpenQuota(db: Db, tenant: Id, limit: int): Db {
    if tenant in db.quotas then db else db.(quotas := db.quotas[tenant := Quota(0, limit)])
  }

  function SetLimit(db: Db, tenant: Id, limit: int): Db {
    var bound := if limit < 0 then 0 else limit;
    if tenant in db.quotas
    then db.(quotas := db.quotas[tenant := db.quotas[tenant].(limit := bound)])
    else db.(quotas := db.quotas[tenant := Quota(0, bound)])
  }

  /** A tenant's quota row starts empty and stays when it exists; setting a limit leaves what is used. */
  lemma QuotaRows(db: Db, tenant: Id, limit: int)
    ensures OpenQuota(db, tenant, limit)
            == if tenant in db.quotas then db else db.(quotas := db.quotas[tenant := Quota(0, limit)])
    ensures var after := SetLimit(db, tenant, limit);
            && after == db.(quotas := after.quotas) && after.quotas.Keys == db.quotas.Keys + {tenant}
            && after.quotas - {tenant} == db.quotas - {tenant}
            && after.quotas[tenant].used == (if tenant in db.quotas then db.quotas[tenant].used else 0)
            && after.quotas[tenant].limit == (if limit < 0 then 0 else limit)
  {
  }

  // ----- the accounting identity

  function Used(db: Db, tenant: Id): int {
    if tenant in db.quotas then db.quotas[tenant].used else 0
  }

  /** What one file owes: its reservation while pending, its bytes and variants while available. */
  ghost function Charge(db: Db, file: Id): int
    requires file in db.files
  {
    match db.files[file].status
    case Pending => db.files[file].bytes
    case Available => db.files[file].bytes + Sum(VariantRows(db, file))
    case Deleted => 0
    case Abandoned => 0
  }

  ghost function ChargeOf(db: Db, file: Id): int {
    if file in db.files then Charge(db, file) else 0
  }

  ghost function Charges(db: Db, tenant: Id): map<Id, int> {
    map f | f in db.files && db.files[f].tenant == tenant :: Charge(db, f)
  }

  ghost function Held(db: Db, tenant: Id): int {
    Sum(Charges(db, tenant))
  }

  function TenantLedger(ledger: seq<Usage>, tenant: Id): int {
    if ledger == [] then 0
    else
      var last := ledger[|ledger| - 1];
      TenantLedger(ledger[..|ledger| - 1], tenant) + if last.tenant == tenant then last.delta else 0
  }

  function FileLedger(ledger: seq<Usage>, file: Id): int {
    if ledger == [] then 0
    else
      var last := ledger[|ledger| - 1];
      FileLedger(ledger[..|ledger| - 1], file) + if last.file == Some(file) then last.delta else 0
  }

  /** For every tenant: the counter, the files it holds and its usage records tell the same number. */
  ghost predicate Books(db: Db) {
    forall t: Id :: Used(db, t) == Held(db, t) && Used(db, t) == TenantLedger(db.ledger, t)
  }

  /** For every file: its usage records add up to what it owes now, so each reservation is released exactly once. */
  ghost predicate FileBooks(db: Db) {
    forall f: Id :: FileLedger(db.ledger, f) == ChargeOf(db, f)
  }

  predicate IntentMatches(intent: Intent, file: File) {
    intent.tenant == file.tenant && (file.status.Pending? ==> intent.bytes == file.bytes)
  }

  /** Row-level facts the accounting rests on. */
  ghost predicate FileOk(db: Db, f: Id) {
    && (f in db.files ==> db.files[f].bytes >= 1)
    && (f in db.variants ==> f in db.files && (db.files[f].status.Available? || db.files[f].status.Deleted?))
    && (forall k :: k in VariantRows(db, f) ==> VariantRows(db, f)[k] >= 0)
    && (f in db.intents ==> f in db.files && IntentMatches(db.intents[f], db.files[f]))
  }

  ghost predicate Rows(db: Db) {
    forall f: Id :: FileOk(db, f)
  }

  ghost predicate Balanced(db: Db) {
    Rows(db) && Books(db) && FileBooks(db)
  }

  // ----- lemmas about the totals

  predicate DistinctKinds(variants: seq<Variant>) {
    forall i, j :: 0 <= i < j < |variants| ==> variants[i].kind != variants[j].kind
  }

  /** Variants with distinct kinds, stored over no earlier rows, cost exactly their total. */
  lemma {:induction false} UpsertCost(variants: seq<Variant>)
    requires DistinctKinds(variants)
    ensures Sum(Upserted(map[], variants)) == TotalBytes(variants)
    ensures forall k :: k in Upserted(map[], variants) ==>
      Upserted(map[], variants)[k] >= 0 && exists i :: 0 <= i < |variants| && variants[i].kind == k
  {
    if variants != [] {
      var init, last := variants[..|variants| - 1], variants[|variants| - 1];
      UpsertCost(init);
      SumPut(Upserted(map[], init), last.kind, last.bytes);
      forall k | k in Upserted(map[], variants) ensures exists i :: 0 <= i < |variants| && variants[i].kind == k {
        if k in Upserted(map[], init) {
          var i :| 0 <= i < |init| && init[i].kind == k;
          assert variants[i].kind == k;
        } else {
          assert variants[|variants| - 1].kind == k;
        }
      }
    }
  }

  lemma ManagedVariantsCost(content: Content)
    ensures Sum(Upserted(map[], ManagedVariants(content))) == TotalBytes(ManagedVariants(content))
    ensures forall k :: k in Upserted(map[], ManagedVariants(content)) ==>
              Upserted(map[], ManagedVariants(content))[k] >= 0
  {
    UpsertCost(ManagedVariants(content));
  }

  lemma {:induction false} UnlinkedKeepsTenants(ledger: seq<Usage>, file: Id, tenant: Id)
    ensures TenantLedger(Unlinked(ledger, file), tenant) == TenantLedger(ledger, tenant)
  {
    if ledger != [] {
      var init := ledger[..|ledger| - 1];
      UnlinkedKeepsTenants(init, file, tenant);
      assert Unlinked(ledger, file)[..|ledger| - 1] == Unlinked(init, file);
    }
  }

  lemma {:induction false} UnlinkedClearsFile(ledger: seq<Usage>, file: Id, other: Id)
    ensures FileLedger(Unlinked(ledger, file), other) == if other == file then 0 else FileLedger(ledger, other)
  {
    if ledger != [] {
      var init := ledger[..|ledger| - 1];
      UnlinkedClearsFile(init, file, other);
      assert Unlinked(ledger, file)[..|ledger| - 1] == Unlinked(init, file);
    }
  }

  lemma RecordAdds(ledger: seq<Usage>, u: Usage, tenant: Id, file: Id)
    ensures TenantLedger(ledger + [u], tenant) == TenantLedger(ledger, tenant)
            + if u.tenant == tenant then u.delta else 0
    ensures FileLedger(ledger + [u], file) == FileLedger(ledger, file) + if u.file == Some(file) then u.delta else 0
  {
    assert (ledger + [u])[..|ledger + [u]| - 1] == ledger;
  }

  /** The rows of one file: its file row, its intent and its variants. */
  ghost predicate SameRows(db: Db, db': Db, f: Id) {
    && (f in db.files <==> f in db'.files) && (f in db.files ==> db'.files[f] == db.files[f])
    && (f in db.variants <==> f in db'.variants) && (f in db.variants ==> db'.variants[f] == db.variants[f])
    && (f in db.intents <==> f in db'.intents) && (f in db.intents ==> db'.intents[f] == db.intents[f])
  }

  /** `db'` differs from `db` in one file's rows only (which may be new, or gone). */
  ghost predicate OnlyRowsOf(db: Db, db': Db, file: Id) {
    forall f: Id :: f != file ==> SameRows(db, db', f)
  }

  lemma RowsFrame(db: Db, db': Db, file: Id)
    requires Rows(db) && OnlyRowsOf(db, db', file) && FileOk(db', file)
    ensures Rows(db')
  {
    forall f: Id ensures FileOk(db', f) {
      if f != file {
        assert FileOk(db, f) && SameRows(db, db', f);
        assert VariantRows(db', f) == VariantRows(db, f);
      }
    }
  }

  /** Which tenant a file's charge counts for: its own, in `db`. */
  ghost predicate OwnedBy(db: Db, file: Id, tenant: Id) {
    file in db.files ==> db.files[file].tenant == tenant
  }

  lemma SameRowsSameCharge(db: Db, db': Db, f: Id)
    requires SameRows(db, db', f)
    ensures (f in db.files <==> f in db'.files) && (f in db.files ==> db'.files[f] == db.files[f])
    ensures VariantRows(db', f) == VariantRows(db, f) && ChargeOf(db', f) == ChargeOf(db, f)
  {
    assert VariantRows(db', f) == VariantRows(db, f);
  }

  lemma HeldElsewhere(db: Db, db': Db, file: Id, tenant: Id, other: Id)
    requires OnlyRowsOf(db, db', file) && OwnedBy(db, file, tenant) && OwnedBy(db', file, tenant) && other != tenant
    ensures Held(db', other) == Held(db, other)
  {
    var before, after := Charges(db, other), Charges(db', other);
    forall f: Id ensures (f in before <==> f in after) && (f in before ==> after[f] == before[f]) {
      if f != file { SameRowsSameCharge(db, db', f); }
    }
    assert after == before;
  }

  /** If only `file` changes, its tenant's holdings change by the change of its charge. */
  lemma HeldMoves(db: Db, db': Db, file: Id, tenant: Id)
    requires OnlyRowsOf(db, db', file) && OwnedBy(db, file, tenant) && OwnedBy(db', file, tenant)
    ensures Held(db', tenant) == Held(db, tenant) + ChargeOf(db', file) - ChargeOf(db, file)
  {
    var before, after := Charges(db, tenant), Charges(db', tenant);
    forall f: Id | f != file ensures (f in before <==> f in after) && (f in before ==> after[f] == before[f]) {
      SameRowsSameCharge(db, db', f);
    }
    if file in db'.files {
      assert after == before[file := ChargeOf(db', file)];
      SumPut(before, file, ChargeOf(db', file));
    } else if file in db.files {
      assert after == before - {file};
      SumSplit(before, file);
    } else {
      assert after == before;
    }
  }

  /** In balanced tables no file owes more than its tenant's counter, so a release never meets the clamp. */
  lemma ReleaseIsExact(db: Db, file: Id)
    requires Rows(db) && Books(db) && file in db.files
    ensures 0 <= Charge(db, file) <= Used(db, db.files[file].tenant)
    ensures Used(Released(db, db.files[file].tenant, Charge(db, file)), db.files[file].tenant)
            == Used(db, db.files[file].tenant) - Charge(db, file)
  {
    var t := db.files[file].tenant;
    forall f | f in Charges(db, t) ensures 0 <= Charges(db, t)[f] {
      assert FileOk(db, f);
      SumNonNegative(VariantRows(db, f));
    }
    SumBoundsEntry(Charges(db, t), file);
  }

  /** The counters: `tenant`'s moves by `delta`, the others stay. */
  ghost predicate UsedMoves(db: Db, db': Db, tenant: Id, delta: int) {
    forall t: Id :: Used(db', t) == Used(db, t) + if t == tenant then delta else 0
  }

  /** From `db` to `db'`, `delta` bytes moved for one file: in its charge, its tenant's counter and the ledger. */
  ghost predicate Moved(db: Db, db': Db, file: Id, tenant: Id, delta: int) {
    && OnlyRowsOf(db, db', file) && FileOk(db', file)
    && OwnedBy(db, file, tenant) && file in db'.files && OwnedBy(db', file, tenant)
    && ChargeOf(db', file) == delta + ChargeOf(db, file)
    && UsedMoves(db, db', tenant, delta)
    && db'.ledger == db.ledger + [Usage(tenant, Some(file), delta)]
  }

  /** The one accounting step behind every operation. */
  lemma Move(db: Db, db': Db, file: Id, tenant: Id, delta: int)
    requires Balanced(db) && Moved(db, db', file, tenant, delta)
    ensures Balanced(db')
  {
    RowsFrame(db, db', file);
    HeldMoves(db, db', file, tenant);
    forall t: Id ensures Used(db', t) == Held(db', t) && Used(db', t) == TenantLedger(db'.ledger, t) {
      if t != tenant { HeldElsewhere(db, db', file, tenant, t); }
      RecordAdds(db.ledger, Usage(tenant, Some(file), delta), t, file);
    }
    forall f: Id ensures FileLedger(db'.ledger, f) == ChargeOf(db', f) {
      RecordAdds(db.ledger, Usage(tenant, Some(file), delta), tenant, f);
      if f != file { SameRowsSameCharge(db, db', f); }
    }
  }
}
