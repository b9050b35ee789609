/**
 PhotoService.Upload and Delete of media/app/photo_service.go over the object stores and the
 photo table (media/adapter/photo_postgres.go), one store or repository call at a time. Any number
 of uploads and deletes interleave, and an upload may fail between any two of its calls. No reaper
 runs here, so a stored object stays.
 */
module Uploads {
  import opened Seqs
  import opened StorageKey

  type Content = string
  type PhotoId = nat
  type UploadId = nat

  datatype Backend = Local | S3

  /** What hashing and sniffing the bytes finds: the SHA-256 sum, and the extension of an accepted image. */
  datatype Digest = Digest(registered: set<string>, sum: Content -> string, ext: Content -> Option<string>)

  datatype Photo = Photo(household: string, ref: string, backend: Backend, hash: string)

  datatype Phase =
    | Stored                                  // Put returned
    | Fresh                                   // no row with this hash was found
    | Reopened                                // the EXIF date was read back from the store
    | Beaten                                  // Create hit the unique index
    | Returned(id: PhotoId, duplicate: bool)
    | Failed

  /** An upload after Put; `backend` is both the store written and the one its repository stamps. */
  datatype Upload = Upload(household: string, ref: string, hash: string, backend: Backend, phase: Phase) {
    predicate SameBytes(other: Upload) {
      household == other.household && hash == other.hash
    }
  }

  datatype Db = Db(
    stores: map<Backend, map<string, Content>>, photos: map<PhotoId, Photo>,
    uploads: map<UploadId, Upload>, nextId: PhotoId)

  datatype Action =
    | Put(u: UploadId, household: string, class_: string, backend: Backend, content: Content)
    | Find(u: UploadId)
    | Reopen(u: UploadId)
    | Create(u: UploadId)
    | FindAgain(u: UploadId)
    | Abort(u: UploadId)
    | Delete(household: string, id: PhotoId)

  function KeyOf(d: Digest, household: string, class_: string, content: Content): Option<string>
    requires UuidText(household)
  {
    if d.ext(content).None? then None
    else BuildStorageKey(d.registered, household, class_, d.sum(content), d.ext(content).value)
  }

  /** FindByContentHash; the unique index lets at most one row match. */
  predicate IsMatch(db: Db, household: string, hash: string, id: PhotoId) {
    id in db.photos && db.photos[id].household == household && db.photos[id].hash == hash
  }

  predicate Known(db: Db, household: string, hash: string) {
    exists id :: id in db.photos && IsMatch(db, household, hash, id)
  }

  ghost function MatchOf(db: Db, household: string, hash: string): (id: PhotoId)
    requires Known(db, household, hash)
    ensures IsMatch(db, household, hash, id)
  {
    var id :| id in db.photos && IsMatch(db, household, hash, id);
    id
  }

  predicate At(db: Db, u: UploadId, p: Phase) {
    u in db.uploads && db.uploads[u].phase == p
  }

  predicate Has(db: Db, b: Backend, ref: string) {
    b in db.stores && ref in db.stores[b]
  }

  predicate Enabled(d: Digest, db: Db, a: Action) {
    match a
    case Put(u, h, c, b, content) => u !in db.uploads && b in db.stores && UuidText(h) && KeyOf(d, h, c, content).Some?
    case Find(u) => At(db, u, Stored)
    case Reopen(u) => At(db, u, Fresh)
    case Create(u) => At(db, u, Reopened)
    case FindAgain(u) => At(db, u, Beaten)
    case Abort(u) => u in db.uploads && !db.uploads[u].phase.Returned?
    case Delete(h, id) => id in db.photos && db.photos[id].household == h
  }

  function To(db: Db, u: UploadId, p: Phase): Db
    requires u in db.uploads
  {
    db.(uploads := db.uploads[u := db.uploads[u].(phase := p)])
  }

  function Write(db: Db, u: UploadId, up: Upload, content: Content): Db
    requires up.backend in db.stores
  {
    db.(stores := db.stores[up.backend := db.stores[up.backend][up.ref := content]], uploads := db.uploads[u := up])
  }

  function Insert(db: Db, u: UploadId): Db
    requires u in db.uploads
  {
    var up := db.uploads[u];
    To(db, u, Returned(db.nextId, false)).(
      photos := db.photos[db.nextId := Photo(up.household, up.ref, up.backend, up.hash)], nextId := db.nextId + 1)
  }

  ghost function Step(d: Digest, db: Db, a: Action): Db
    requires Enabled(d, db, a)
  {
    match a
    case Put(u, h, c, b, content) =>
      Write(db, u, Upload(h, KeyOf(d, h, c, content).value, d.sum(content), b, Stored), content)
    case Find(u) =>
      var up := db.uploads[u];
      To(db, u, if Known(db, up.household, up.hash) then Returned(MatchOf(db, up.household, up.hash), true) else Fresh)
    case Reopen(u) => To(db, u, if Has(db, db.uploads[u].backend, db.uploads[u].ref) then Reopened else Failed)
    case Create(u) =>
      if Known(db, db.uploads[u].household, db.uploads[u].hash) then To(db, u, Beaten) else Insert(db, u)
    case FindAgain(u) =>
      var up := db.uploads[u];
      To(db, u, if Known(db, up.household, up.hash) then Returned(MatchOf(db, up.household, up.hash), true) else Failed)
    case Abort(u) => To(db, u, Failed)
    case Delete(h, id) => db.(photos := db.photos - {id})
  }

  ghost predicate ValidRun(d: Digest, db: Db, run: seq<Action>)
    decreases |run|
  {
    run == [] || (Enabled(d, db, run[0]) && ValidRun(d, Step(d, db, run[0]), run[1..]))
  }

  ghost function Run(d: Digest, db: Db, run: seq<Action>): Db
    requires ValidRun(d, db, run)
    decreases |run|
  {
    if run == [] then db else Run(d, Step(d, db, run[0]), run[1..])
  }

  // ----- Rows and objects -----

  /** The object holds bytes of the given sum. */
  predicate Holds(d: Digest, db: Db, b: Backend, ref: string, hash: string) {
    Has(db, b, ref) && d.sum(db.stores[b][ref]) == hash
  }

  /** Every key is the key of the bytes under it. */
  ghost predicate Addressed(d: Digest, db: Db) {
    forall b, ref :: Has(db, b, ref) ==> KeyFits(d, ref, d.sum(db.stores[b][ref]))
  }

  ghost predicate KeyFits(d: Digest, ref: string, hash: string) {
    exists h, c, ext :: UuidText(h) && BuildStorageKey(d.registered, h, c, hash, ext) == Some(ref)
  }

  ghost predicate RowsStored(d: Digest, db: Db) {
    forall id :: id in db.photos ==> Holds(d, db, db.photos[id].backend, db.photos[id].ref, db.photos[id].hash)
  }

  predicate SameContent(p: Photo, q: Photo) {
    p.household == q.household && p.hash == q.hash
  }

  ghost predicate OneRowPerHash(db: Db) {
    forall i, j :: i in db.photos && j in db.photos && SameContent(db.photos[i], db.photos[j]) ==> i == j
  }

  ghost predicate UploadsStored(d: Digest, db: Db) {
    forall u :: u in db.uploads ==> Holds(d, db, db.uploads[u].backend, db.uploads[u].ref, db.uploads[u].hash)
  }

  ghost predicate Inv(d: Digest, db: Db) {
    && Addressed(d, db) && RowsStored(d, db) && OneRowPerHash(db) && UploadsStored(d, db)
    && (forall id :: id in db.photos ==> id < db.nextId)
  }

  /** The key of this household and content, in some class. */
  ghost predicate OwnKey(d: Digest, household: string, ref: string, hash: string) {
    UuidText(household) && exists c, ext :: BuildStorageKey(d.registered, household, c, hash, ext) == Some(ref)
  }

  /** Every upload and every row refers to a key of its own household and content. */
  ghost predicate KeysAreOwn(d: Digest, db: Db) {
    && (forall u :: u in db.uploads ==> OwnKey(d, db.uploads[u].household, db.uploads[u].ref, db.uploads[u].hash))
    && (forall id :: id in db.photos ==> OwnKey(d, db.photos[id].household, db.photos[id].ref, db.photos[id].hash))
  }

  lemma StepKeepsOwnKeys(d: Digest, db: Db, a: Action)
    requires KeysAreOwn(d, db) && Enabled(d, db, a)
    ensures KeysAreOwn(d, Step(d, db, a))
  {
    hide Known, BuildStorageKey;
    if a.Put? {
      var ref := KeyOf(d, a.household, a.class_, a.content).value;
      assert BuildStorageKey(d.registered, a.household, a.class_, d.sum(a.content), d.ext(a.content).value) == Some(ref);
    }
  }

  lemma {:induction false} RunKeepsOwnKeys(d: Digest, db: Db, run: seq<Action>)
    requires KeysAreOwn(d, db) && ValidRun(d, db, run)
    ensures KeysAreOwn(d, Run(d, db, run))
    decreases |run|
  {
    hide KeysAreOwn, Step, Enabled;
    if run != [] {
      StepKeepsOwnKeys(d, db, run[0]);
      RunKeepsOwnKeys(d, Step(d, db, run[0]), run[1..]);
    }
  }

  /** In any run every row refers to a key of its own household and content. */
  lemma RowsHaveOwnKeys(d: Digest, db: Db, run: seq<Action>, id: PhotoId)
    requires Empty(db) && ValidRun(d, db, run) && id in Run(d, db, run).photos
    ensures var p := Run(d, db, run).photos[id]; OwnKey(d, p.household, p.ref, p.hash)
  {
    hide OwnKey;
    RunKeepsOwnKeys(d, db, run);
  }

  /** The key put under is that of the household, the class, the bytes' sum and their type, part by part. */
  lemma PutKey(d: Digest, h: string, c: string, content: Content)
    requires GoodDigest(d) && UuidText(h)
    ensures KeyOf(d, h, c, content).Some? <==>
            c in d.registered && ValidSum(d.sum(content)) && d.ext(content).Some? && ValidExtension(d.ext(content).value)
    ensures KeyOf(d, h, c, content).Some? ==>
              var sum := d.sum(content);
              SplitN(KeyOf(d, h, c, content).value, 6) == ["households", h, c, sum[..2], sum + "." + d.ext(content).value]
  {
    hide SplitN, ValidSum;
    if KeyOf(d, h, c, content).Some? {
      KeyParts(d.registered, h, c, d.sum(content), d.ext(content).value);
    }
  }

  /** A delete takes the household's own row and nothing else; the bytes stay. */
  lemma DeleteExactly(d: Digest, db: Db, h: string, id: PhotoId)
    ensures Enabled(d, db, Delete(h, id)) <==> id in db.photos && db.photos[id].household == h
    ensures Enabled(d, db, Delete(h, id)) ==>
              var after := Step(d, db, Delete(h, id));
              && (forall i :: i in after.photos <==> i in db.photos && i != id)
              && (forall i :: i in after.photos ==> after.photos[i] == db.photos[i])
              && after.stores == db.stores && after.uploads == db.uploads && after.nextId == db.nextId
  {
  }

  ghost predicate GoodDigest(d: Digest) {
    forall c :: c in d.registered ==> ClassIdentifier(c)
  }

  /** A key names one content sum, whoever wrote it. */
  lemma KeyNamesSum(d: Digest, ref: string, x: string, y: string)
    requires GoodDigest(d) && KeyFits(d, ref, x) && KeyFits(d, ref, y)
    ensures x == y
  {
    var h, c, ext :| UuidText(h) && BuildStorageKey(d.registered, h, c, x, ext) == Some(ref);
    var h', c', ext' :| UuidText(h') && BuildStorageKey(d.registered, h', c', y, ext') == Some(ref);
    KeysAreDistinct(d.registered, h, c, x, ext, h', c', y, ext');
  }

  /** Writing an object again leaves every object's sum as it was. */
  lemma PutKeeps(d: Digest, db: Db, u: UploadId, h: string, c: string, b: Backend, content: Content)
    requires GoodDigest(d) && Inv(d, db) && Enabled(d, db, Put(u, h, c, b, content))
    ensures Inv(d, Step(d, db, Put(u, h, c, b, content)))
  {
    var ref := KeyOf(d, h, c, content).value;
    assert BuildStorageKey(d.registered, h, c, d.sum(content), d.ext(content).value) == Some(ref);
    if Has(db, b, ref) {
      KeyNamesSum(d, ref, d.sum(db.stores[b][ref]), d.sum(content));
    }
    WriteKeeps(d, db, u, Upload(h, ref, d.sum(content), b, Stored), content);
  }

  /** Every object of before is there after, with bytes of the same sum. */
  ghost predicate SumsStay(d: Digest, db: Db, after: Db) {
    forall b, ref :: Has(db, b, ref) ==> Holds(d, after, b, ref, d.sum(db.stores[b][ref]))
  }

  lemma HoldsStays(d: Digest, db: Db, after: Db, b: Backend, ref: string, hash: string)
    requires SumsStay(d, db, after) && Holds(d, db, b, ref, hash)
    ensures Holds(d, after, b, ref, hash)
  {
  }

  lemma WriteStays(d: Digest, db: Db, u: UploadId, up: Upload, content: Content)
    requires up.backend in db.stores && up.hash == d.sum(content)
    requires Has(db, up.backend, up.ref) ==> d.sum(db.stores[up.backend][up.ref]) == up.hash
    requires Addressed(d, db) && KeyFits(d, up.ref, up.hash)
    ensures var after := Write(db, u, up, content);
            SumsStay(d, db, after) && Holds(d, after, up.backend, up.ref, up.hash) && Addressed(d, after)
  {
    hide KeyFits;
  }

  lemma WriteKeeps(d: Digest, db: Db, u: UploadId, up: Upload, content: Content)
    requires Inv(d, db) && up.backend in db.stores && KeyFits(d, up.ref, up.hash) && up.hash == d.sum(content)
    requires Has(db, up.backend, up.ref) ==> d.sum(db.stores[up.backend][up.ref]) == up.hash
    ensures Inv(d, Write(db, u, up, content))
  {
    hide KeyFits, Addressed, OneRowPerHash, Holds, Has, SumsStay;
    var after := Write(db, u, up, content);
    WriteStays(d, db, u, up, content);
    assert OneRowPerHash(after) by {
      SameRows(db, after);
    }
    forall id | id in after.photos
      ensures Holds(d, after, after.photos[id].backend, after.photos[id].ref, after.photos[id].hash)
    {
      HoldsStays(d, db, after, db.photos[id].backend, db.photos[id].ref, db.photos[id].hash);
    }
    forall v | v in after.uploads
      ensures Holds(d, after, after.uploads[v].backend, after.uploads[v].ref, after.uploads[v].hash)
    {
      if v != u {
        HoldsStays(d, db, after, db.uploads[v].backend, db.uploads[v].ref, db.uploads[v].hash);
      }
    }
  }

  lemma SameRows(db: Db, after: Db)
    requires OneRowPerHash(db) && db.photos == after.photos
    ensures OneRowPerHash(after)
  {
  }

  lemma PhaseKeeps(d: Digest, db: Db, u: UploadId, p: Phase)
    requires Inv(d, db) && u in db.uploads
    ensures Inv(d, To(db, u, p))
  {
    hide KeyFits, OneRowPerHash, Holds;
    var after := To(db, u, p);
    SameStores(d, db, after);
    SameRows(db, after);
  }

  lemma SameStores(d: Digest, db: Db, after: Db)
    requires Addressed(d, db) && db.stores == after.stores
    ensures Addressed(d, after)
    ensures forall b, ref, hash :: Holds(d, db, b, ref, hash) ==> Holds(d, after, b, ref, hash)
  {
    hide KeyFits;
    assert forall b, ref :: Has(after, b, ref) ==> Has(db, b, ref);
  }

  lemma InsertKeeps(d: Digest, db: Db, u: UploadId)
    requires Inv(d, db) && u in db.uploads && !Known(db, db.uploads[u].household, db.uploads[u].hash)
    ensures Inv(d, Insert(db, u))
  {
    hide KeyFits, Holds;
    var after := Insert(db, u);
    SameStores(d, db, after);
    assert OneRowPerHash(after) by {
      forall id | id in db.photos ensures !SameContent(after.photos[db.nextId], db.photos[id]) {
        assert !IsMatch(db, db.uploads[u].household, db.uploads[u].hash, id);
      }
    }
  }

  lemma StepKeepsInv(d: Digest, db: Db, a: Action)
    requires GoodDigest(d) && Inv(d, db) && Enabled(d, db, a)
    ensures Inv(d, Step(d, db, a))
  {
    hide KeyOf, Inv, Known, Holds;
    match a
    case Put(u, h, c, b, content) => PutKeeps(d, db, u, h, c, b, content);
    case Create(u) =>
      if !Known(db, db.uploads[u].household, db.uploads[u].hash) {
        InsertKeeps(d, db, u);
      } else {
        PhaseKeeps(d, db, u, Beaten);
      }
    case Delete(h, id) => DeleteKeeps(d, db, id);
    case _ => PhaseKeeps(d, db, a.u, Step(d, db, a).uploads[a.u].phase);
  }

  lemma DeleteKeeps(d: Digest, db: Db, id: PhotoId)
    requires Inv(d, db)
    ensures Inv(d, db.(photos := db.photos - {id}))
  {
    hide KeyFits, Holds;
    SameStores(d, db, db.(photos := db.photos - {id}));
  }

  lemma EmptyInv(d: Digest, db: Db)
    requires Empty(db)
    ensures Inv(d, db)
  {
  }

  lemma {:induction false} RunKeepsInv(d: Digest, db: Db, run: seq<Action>)
    requires GoodDigest(d) && Inv(d, db) && ValidRun(d, db, run)
    ensures Inv(d, Run(d, db, run))
    decreases |run|
  {
    hide Inv, Step, Enabled;
    if run != [] {
      StepKeepsInv(d, db, run[0]);
      RunKeepsInv(d, Step(d, db, run[0]), run[1..]);
    }
  }

  predicate Empty(db: Db) {
    db.stores == map[Local := map[], S3 := map[]] && db.photos == map[] && db.uploads == map[]
  }

  /**
   Whatever uploads and deletes interleave: every row's object is in the store its own backend names,
   with the row's bytes, and no household has two rows of one content.
   */
  lemma RowsAreBacked(d: Digest, db: Db, run: seq<Action>)
    requires GoodDigest(d) && Empty(db) && ValidRun(d, db, run)
    ensures RowsStored(d, Run(d, db, run)) && OneRowPerHash(Run(d, db, run))
  {
    EmptyInv(d, db);
    RunKeepsInv(d, db, run);
  }

  // ----- Uploads of the same bytes -----

  predicate DeletesNothing(run: seq<Action>) {
    forall i :: 0 <= i < |run| ==> !run[i].Delete?
  }

  predicate Created(up: Upload) {
    up.phase.Returned? && !up.phase.duplicate
  }

  /** Both claim to have created the same row. */
  predicate BothCreated(up: Upload, other: Upload) {
    Created(up) && Created(other) && up.phase.id == other.phase.id
  }

  /** Every returned row is the upload's own content, and every row has the one upload that created it. */
  ghost predicate Credited(db: Db) {
    ReturnsMatch(db) && AllCreated(db) && CreatedOnce(db)
  }

  ghost predicate ReturnsMatch(db: Db) {
    forall u :: u in db.uploads && db.uploads[u].phase.Returned? ==>
      IsMatch(db, db.uploads[u].household, db.uploads[u].hash, db.uploads[u].phase.id)
  }

  ghost predicate AllCreated(db: Db) {
    forall id :: id in db.photos ==> HasCreator(db, id)
  }

  ghost predicate CreatedOnce(db: Db) {
    forall u, v :: u in db.uploads && v in db.uploads && BothCreated(db.uploads[u], db.uploads[v]) ==> u == v
  }

  ghost predicate HasCreator(db: Db, id: PhotoId) {
    exists u :: u in db.uploads && db.uploads[u].phase == Returned(id, false)
  }

  /** An upload that has not returned can change phase without losing any row's creator. */
  lemma CreatorsStay(db: Db, after: Db, u: UploadId)
    requires u in db.uploads ==> !db.uploads[u].phase.Returned?
    requires forall v :: v != u && v in db.uploads ==> v in after.uploads && after.uploads[v] == db.uploads[v]
    ensures forall id :: HasCreator(db, id) ==> HasCreator(after, id)
  {
    forall id | HasCreator(db, id) ensures HasCreator(after, id) {
      var v :| v in db.uploads && db.uploads[v].phase == Returned(id, false);
      assert after.uploads[v].phase == Returned(id, false);
    }
  }

  /** An upload moves on, returning a row only if it matches. */
  lemma PhaseKeepsCredit(db: Db, u: UploadId, up: Upload, photos: map<PhotoId, Photo>)
    requires Credited(db) && (u in db.uploads ==> !db.uploads[u].phase.Returned?) && photos == db.photos
    requires up.phase.Returned? ==> up.phase.duplicate && IsMatch(db, up.household, up.hash, up.phase.id)
    ensures Credited(Db(db.stores, photos, db.uploads[u := up], db.nextId))
  {
    CreatorsStay(db, Db(db.stores, photos, db.uploads[u := up], db.nextId), u);
  }

  lemma InsertKeepsCredit(db: Db, u: UploadId)
    requires Credited(db) && u in db.uploads && !db.uploads[u].phase.Returned?
    requires forall id :: id in db.photos ==> id < db.nextId
    ensures Credited(Insert(db, u))
  {
    InsertMatches(db, u);
    InsertCreates(db, u);
    hide IsMatch;
    assert ReturnsMatch(db);
  }

  lemma InsertMatches(db: Db, u: UploadId)
    requires ReturnsMatch(db) && CreatedOnce(db) && u in db.uploads && !db.uploads[u].phase.Returned?
    requires forall id :: id in db.photos ==> id < db.nextId
    ensures ReturnsMatch(Insert(db, u)) && CreatedOnce(Insert(db, u))
  {
    var after := Insert(db, u);
    forall v | v in after.uploads && after.uploads[v].phase.Returned?
      ensures IsMatch(after, after.uploads[v].household, after.uploads[v].hash, after.uploads[v].phase.id)
      ensures v != u ==> after.uploads[v].phase.id != db.nextId
    {
      if v != u {
        assert IsMatch(db, db.uploads[v].household, db.uploads[v].hash, db.uploads[v].phase.id);
      }
    }
  }

  lemma InsertCreates(db: Db, u: UploadId)
    requires AllCreated(db) && u in db.uploads && !db.uploads[u].phase.Returned?
    ensures AllCreated(Insert(db, u))
  {
    hide HasCreator;
    var after := Insert(db, u);
    CreatorsStay(db, after, u);
    CreatorOf(after, u);
  }

  lemma CreatorOf(db: Db, u: UploadId)
    requires u in db.uploads && Created(db.uploads[u])
    ensures HasCreator(db, db.uploads[u].phase.id)
  {
    assert db.uploads[u].phase == Returned(db.uploads[u].phase.id, false);
  }

  lemma StepKeepsCredit(d: Digest, db: Db, a: Action)
    requires Inv(d, db) && Credited(db) && Enabled(d, db, a) && !a.Delete?
    ensures Credited(Step(d, db, a))
  {
    hide Addressed, RowsStored, UploadsStored, KeyOf, OneRowPerHash, Credited, IsMatch, Known;
    var after := Step(d, db, a);
    if a.Create? && !Known(db, db.uploads[a.u].household, db.uploads[a.u].hash) {
      InsertKeepsCredit(db, a.u);
    } else {
      PhaseKeepsCredit(db, a.u, after.uploads[a.u], db.photos);
      CreditOnlyReads(Db(db.stores, db.photos, db.uploads[a.u := after.uploads[a.u]], db.nextId), after);
    }
  }

  lemma CreditOnlyReads(db: Db, after: Db)
    requires Credited(db) && db.photos == after.photos && db.uploads == after.uploads
    ensures Credited(after)
  {
    forall id | id in after.photos ensures HasCreator(after, id) {
      assert HasCreator(db, id);
    }
  }

  lemma {:induction false} RunKeepsCredit(d: Digest, db: Db, run: seq<Action>)
    requires GoodDigest(d) && Inv(d, db) && Credited(db) && ValidRun(d, db, run) && DeletesNothing(run)
    ensures Credited(Run(d, db, run))
    decreases |run|
  {
    hide Inv, Credited, Step, Enabled;
    if run != [] {
      assert !run[0].Delete?;
      StepKeepsInv(d, db, run[0]);
      StepKeepsCredit(d, db, run[0]);
      RunKeepsCredit(d, Step(d, db, run[0]), run[1..]);
    }
  }

  /** The upload that created a row, and everyone who was given it. */
  ghost predicate SharedRow(ups: map<UploadId, Upload>, u: UploadId, c: UploadId)
    requires u in ups && ups[u].phase.Returned?
  {
    && c in ups && ups[c].SameBytes(ups[u]) && Created(ups[c])
    && (forall v :: v in ups && ups[v].SameBytes(ups[u]) && ups[v].phase.Returned? ==>
          ups[v].phase.id == ups[u].phase.id && (Created(ups[v]) ==> v == c))
  }

  lemma CreditIsShared(db: Db, u: UploadId) returns (c: UploadId)
    requires Credited(db) && OneRowPerHash(db) && u in db.uploads && db.uploads[u].phase.Returned?
    ensures SharedRow(db.uploads, u, c)
  {
    var ups := db.uploads;
    var id := ups[u].phase.id;
    assert IsMatch(db, ups[u].household, ups[u].hash, id);
    assert HasCreator(db, id);
    c :| c in ups && ups[c].phase == Returned(id, false);
    assert IsMatch(db, ups[c].household, ups[c].hash, id);
    forall v | v in ups && ups[v].SameBytes(ups[u]) && ups[v].phase.Returned?
      ensures ups[v].phase.id == id && (Created(ups[v]) ==> v == c)
    {
      var given := ups[v].phase.id;
      assert IsMatch(db, ups[v].household, ups[v].hash, given);
      assert SameContent(db.photos[given], db.photos[id]);
      assert Created(ups[v]) ==> BothCreated(ups[v], ups[c]);
    }
  }

  /**
   With no delete, concurrent uploads of equal bytes to one household all return one row, and exactly
   one of them is the upload that created it.
   */
  lemma EqualUploadsShareOneRow(d: Digest, db: Db, run: seq<Action>, u: UploadId)
    requires GoodDigest(d) && Empty(db) && ValidRun(d, db, run) && DeletesNothing(run)
    requires u in Run(d, db, run).uploads && Run(d, db, run).uploads[u].phase.Returned?
    ensures exists c :: SharedRow(Run(d, db, run).uploads, u, c)
  {
    EmptyInv(d, db);
    RunKeepsInv(d, db, run);
    EmptyCredited(db);
    RunKeepsCredit(d, db, run);
    hide *;
    var after := Run(d, db, run);
    InvSaysOneRow(d, after);
    var c := CreditIsShared(after, u);
  }

  lemma InvSaysOneRow(d: Digest, db: Db)
    requires Inv(d, db)
    ensures OneRowPerHash(db)
  {
  }

  lemma EmptyCredited(db: Db)
    requires Empty(db)
    ensures Credited(db)
  {
  }

  /** A beaten upload's second look-up returns a row. */
  ghost predicate FindsRow(d: Digest, db: Db, u: UploadId) {
    At(db, u, Beaten) && Step(d, db, FindAgain(u)).uploads[u].phase.Returned?
  }

  /** The upload's Create finds the household's content taken. */
  ghost predicate LosesRace(d: Digest, db: Db, u: UploadId, beaten: Db) {
    && At(db, u, Reopened) && Known(db, db.uploads[u].household, db.uploads[u].hash)
    && beaten == Step(d, db, Create(u))
  }

  /** Losing the race at the unique index, with no delete since, always finds the winner's row. */
  lemma LoserFindsWinner(d: Digest, db: Db, u: UploadId, beaten: Db, more: seq<Action>)
    requires GoodDigest(d) && Inv(d, db) && LosesRace(d, db, u, beaten)
    requires ValidRun(d, beaten, more) && DeletesNothing(more)
    requires forall i :: 0 <= i < |more| ==> more[i] != FindAgain(u) && more[i] != Abort(u)
    ensures FindsRow(d, Run(d, beaten, more), u)
  {
    hide Inv, Run, ValidRun;
    StepKeepsInv(d, db, Create(u));
    var id := MatchOf(db, db.uploads[u].household, db.uploads[u].hash);
    assert IsMatch(beaten, db.uploads[u].household, db.uploads[u].hash, id);
    StaysBeaten(d, beaten, more, u);
  }

  lemma {:induction false} StaysBeaten(d: Digest, db: Db, run: seq<Action>, u: UploadId)
    requires GoodDigest(d) && Inv(d, db)
    requires At(db, u, Beaten) && Known(db, db.uploads[u].household, db.uploads[u].hash)
    requires ValidRun(d, db, run) && DeletesNothing(run)
    requires forall i :: 0 <= i < |run| ==> run[i] != FindAgain(u) && run[i] != Abort(u)
    ensures var after := Run(d, db, run);
            At(after, u, Beaten) && Known(after, after.uploads[u].household, after.uploads[u].hash)
    decreases |run|
  {
    hide Inv, Step, Known, Enabled;
    if run != [] {
      assert !run[0].Delete? && run[0] != FindAgain(u) && run[0] != Abort(u);
      StepKeepsInv(d, db, run[0]);
      StepKeepsBeaten(d, db, run[0], u);
      StaysBeaten(d, Step(d, db, run[0]), run[1..], u);
    }
  }

  lemma StepKeepsBeaten(d: Digest, db: Db, a: Action, u: UploadId)
    requires Inv(d, db) && At(db, u, Beaten) && Known(db, db.uploads[u].household, db.uploads[u].hash)
    requires Enabled(d, db, a) && !a.Delete? && a != FindAgain(u) && a != Abort(u)
    ensures var after := Step(d, db, a);
            At(after, u, Beaten) && Known(after, after.uploads[u].household, after.uploads[u].hash)
  {
    hide KeyOf, Addressed, RowsStored, UploadsStored, OneRowPerHash;
    var up := db.uploads[u];
    var id := MatchOf(db, up.household, up.hash);
    assert IsMatch(Step(d, db, a), up.household, up.hash, id);
  }

  /**
   A lone upload of bytes the household has not got stores them and creates their row; one it has
   got returns the row it has, as a duplicate. Either way the bytes are in the store.
   */
  lemma LoneUpload(d: Digest, db: Db, u: UploadId, h: string, c: string, b: Backend, content: Content)
    requires Inv(d, db) && Enabled(d, db, Put(u, h, c, b, content))
    ensures var known := Known(db, h, d.sum(content));
            var run := if known then [Put(u, h, c, b, content), Find(u)]
                       else [Put(u, h, c, b, content), Find(u), Reopen(u), Create(u)];
            && ValidRun(d, db, run)
            && var after := Run(d, db, run);
               && u in after.uploads && after.uploads[u].phase.Returned? && after.uploads[u].phase.duplicate == known
               && IsMatch(after, h, d.sum(content), after.uploads[u].phase.id)
               && Has(after, b, KeyOf(d, h, c, content).value)
               && after.photos == if known then db.photos
                                  else db.photos[db.nextId := Photo(h, KeyOf(d, h, c, content).value, b, d.sum(content))]
  {
    hide KeyOf, Addressed, RowsStored, UploadsStored, OneRowPerHash, Known;
    var put := Put(u, h, c, b, content);
    var stored := Step(d, db, put);
    SameKnown(db, stored, h, d.sum(content));
    var found := Step(d, stored, Find(u));
    if Known(db, h, d.sum(content)) {
      RunOfTwo(d, db, put, Find(u));
    } else {
      var opened_ := Step(d, found, Reopen(u));
      SameKnown(db, opened_, h, d.sum(content));
      RunOfTwo(d, found, Reopen(u), Create(u));
      RunOnto(d, db, put, Find(u), [Reopen(u), Create(u)]);
    }
  }

  lemma SameKnown(db: Db, after: Db, h: string, hash: string)
    requires db.photos == after.photos
    ensures Known(db, h, hash) == Known(after, h, hash)
  {
    assert forall id :: IsMatch(db, h, hash, id) <==> IsMatch(after, h, hash, id);
  }

  lemma RunOfTwo(d: Digest, db: Db, a: Action, b: Action)
    requires Enabled(d, db, a) && Enabled(d, Step(d, db, a), b)
    ensures ValidRun(d, db, [a, b]) && Run(d, db, [a, b]) == Step(d, Step(d, db, a), b)
  {
    hide Step, Enabled;
    assert [a, b][1..] == [b] && [b][1..] == [];
    assert ValidRun(d, Step(d, Step(d, db, a), b), []);
    assert ValidRun(d, Step(d, db, a), [b]);
    assert Run(d, Step(d, db, a), [b]) == Run(d, Step(d, Step(d, db, a), b), []);
  }

  lemma RunOnto(d: Digest, db: Db, a: Action, b: Action, rest: seq<Action>)
    requires Enabled(d, db, a) && Enabled(d, Step(d, db, a), b) && |rest| == 2
    requires ValidRun(d, Step(d, Step(d, db, a), b), rest)
    ensures ValidRun(d, db, [a, b, rest[0], rest[1]])
    ensures Run(d, db, [a, b, rest[0], rest[1]]) == Run(d, Step(d, Step(d, db, a), b), rest)
  {
    hide Step, Enabled;
    var run := [a, b, rest[0], rest[1]];
    assert run[1..][1..] == rest;
    assert ValidRun(d, Step(d, db, a), run[1..]);
  }
}
