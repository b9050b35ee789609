/**
 The MFA rows of identity/adapter/mfa_postgres.go as steps over a database. BeginEnrollment and
 ConfirmEnrollmentWithCodes are transactions that first take the row lock (SELECT ... FOR UPDATE);
 DeleteEnrollment, RecordLoginStep and MarkRecoveryCodeUsed are single statements. Any number of
 calls interleave, one statement at a time, and any call may fail before its commit.

 A statement only sees rows committed before it started. `seen` records which row that was, by its
 life: every insert of an enrollment row starts a new life, and a delete ends it.
 */
module MfaStore {
  import opened Seqs

  type Member = string
  type Household = string
  type Secret = string // as stored, encrypted
  type Life = nat
  type CodeId = nat
  type CallId = nat

  datatype Enrollment = Enrollment(
    household: Household, secret: Secret, confirmed: bool, lastStep: Option<int>, life: Life)

  datatype Code = Code(member: Member, hash: string, used: bool)

  datatype Reply =
    | Ok | MemberNotFound | AlreadyEnrolled | NotEnrolled
    | InvalidTotp | InvalidRecoveryCode | VerificationRequired | Raced | Failed

  datatype Work = Begin(secret: Secret) | Confirm(hashes: seq<string>)

  datatype Phase =
    | Looking(seen: Option<Life>)
    | Absent                       // no row found: the INSERT is next
    | Inserting                    // a new row, not committed yet
    | Updating(life: Life)         // the row is locked and written, not committed yet
    | Done(reply: Reply)

  datatype Call = Call(member: Member, household: Household, work: Work, phase: Phase)

  /** What the database did, in commit order. */
  datatype Event =
    | Began(who: CallId, member: Member, life: Life, secret: Secret)
    | Confirmed(who: CallId, member: Member, life: Life, secret: Secret, first: CodeId, hashes: seq<string>)
    | Deleted(who: CallId, member: Member, life: Life)
    | Accepted(who: CallId, member: Member, life: Life, step: int)
    | Redeemed(who: CallId, member: Member, life: Life, id: CodeId)

  datatype Db = Db(
    members: map<Member, Household>, rows: map<Member, Enrollment>, codes: map<CodeId, Code>,
    calls: map<CallId, Call>, nextLife: Life, nextCode: CodeId, log: seq<Event>)

  datatype Action =
    | Look(who: CallId, member: Member, household: Household, work: Work)
    | Lock(who: CallId)
    | Insert(who: CallId)
    | Commit(who: CallId)
    | Abort(who: CallId)
    | Delete(who: CallId, member: Member, household: Household, seen: Option<Life>)
    | RecordStep(who: CallId, member: Member, step: int, seen: Option<Life>)
    | MarkUsed(who: CallId, id: CodeId)

  // ----- One statement -----

  function Seen(db: Db, m: Member): Option<Life> {
    if m in db.rows then Some(db.rows[m].life) else None
  }

  /** The row a statement saw at its start is still there. */
  predicate Visible(db: Db, m: Member, seen: Option<Life>) {
    m in db.rows && seen == Some(db.rows[m].life)
  }

  predicate RowFree(db: Db, m: Member) {
    forall t :: t in db.calls && db.calls[t].phase.Updating? ==> db.calls[t].member != m
  }

  predicate NoInsertPending(db: Db, m: Member) {
    forall t :: t in db.calls && db.calls[t].phase.Inserting? ==> db.calls[t].member != m
  }

  /** RecordLoginStep's WHERE clause. */
  predicate StepHits(db: Db, m: Member, step: int, seen: Option<Life>) {
    Visible(db, m, seen) && (db.rows[m].lastStep.None? || db.rows[m].lastStep.value < step)
  }

  /** MarkRecoveryCodeUsed's WHERE clause. */
  predicate CodeHits(db: Db, id: CodeId) {
    id in db.codes && !db.codes[id].used
  }

  /** DeleteEnrollment's WHERE clause. */
  predicate DeleteHits(db: Db, m: Member, h: Household, seen: Option<Life>) {
    Visible(db, m, seen) && db.rows[m].household == h
  }

  predicate Enabled(db: Db, a: Action) {
    match a
    case Look(t, _, _, _) => t in db.calls ==> db.calls[t].phase.Done?
    case Lock(t) =>
      && t in db.calls && db.calls[t].phase.Looking?
      && (Visible(db, db.calls[t].member, db.calls[t].phase.seen) ==> RowFree(db, db.calls[t].member))
    case Insert(t) => t in db.calls && db.calls[t].phase.Absent? && NoInsertPending(db, db.calls[t].member)
    case Commit(t) => t in db.calls && (db.calls[t].phase.Inserting? || db.calls[t].phase.Updating?)
    case Abort(t) => t in db.calls && !db.calls[t].phase.Done?
    case Delete(_, m, h, seen) => DeleteHits(db, m, h, seen) ==> RowFree(db, m)
    case RecordStep(_, m, step, seen) => StepHits(db, m, step, seen) ==> RowFree(db, m)
    case MarkUsed(_, _) => true
  }

  function To(db: Db, t: CallId, p: Phase): Db
    requires t in db.calls
  {
    db.(calls := db.calls[t := db.calls[t].(phase := p)])
  }

  /** What the locked row tells the call to do. */
  function Verdict(c: Call, row: Enrollment): Phase {
    if row.household != c.household then Done(if c.work.Begin? then MemberNotFound else NotEnrolled)
    else if row.confirmed then Done(AlreadyEnrolled)
    else Updating(row.life)
  }

  function Inserted(db: Db, t: CallId): Db
    requires t in db.calls && db.calls[t].work.Begin?
  {
    var c := db.calls[t];
    To(db, t, Done(Ok)).(
      rows := db.rows[c.member := Enrollment(c.household, c.work.secret, false, None, db.nextLife)],
      nextLife := db.nextLife + 1,
      log := db.log + [Began(t, c.member, db.nextLife, c.work.secret)])
  }

  function Replaced(db: Db, t: CallId): Db
    requires t in db.calls && db.calls[t].work.Begin? && db.calls[t].member in db.rows
  {
    var c := db.calls[t];
    var row := db.rows[c.member];
    To(db, t, Done(Ok)).(
      rows := db.rows[c.member := row.(secret := c.work.secret, confirmed := false)],
      log := db.log + [Began(t, c.member, row.life, c.work.secret)])
  }

  function WithoutCodes(codes: map<CodeId, Code>, m: Member): map<CodeId, Code> {
    map id | id in codes && codes[id].member != m :: codes[id]
  }

  function NewCode(first: CodeId, m: Member, hashes: seq<string>, id: CodeId): Code
    requires first <= id < first + |hashes|
  {
    Code(m, hashes[id - first], false)
  }

  function NewCodes(first: CodeId, m: Member, hashes: seq<string>): map<CodeId, Code> {
    map id: CodeId | first <= id < first + |hashes| :: NewCode(first, m, hashes, id)
  }

  function ConfirmedBy(db: Db, t: CallId): Db
    requires t in db.calls && db.calls[t].work.Confirm? && db.calls[t].member in db.rows
  {
    var c := db.calls[t];
    var row := db.rows[c.member];
    To(db, t, Done(Ok)).(
      rows := db.rows[c.member := row.(confirmed := true)],
      codes := WithoutCodes(db.codes, c.member) + NewCodes(db.nextCode, c.member, c.work.hashes),
      nextCode := db.nextCode + |c.work.hashes|,
      log := db.log + [Confirmed(t, c.member, row.life, row.secret, db.nextCode, c.work.hashes)])
  }

  /** The delete cascades to the member's recovery codes. */
  function Removed(db: Db, t: CallId, m: Member): Db
    requires m in db.rows
  {
    db.(rows := db.rows - {m}, codes := WithoutCodes(db.codes, m),
        log := db.log + [Deleted(t, m, db.rows[m].life)])
  }

  function StepTaken(db: Db, t: CallId, m: Member, step: int): Db
    requires m in db.rows
  {
    db.(rows := db.rows[m := db.rows[m].(lastStep := Some(step))],
        log := db.log + [Accepted(t, m, db.rows[m].life, step)])
  }

  function LifeOf(db: Db, m: Member): Life {
    if m in db.rows then db.rows[m].life else 0
  }

  function CodeTaken(db: Db, t: CallId, id: CodeId): Db
    requires id in db.codes
  {
    var c := db.codes[id];
    db.(codes := db.codes[id := c.(used := true)],
        log := db.log + [Redeemed(t, c.member, LifeOf(db, c.member), id)])
  }

  function Committed(db: Db, t: CallId): Db
    requires t in db.calls
  {
    var c := db.calls[t];
    if c.phase.Inserting? && c.work.Begin? then Inserted(db, t)
    else if c.phase.Updating? && c.member in db.rows then
      if c.work.Begin? then Replaced(db, t) else ConfirmedBy(db, t)
    else db
  }

  function Looked(db: Db, t: CallId): Phase
    requires t in db.calls && db.calls[t].phase.Looking?
  {
    var c := db.calls[t];
    if Visible(db, c.member, c.phase.seen) then Verdict(c, db.rows[c.member])
    else if c.work.Begin? then Absent
    else Done(NotEnrolled)
  }

  /** The primary key is checked before the foreign key. */
  function InsertTried(db: Db, t: CallId): Phase
    requires t in db.calls
  {
    var c := db.calls[t];
    if c.member in db.rows then Done(Raced)
    else if !(c.member in db.members && db.members[c.member] == c.household) then Done(MemberNotFound)
    else Inserting
  }

  /** A step that is not enabled, a lock wait among them, changes nothing. */
  function Step(db: Db, a: Action): Db {
    if !Enabled(db, a) then db
    else match a
      case Look(t, m, h, w) => db.(calls := db.calls[t := Call(m, h, w, Looking(Seen(db, m)))])
      case Lock(t) => To(db, t, Looked(db, t))
      case Insert(t) => To(db, t, InsertTried(db, t))
      case Commit(t) => Committed(db, t)
      case Abort(t) => To(db, t, Done(Failed))
      case Delete(t, m, h, seen) => if DeleteHits(db, m, h, seen) then Removed(db, t, m) else db
      case RecordStep(t, m, step, seen) => if StepHits(db, m, step, seen) then StepTaken(db, t, m, step) else db
      case MarkUsed(t, id) => if CodeHits(db, id) then CodeTaken(db, t, id) else db
  }

  function Run(db: Db, run: seq<Action>): Db
    decreases |run|
  {
    if run == [] then db else Run(Step(db, run[0]), run[1..])
  }

  // ----- What every step keeps -----

  predicate SameLife(e: Event, f: Event) {
    e.member == f.member && e.life == f.life
  }

  /** What may come after what, on one enrollment row. */
  predicate MayFollow(e: Event, f: Event) {
    && (SameLife(e, f) ==>
          && !e.Deleted?
          && (e.Confirmed? ==> !f.Confirmed? && !f.Began?)
          && (e.Accepted? && f.Accepted? ==> e.step < f.step))
    && (e.Redeemed? && f.Redeemed? ==> e.id != f.id)
  }

  predicate LogInOrder(log: seq<Event>) {
    forall i, j :: 0 <= i < j < |log| ==> MayFollow(log[i], log[j])
  }

  predicate Current(db: Db, e: Event) {
    e.member in db.rows && db.rows[e.member].life == e.life
  }

  /** A member's codes are exactly this batch. */
  ghost predicate HasBatch(db: Db, m: Member, first: CodeId, hashes: seq<string>) {
    forall id: CodeId :: (id in db.codes && db.codes[id].member == m <==> first <= id < first + |hashes|)
               && (first <= id < first + |hashes| ==> db.codes[id].hash == hashes[id - first])
  }

  /** Exactly the other members' codes are left, as they were. */
  ghost predicate OthersCodesStay(codes: map<CodeId, Code>, after: map<CodeId, Code>, m: Member) {
    forall id :: (id in after <==> id in codes && codes[id].member != m) && (id in after ==> after[id] == codes[id])
  }

  /** The other members' codes are all still there, as they were. */
  ghost predicate OthersCodesKept(codes: map<CodeId, Code>, after: map<CodeId, Code>, m: Member) {
    forall id :: id in codes && codes[id].member != m ==> id in after && after[id] == codes[id]
  }

  /** None of the n codes from the first one on is used. */
  predicate Unused(db: Db, first: CodeId, n: nat) {
    forall id: CodeId :: first <= id < first + n ==> id in db.codes && !db.codes[id].used
  }

  /** What a past event still says about the rows. */
  ghost predicate StillHolds(db: Db, e: Event) {
    && e.life < db.nextLife
    && (Current(db, e) ==>
          match e
          case Began(_, _, _, _) => true
          case Confirmed(_, m, _, secret, first, hashes) =>
            && db.rows[m].confirmed && db.rows[m].secret == secret
            && HasBatch(db, m, first, hashes)
          case Deleted(_, _, _) => false
          case Accepted(_, m, _, step) => db.rows[m].lastStep.Some? && step <= db.rows[m].lastStep.value
          case Redeemed(_, _, _, _) => true)
    && (e.Redeemed? ==> e.id < db.nextCode && (e.id in db.codes ==> db.codes[e.id].used))
  }

  ghost predicate PastHolds(db: Db) {
    forall i :: 0 <= i < |db.log| ==> StillHolds(db, db.log[i])
  }

  ghost predicate Numbered(db: Db) {
    && (forall m :: m in db.rows ==> db.rows[m].life < db.nextLife)
    && (forall id :: id in db.codes ==> id < db.nextCode)
  }

  /** Only a confirmed row has recovery codes. */
  ghost predicate CodesNeedConfirmation(db: Db) {
    forall id :: id in db.codes ==> db.codes[id].member in db.rows && db.rows[db.codes[id].member].confirmed
  }

  ghost predicate CallFits(db: Db, c: Call) {
    && (c.phase.Inserting? ==> c.work.Begin? && c.member !in db.rows)
    && (c.phase.Absent? ==> c.work.Begin?)
    && (c.phase.Updating? ==>
          && c.member in db.rows && db.rows[c.member].life == c.phase.life
          && !db.rows[c.member].confirmed && db.rows[c.member].household == c.household)
  }

  predicate Writing(c: Call) {
    c.phase.Inserting? || c.phase.Updating?
  }

  ghost predicate CallsFit(db: Db) {
    forall t :: t in db.calls ==> CallFits(db, db.calls[t])
  }

  /** One uncommitted writer per member. */
  ghost predicate OneWriter(db: Db) {
    forall t, u :: t in db.calls && u in db.calls && t != u && Writing(db.calls[t]) && Writing(db.calls[u]) ==>
      db.calls[t].member != db.calls[u].member
  }

  ghost predicate Inv(db: Db) {
    && Numbered(db) && CodesNeedConfirmation(db)
    && CallsFit(db) && OneWriter(db)
    && PastHolds(db) && LogInOrder(db.log)
  }

  /** Only a call's own phase changed. */
  lemma PhaseKeeps(db: Db, t: CallId, c: Call)
    requires Inv(db) && CallFits(db, c)
    requires Writing(c) ==> forall u :: u in db.calls && u != t && Writing(db.calls[u]) ==> db.calls[u].member != c.member
    ensures Inv(db.(calls := db.calls[t := c]))
  {
    var after := db.(calls := db.calls[t := c]);
    assert PastHolds(after) by {
      forall i | 0 <= i < |after.log| ensures StillHolds(after, after.log[i]) {
        assert StillHolds(db, db.log[i]);
        SameRowsStillHold(db, after, db.log[i]);
      }
    }
    assert CallsFit(after) by {
      forall u | u in after.calls ensures CallFits(after, after.calls[u]) {
        if u != t {
          assert CallFits(db, db.calls[u]);
        }
      }
    }
  }

  lemma SameRowsStillHold(db: Db, after: Db, e: Event)
    requires StillHolds(db, e) && db.rows == after.rows && db.codes == after.codes
    requires db.nextLife == after.nextLife && db.nextCode == after.nextCode
    ensures StillHolds(after, e)
  {
  }

  /** A new event that may follow every past one extends an ordered log. */
  lemma LogGrows(log: seq<Event>, f: Event)
    requires LogInOrder(log) && forall i :: 0 <= i < |log| ==> MayFollow(log[i], f)
    ensures LogInOrder(log + [f])
  {
  }

  /** Adding one event: the past and the log order are all that is left to show. */
  lemma EventKeeps(db: Db, after: Db, e: Event)
    requires Inv(db) && after.log == db.log + [e]
    requires StillHolds(after, e)
    requires forall i :: 0 <= i < |db.log| ==> StillHolds(after, db.log[i]) && MayFollow(db.log[i], e)
    ensures PastHolds(after) && LogInOrder(after.log)
  {
    hide StillHolds, MayFollow;
    LogGrows(db.log, e);
  }

  lemma InsertKeeps(db: Db, t: CallId)
    requires Inv(db) && t in db.calls && db.calls[t].phase.Inserting?
    ensures db.calls[t].work.Begin? && Inv(Inserted(db, t))
  {
    assert CallFits(db, db.calls[t]);
    var after := Inserted(db, t);
    var m := db.calls[t].member;
    forall i | 0 <= i < |db.log|
      ensures StillHolds(after, db.log[i]) && MayFollow(db.log[i], after.log[|db.log|])
    {
      assert StillHolds(db, db.log[i]);
    }
    EventKeeps(db, after, after.log[|db.log|]);
    OthersFit(db, after, t, m);
  }

  /** A write to `m` by its one writer leaves every other call fitting. */
  lemma OthersFit(db: Db, after: Db, t: CallId, m: Member)
    requires CallsFit(db) && OneWriter(db) && t in db.calls && Writing(db.calls[t]) && db.calls[t].member == m
    requires after.calls == db.calls[t := db.calls[t].(phase := Done(Ok))]
    requires forall n :: n != m ==> (n in db.rows <==> n in after.rows)
    requires forall n :: n != m && n in db.rows ==> after.rows[n] == db.rows[n]
    ensures CallsFit(after) && OneWriter(after)
  {
    forall u | u in after.calls ensures CallFits(after, after.calls[u]) {
      if u != t {
        assert CallFits(db, db.calls[u]);
      }
    }
  }

  lemma ReplaceKeeps(db: Db, t: CallId)
    requires Inv(db) && t in db.calls && db.calls[t].phase.Updating? && db.calls[t].work.Begin?
    ensures db.calls[t].member in db.rows && Inv(Replaced(db, t))
  {
    assert CallFits(db, db.calls[t]);
    var after := Replaced(db, t);
    forall i | 0 <= i < |db.log|
      ensures StillHolds(after, db.log[i]) && MayFollow(db.log[i], after.log[|db.log|])
    {
      assert StillHolds(db, db.log[i]);
    }
    EventKeeps(db, after, after.log[|db.log|]);
    OthersFit(db, after, t, db.calls[t].member);
  }

  lemma ConfirmPast(db: Db, t: CallId, e: Event)
    requires CallsFit(db) && t in db.calls && db.calls[t].phase.Updating? && db.calls[t].work.Confirm?
    requires Numbered(db) && StillHolds(db, e)
    ensures db.calls[t].member in db.rows
    ensures var after := ConfirmedBy(db, t); StillHolds(after, e) && MayFollow(e, after.log[|db.log|])
  {
    assert CallFits(db, db.calls[t]);
  }

  lemma ConfirmNew(db: Db, t: CallId)
    requires CallsFit(db) && t in db.calls && db.calls[t].phase.Updating? && db.calls[t].work.Confirm? && Numbered(db)
    ensures db.calls[t].member in db.rows
    ensures var after := ConfirmedBy(db, t); StillHolds(after, after.log[|db.log|])
  {
    assert CallFits(db, db.calls[t]);
  }

  lemma ConfirmKeeps(db: Db, t: CallId)
    requires Inv(db) && t in db.calls && db.calls[t].phase.Updating? && db.calls[t].work.Confirm?
    ensures db.calls[t].member in db.rows && Inv(ConfirmedBy(db, t))
  {
    hide StillHolds, MayFollow;
    assert CallFits(db, db.calls[t]);
    var after := ConfirmedBy(db, t);
    forall i | 0 <= i < |db.log|
      ensures StillHolds(after, db.log[i]) && MayFollow(db.log[i], after.log[|db.log|])
    {
      ConfirmPast(db, t, db.log[i]);
    }
    ConfirmNew(db, t);
    EventKeeps(db, after, after.log[|db.log|]);
    OthersFit(db, after, t, db.calls[t].member);
  }

  lemma RemoveKeeps(db: Db, t: CallId, m: Member)
    requires Inv(db) && m in db.rows && RowFree(db, m)
    ensures Inv(Removed(db, t, m))
  {
    var after := Removed(db, t, m);
    forall i | 0 <= i < |db.log|
      ensures StillHolds(after, db.log[i]) && MayFollow(db.log[i], after.log[|db.log|])
    {
      assert StillHolds(db, db.log[i]);
    }
    EventKeeps(db, after, after.log[|db.log|]);
    forall u | u in after.calls ensures CallFits(after, after.calls[u]) {
      assert CallFits(db, db.calls[u]);
    }
  }

  lemma StepKeeps(db: Db, t: CallId, m: Member, step: int)
    requires Inv(db) && m in db.rows && (db.rows[m].lastStep.None? || db.rows[m].lastStep.value < step)
    ensures Inv(StepTaken(db, t, m, step))
  {
    var after := StepTaken(db, t, m, step);
    forall i | 0 <= i < |db.log|
      ensures StillHolds(after, db.log[i]) && MayFollow(db.log[i], after.log[|db.log|])
    {
      assert StillHolds(db, db.log[i]);
    }
    EventKeeps(db, after, after.log[|db.log|]);
    forall u | u in after.calls ensures CallFits(after, after.calls[u]) {
      assert CallFits(db, db.calls[u]);
    }
  }

  lemma RedeemKeeps(db: Db, t: CallId, id: CodeId)
    requires Inv(db) && CodeHits(db, id)
    ensures Inv(CodeTaken(db, t, id))
  {
    var after := CodeTaken(db, t, id);
    forall i | 0 <= i < |db.log|
      ensures StillHolds(after, db.log[i]) && MayFollow(db.log[i], after.log[|db.log|])
    {
      assert StillHolds(db, db.log[i]);
    }
    EventKeeps(db, after, after.log[|db.log|]);
    forall u | u in after.calls ensures CallFits(after, after.calls[u]) {
      assert CallFits(db, db.calls[u]);
    }
  }

  /** Every statement of every call keeps the invariant. */
  lemma StepKeepsInv(db: Db, a: Action)
    requires Inv(db)
    ensures Inv(Step(db, a))
  {
    hide Inv;
    if Enabled(db, a) {
      match a
      case Look(t, m, h, w) => PhaseKeeps(db, t, Call(m, h, w, Looking(Seen(db, m))));
      case Lock(t) => LockKeeps(db, t);
      case Insert(t) => InsertTryKeeps(db, t);
      case Commit(t) =>
        if db.calls[t].phase.Inserting? {
          InsertKeeps(db, t);
        } else if db.calls[t].work.Begin? {
          ReplaceKeeps(db, t);
        } else {
          ConfirmKeeps(db, t);
        }
      case Abort(t) => PhaseKeeps(db, t, db.calls[t].(phase := Done(Failed)));
      case Delete(t, m, h, seen) =>
        if DeleteHits(db, m, h, seen) {
          RemoveKeeps(db, t, m);
        }
      case RecordStep(t, m, step, seen) =>
        if StepHits(db, m, step, seen) {
          StepKeeps(db, t, m, step);
        }
      case MarkUsed(t, id) =>
        if CodeHits(db, id) {
          RedeemKeeps(db, t, id);
        }
    }
  }

  /** Taking the row lock: nobody else is writing the row, and no insert of it can be pending. */
  lemma LockKeeps(db: Db, t: CallId)
    requires Inv(db) && Enabled(db, Lock(t))
    ensures Inv(To(db, t, Looked(db, t)))
  {
    var c := db.calls[t].(phase := Looked(db, t));
    forall u | u in db.calls && u != t && Writing(db.calls[u]) && Writing(c)
      ensures db.calls[u].member != c.member
    {
      assert CallFits(db, db.calls[u]);
    }
    PhaseKeeps(db, t, c);
  }

  lemma InsertTryKeeps(db: Db, t: CallId)
    requires Inv(db) && Enabled(db, Insert(t))
    ensures Inv(To(db, t, InsertTried(db, t)))
  {
    assert CallFits(db, db.calls[t]);
    var c := db.calls[t].(phase := InsertTried(db, t));
    forall u | u in db.calls && u != t && Writing(db.calls[u]) && Writing(c)
      ensures db.calls[u].member != c.member
    {
      assert CallFits(db, db.calls[u]);
    }
    PhaseKeeps(db, t, c);
  }

  /** Before anyone has called. */
  predicate Untouched(db: Db) {
    db.rows == map[] && db.codes == map[] && db.calls == map[] && db.log == []
  }

  lemma {:induction false} RunKeepsInv(db: Db, run: seq<Action>)
    requires Inv(db)
    ensures Inv(Run(db, run))
    decreases |run|
  {
    hide Inv, Step;
    if run != [] {
      StepKeepsInv(db, run[0]);
      RunKeepsInv(Step(db, run[0]), run[1..]);
    }
  }

  // ----- Main results, over every interleaving -----

  /** Whatever order enrolling, confirming and deleting calls run in, one confirm wins per row lifetime. */
  lemma OneConfirmPerLife(db: Db, run: seq<Action>, i: nat, j: nat)
    requires Untouched(db)
    requires var log := Run(db, run).log;
             i < |log| && j < |log| && log[i].Confirmed? && log[j].Confirmed? && SameLife(log[i], log[j])
    ensures i == j
  {
    RunKeepsInv(db, run);
  }

  /**
   A confirmed row keeps the secret it was confirmed with, and the member's codes are exactly the
   winner's hashes, until the row is deleted.
   */
  lemma ConfirmStands(db: Db, run: seq<Action>, i: nat)
    requires Untouched(db)
    requires var after := Run(db, run);
             i < |after.log| && after.log[i].Confirmed? && Current(after, after.log[i])
    ensures var after := Run(db, run);
            var e := after.log[i];
            && after.rows[e.member].confirmed && after.rows[e.member].secret == e.secret
            && HasBatch(after, e.member, e.first, e.hashes)
  {
    RunKeepsInv(db, run);
    assert StillHolds(Run(db, run), Run(db, run).log[i]);
  }

  /** Accepted login steps strictly increase per enrollment row (RFC 6238, section 5.2). */
  lemma AcceptedStepsRise(db: Db, run: seq<Action>, i: nat, j: nat)
    requires Untouched(db)
    requires var log := Run(db, run).log;
             i < j < |log| && log[i].Accepted? && log[j].Accepted? && SameLife(log[i], log[j])
    ensures Run(db, run).log[i].step < Run(db, run).log[j].step
  {
    RunKeepsInv(db, run);
    assert MayFollow(Run(db, run).log[i], Run(db, run).log[j]);
  }

  lemma NoCodeRedeemedTwice(db: Db, run: seq<Action>, i: nat, j: nat)
    requires Untouched(db)
    requires var log := Run(db, run).log; i < j < |log| && log[i].Redeemed? && log[j].Redeemed?
    ensures Run(db, run).log[i].id != Run(db, run).log[j].id
  {
    RunKeepsInv(db, run);
    assert MayFollow(Run(db, run).log[i], Run(db, run).log[j]);
  }

  /** Once a row is deleted nothing more is accepted, redeemed or confirmed in its name. */
  lemma DeletedIsOver(db: Db, run: seq<Action>, i: nat, j: nat)
    requires Untouched(db)
    requires var log := Run(db, run).log; i < j < |log| && log[i].Deleted?
    ensures !SameLife(Run(db, run).log[i], Run(db, run).log[j])
  {
    RunKeepsInv(db, run);
    assert MayFollow(Run(db, run).log[i], Run(db, run).log[j]);
  }

  /** The confirming transaction's DELETE of earlier recovery codes never finds one. */
  lemma ConfirmFindsNoCodes(db: Db, run: seq<Action>, t: CallId)
    requires Untouched(db)
    requires var at := Run(db, run);
             Enabled(at, Commit(t)) && at.calls[t].phase.Updating? && at.calls[t].work.Confirm?
    ensures var at := Run(db, run); forall id :: id in at.codes ==> at.codes[id].member != at.calls[t].member
  {
    RunKeepsInv(db, run);
    assert CallFits(Run(db, run), Run(db, run).calls[t]);
  }

  /** The step a row shows, if it is still the row of that life. */
  predicate SameRow(db: Db, after: Db, m: Member) {
    m in db.rows && m in after.rows && db.rows[m].life == after.rows[m].life
  }

  /**
   No statement spends a credential unseen: a row's last step changes only upwards and a code turns
   used only once, each with its own event.
   */
  lemma CredentialsMoveByEvent(db: Db, a: Action, m: Member, id: CodeId)
    requires Inv(db)
    ensures var after := Step(db, a);
            && (SameRow(db, after, m) && after.rows[m].lastStep != db.rows[m].lastStep ==>
                  && a.RecordStep? && a.member == m && after.rows[m].lastStep == Some(a.step)
                  && (db.rows[m].lastStep.Some? ==> db.rows[m].lastStep.value < a.step)
                  && after.log == db.log + [Accepted(a.who, m, db.rows[m].life, a.step)])
            && (id in db.codes && id in after.codes && after.codes[id] != db.codes[id] ==>
                  && a == MarkUsed(a.who, id) && !db.codes[id].used
                  && after.codes == db.codes[id := db.codes[id].(used := true)]
                  && |after.log| == |db.log| + 1 && after.log[|db.log|].Redeemed? && after.log[|db.log|].id == id)
  {
    if a.Commit? && Enabled(db, a) {
      assert CallFits(db, db.calls[a.who]);
    }
  }

  /** A statement deletes, steps or locks only the very row that was there when it started. */
  lemma HitsWhatItSaw(db: Db, a: Action)
    requires Enabled(db, a)
    ensures (a.Delete? || a.RecordStep?) && Step(db, a) != db ==>
              a.member in db.rows && a.seen == Some(db.rows[a.member].life)
    ensures a.Lock? && Step(db, a).calls[a.who].phase.Updating? ==>
              var c := db.calls[a.who];
              c.member in db.rows && c.phase.seen == Some(db.rows[c.member].life)
  {
  }

  /** A transaction that is over stays over, with its reply, until its call starts another. */
  lemma RepliesStand(db: Db, a: Action, t: CallId)
    requires t in db.calls && db.calls[t].phase.Done? && !(a.Look? && a.who == t)
    ensures t in Step(db, a).calls && Step(db, a).calls[t] == db.calls[t]
  {
  }

  // ----- Which secret a confirmation confirms -----

  /** The secret of the member's latest BeginEnrollment. */
  function LastBegun(log: seq<Event>, m: Member): Option<Secret> {
    if log == [] then None
    else
      var e := log[|log| - 1];
      if e.Began? && e.member == m then Some(e.secret) else LastBegun(log[..|log| - 1], m)
  }

  ghost predicate SecretsLatest(db: Db) {
    && (forall m :: m in db.rows ==> LastBegun(db.log, m) == Some(db.rows[m].secret))
    && (forall i :: 0 <= i < |db.log| && db.log[i].Confirmed? ==>
          LastBegun(db.log[..i], db.log[i].member) == Some(db.log[i].secret))
  }

  lemma LastBegunSnoc(log: seq<Event>, e: Event, m: Member)
    ensures LastBegun(log + [e], m) == if e.Began? && e.member == m then Some(e.secret) else LastBegun(log, m)
  {
    assert (log + [e])[..|log|] == log;
  }

  lemma {:induction false} LastBegunJoin(a: seq<Event>, b: seq<Event>, m: Member)
    ensures LastBegun(a + b, m) == if LastBegun(b, m).Some? then LastBegun(b, m) else LastBegun(a, m)
    decreases |b|
  {
    if b == [] {
      assert a + b == a;
    } else {
      var n := |b| - 1;
      LastBegunJoin(a, b[..n], m);
      LastBegunSnoc(a + b[..n], b[n], m);
      LastBegunSnoc(b[..n], b[n], m);
      assert b[..n] + [b[n]] == b && (a + b[..n]) + [b[n]] == a + b;
    }
  }

  lemma StepKeepsSecrets(db: Db, a: Action)
    requires Inv(db) && SecretsLatest(db)
    ensures SecretsLatest(Step(db, a))
  {
    hide LastBegun, PastHolds, LogInOrder, CallsFit, OneWriter, CodesNeedConfirmation, Numbered;
    var after := Step(db, a);
    StepLogs(db, a);
    if after.log != db.log {
      var e := after.log[|db.log|];
      assert after.log == db.log + [e];
      forall m | m in after.rows ensures LastBegun(after.log, m) == Some(after.rows[m].secret) {
        LastBegunSnoc(db.log, e, m);
      }
      forall i | 0 <= i < |after.log| && after.log[i].Confirmed?
        ensures LastBegun(after.log[..i], after.log[i].member) == Some(after.log[i].secret)
      {
        assert after.log[..i] == db.log[..i];
        assert i == |db.log| ==> db.log[..i] == db.log;
      }
    }
  }

  // ----- Which enrollment is which -----

  /** The log shows the enrollment of this life deleted. */
  predicate Ended(log: seq<Event>, m: Member, life: Life) {
    exists i :: 0 <= i < |log| && log[i].Deleted? && log[i].member == m && log[i].life == life
  }

  predicate Started(log: seq<Event>, m: Member, life: Life) {
    exists i :: 0 <= i < |log| && log[i].Began? && log[i].member == m && log[i].life == life
  }

  /** A row's life was begun, and a life once begun goes on until the log shows its end. */
  ghost predicate LivesLogged(db: Db) {
    && (forall m :: m in db.rows ==> Started(db.log, m, db.rows[m].life))
    && (forall m, life :: Started(db.log, m, life) ==>
          (m in db.rows && db.rows[m].life == life) || Ended(db.log, m, life))
  }

  lemma LogsMore(log: seq<Event>, e: Event, m: Member, life: Life)
    ensures Started(log + [e], m, life) <==> Started(log, m, life) || (e.Began? && e.member == m && e.life == life)
    ensures Ended(log + [e], m, life) <==> Ended(log, m, life) || (e.Deleted? && e.member == m && e.life == life)
  {
    var more := log + [e];
    assert more[|log|] == e && forall i :: 0 <= i < |log| ==> more[i] == log[i];
  }

  lemma StepKeepsLives(db: Db, a: Action)
    requires Inv(db) && LivesLogged(db)
    ensures LivesLogged(Step(db, a))
  {
    hide Started, Ended, Step, LivesLogged, Inv;
    var after := Step(db, a);
    StepLogs(db, a);
    StepMovesLives(db, a);
    if after.log == db.log {
      SameLives(db, after);
    } else {
      assert after.log == db.log + [after.log[|db.log|]];
      EventMovesLives(db, after, after.log[|db.log|]);
    }
  }

  /** What one statement's event says of the rows: it begins its row's life, ends it, or leaves every life. */
  ghost predicate LivesMove(db: Db, after: Db, e: Event) {
    && (e.Deleted? ==> Seen(db, e.member) == Some(e.life) && Seen(after, e.member) == None)
    && (e.Began? ==> Seen(db, e.member) in {None, Some(e.life)} && Seen(after, e.member) == Some(e.life))
    && (forall m :: (!e.Deleted? && !e.Began?) || e.member != m ==> Seen(after, m) == Seen(db, m))
  }

  lemma StepMovesLives(db: Db, a: Action)
    requires Inv(db)
    ensures var after := Step(db, a);
            if after.log == db.log then forall m :: Seen(after, m) == Seen(db, m)
            else |after.log| > |db.log| && LivesMove(db, after, after.log[|db.log|])
  {
    hide PastHolds, LogInOrder, OneWriter, CodesNeedConfirmation, Numbered;
  }

  lemma SameLives(db: Db, after: Db)
    requires LivesLogged(db) && after.log == db.log && forall m :: Seen(after, m) == Seen(db, m)
    ensures LivesLogged(after)
  {
    hide Started, Ended;
    forall m ensures m in db.rows <==> m in after.rows {
      assert Seen(after, m) == Seen(db, m);
    }
    forall m | m in after.rows ensures after.rows[m].life == db.rows[m].life {
      assert Seen(after, m) == Seen(db, m);
    }
  }

  lemma EventMovesLives(db: Db, after: Db, e: Event)
    requires LivesLogged(db) && after.log == db.log + [e] && LivesMove(db, after, e)
    ensures LivesLogged(after)
  {
    hide Started, Ended;
    forall m, life
      ensures Started(after.log, m, life) <==> Started(db.log, m, life) || (e.Began? && e.member == m && e.life == life)
      ensures Ended(after.log, m, life) <==> Ended(db.log, m, life) || (e.Deleted? && e.member == m && e.life == life)
    {
      LogsMore(db.log, e, m, life);
    }
    forall m ensures m in after.rows ==> Started(after.log, m, after.rows[m].life) {
      assert Seen(after, m) == Seen(db, m) || e.member == m;
    }
    forall m, life | Started(after.log, m, life)
      ensures (m in after.rows && after.rows[m].life == life) || Ended(after.log, m, life)
    {
      assert Seen(after, m) == Seen(db, m) || e.member == m;
    }
  }

  // ----- Which codes are spent -----

  predicate Spent(log: seq<Event>, id: CodeId) {
    exists i :: 0 <= i < |log| && log[i].Redeemed? && log[i].id == id
  }

  /** A code is used exactly if the log shows it redeemed. */
  ghost predicate CodesLogged(db: Db) {
    forall id :: id in db.codes ==> (db.codes[id].used <==> Spent(db.log, id))
  }

  lemma SpentMore(log: seq<Event>, e: Event, id: CodeId)
    ensures Spent(log + [e], id) <==> Spent(log, id) || (e.Redeemed? && e.id == id)
  {
    var more := log + [e];
    assert more[|log|] == e && forall i :: 0 <= i < |log| ==> more[i] == log[i];
  }

  /** Codes not handed out yet are not spent. */
  lemma NewIsUnspent(db: Db, id: CodeId)
    requires PastHolds(db) && id >= db.nextCode
    ensures !Spent(db.log, id)
  {
    forall i | 0 <= i < |db.log| ensures db.log[i].Redeemed? ==> db.log[i].id != id {
      assert StillHolds(db, db.log[i]);
    }
  }

  /** The statement logged this code as redeemed. */
  predicate JustRedeemed(db: Db, after: Db, id: CodeId) {
    |after.log| > |db.log| && after.log[|db.log|].Redeemed? && after.log[|db.log|].id == id
  }

  /** What one statement does to a code: it is new and unused, or used exactly if it was or was redeemed. */
  predicate CodeMoves(db: Db, after: Db, id: CodeId) {
    id in after.codes ==>
      if id in db.codes then after.codes[id].used <==> db.codes[id].used || JustRedeemed(db, after, id)
      else id >= db.nextCode && !after.codes[id].used && !JustRedeemed(db, after, id)
  }

  lemma StepMovesCode(db: Db, a: Action, id: CodeId)
    requires Numbered(db)
    ensures CodeMoves(db, Step(db, a), id)
  {
  }

  lemma StepKeepsSpent(db: Db, a: Action)
    requires Inv(db) && CodesLogged(db)
    ensures CodesLogged(Step(db, a))
  {
    hide Step, PastHolds, LogInOrder, CallsFit, OneWriter, CodesNeedConfirmation, Numbered, Spent;
    var after := Step(db, a);
    StepLogs(db, a);
    forall id | id in after.codes ensures after.codes[id].used <==> Spent(after.log, id) {
      StepMovesCode(db, a, id);
      if id !in db.codes {
        NewIsUnspent(db, id);
      }
      if after.log != db.log {
        assert after.log == db.log + [after.log[|db.log|]];
        SpentMore(db.log, after.log[|db.log|], id);
      }
    }
  }

  /** What every reachable state satisfies. */
  ghost predicate Sound(db: Db) {
    Inv(db) && SecretsLatest(db) && LivesLogged(db) && CodesLogged(db)
  }

  lemma StepKeepsSound(db: Db, a: Action)
    requires Sound(db)
    ensures Sound(Step(db, a))
  {
    hide Inv, SecretsLatest, LivesLogged, CodesLogged, Step;
    StepKeepsInv(db, a);
    StepKeepsSecrets(db, a);
    StepKeepsLives(db, a);
    StepKeepsSpent(db, a);
  }

  lemma {:induction false} RunKeepsSound(db: Db, run: seq<Action>)
    requires Sound(db)
    ensures Sound(Run(db, run)) && db.log <= Run(db, run).log
    decreases |run|
  {
    hide Sound, Step;
    if run != [] {
      StepKeepsSound(db, run[0]);
      StepLogs(db, run[0]);
      RunKeepsSound(Step(db, run[0]), run[1..]);
    }
  }

  /** In every state any run reaches, a stored code is used if and only if the log shows it redeemed. */
  lemma UsedIsRedeemed(db: Db, run: seq<Action>, id: CodeId)
    requires Untouched(db) && id in Run(db, run).codes
    ensures Run(db, run).codes[id].used <==> Spent(Run(db, run).log, id)
  {
    hide Inv, SecretsLatest, LivesLogged, Spent;
    UntouchedSound(db);
    RunKeepsSound(db, run);
  }

  /** No BeginEnrollment of the member is logged, or the last one stored this secret. */
  predicate SecretKept(since: seq<Event>, m: Member, secret: Secret) {
    LastBegun(since, m) == None || LastBegun(since, m) == Some(secret)
  }

  /**
   A caller reads and validates a pending secret, and any run later a confirmation commits: the
   secret it confirms is the one that was read if and only if no BeginEnrollment of the member was
   logged since, or the last one stored that same secret.
   */
  lemma ConfirmsWhatWasRead(db: Db, run: seq<Action>, t: CallId)
    requires Sound(db)
    requires var at := Run(db, run);
             && t in at.calls && at.calls[t].work.Confirm? && at.calls[t].phase.Updating?
             && at.calls[t].member in db.rows
    ensures var at := Run(db, run);
            var m := at.calls[t].member;
            var after := Step(at, Commit(t));
            && db.log <= at.log && |after.log| == |at.log| + 1 && after.log[|at.log|].Confirmed?
            && (after.log[|at.log|].secret == db.rows[m].secret <==>
                  SecretKept(at.log[|db.log|..], m, db.rows[m].secret))
  {
    hide Inv, LivesLogged, LastBegun, Step;
    var at := Run(db, run);
    RunKeepsSound(db, run);
    ConfirmCommits(at, t);
    assert at.log == db.log + at.log[|db.log|..];
    LastBegunJoin(db.log, at.log[|db.log|..], at.calls[t].member);
  }

  lemma EndedSplit(a: seq<Event>, b: seq<Event>, m: Member, life: Life)
    ensures Ended(a + b, m, life) <==> Ended(a, m, life) || Ended(b, m, life)
  {
    var both := a + b;
    assert forall i :: 0 <= i < |a| ==> both[i] == a[i];
    assert forall i :: 0 <= i < |b| ==> both[|a| + i] == b[i];
    assert forall i :: |a| <= i < |both| ==> both[i] == b[i - |a|];
  }

  lemma RowNotEnded(db: Db, m: Member)
    requires Sound(db) && m in db.rows
    ensures !Ended(db.log, m, db.rows[m].life)
  {
    hide LogInOrder, CallsFit, OneWriter, CodesNeedConfirmation, SecretsLatest, LivesLogged;
    assert forall i :: 0 <= i < |db.log| ==> StillHolds(db, db.log[i]);
  }

  lemma StartedStays(a: seq<Event>, b: seq<Event>, m: Member, life: Life)
    requires Started(a, m, life)
    ensures Started(a + b, m, life)
  {
    var i :| 0 <= i < |a| && a[i].Began? && a[i].member == m && a[i].life == life;
    assert (a + b)[i] == a[i];
  }

  /** A confirmation that follows a read of the row, by what the log shows in between. */
  lemma SecretConfirmed(read: Db, log: seq<Event>, m: Member, secret: Secret)
    requires Sound(read) && m in read.rows && read.log <= log && LastBegun(log, m) == Some(secret)
    ensures secret == read.rows[m].secret <==> SecretKept(log[|read.log|..], m, read.rows[m].secret)
  {
    hide Inv, LivesLogged, LastBegun;
    assert log == read.log + log[|read.log|..];
    LastBegunJoin(read.log, log[|read.log|..], m);
  }

  /** Two states' rows of one member are one enrollment exactly when its end was not logged in between. */
  lemma SameEnrollmentExactly(db: Db, after: Db, m: Member)
    requires Sound(db) && Sound(after) && db.log <= after.log && m in db.rows && m in after.rows
    ensures after.rows[m].life == db.rows[m].life <==> !Ended(after.log[|db.log|..], m, db.rows[m].life)
  {
    hide Inv, SecretsLatest, Started, Ended;
    var life, since := db.rows[m].life, after.log[|db.log|..];
    assert after.log == db.log + since;
    RowNotEnded(db, m);
    RowNotEnded(after, m);
    EndedSplit(db.log, since, m, life);
    StartedStays(db.log, since, m, life);
  }

  /** Before anyone has called, all of this holds. */
  lemma UntouchedSound(db: Db)
    requires Untouched(db)
    ensures Sound(db)
  {
  }

  // ----- What a call can count on between its own statements -----

  /** The events of one call, in order. */
  function Own(log: seq<Event>, me: CallId): seq<Event> {
    if log == [] then []
    else Own(log[..|log| - 1], me) + (if log[|log| - 1].who == me then [log[|log| - 1]] else [])
  }

  predicate ByOthers(run: seq<Action>, me: CallId) {
    forall i :: 0 <= i < |run| ==> run[i].who != me
  }

  predicate SameCall(db: Db, after: Db, me: CallId) {
    (me in db.calls <==> me in after.calls) && (me in db.calls ==> db.calls[me] == after.calls[me])
  }

  lemma OwnSnoc(log: seq<Event>, e: Event, me: CallId)
    ensures Own(log + [e], me) == Own(log, me) + (if e.who == me then [e] else [])
  {
    assert (log + [e])[..|log|] == log;
  }

  /** A statement adds at most one event, and it is the caller's. */
  lemma StepLogs(db: Db, a: Action)
    ensures var after := Step(db, a);
            after.log == db.log || (|after.log| == |db.log| + 1 && after.log[..|db.log|] == db.log && after.log[|db.log|].who == a.who)
  {
  }

  lemma OtherStepSameCall(db: Db, a: Action, me: CallId)
    requires a.who != me
    ensures SameCall(db, Step(db, a), me)
  {
  }

  lemma OtherStep(db: Db, a: Action, me: CallId)
    requires a.who != me
    ensures Own(Step(db, a).log, me) == Own(db.log, me) && SameCall(db, Step(db, a), me)
  {
    hide Step, Own;
    var after := Step(db, a);
    OtherStepSameCall(db, a, me);
    StepLogs(db, a);
    if after.log != db.log {
      var e := after.log[|db.log|];
      assert after.log == db.log + [e];
      OwnSnoc(db.log, e, me);
    }
  }

  lemma {:induction false} OthersRun(db: Db, run: seq<Action>, me: CallId)
    requires ByOthers(run, me) && Sound(db)
    ensures Own(Run(db, run).log, me) == Own(db.log, me) && SameCall(db, Run(db, run), me)
    ensures Sound(Run(db, run)) && db.log <= Run(db, run).log
    decreases |run|
  {
    hide Step, Sound, Own;
    if run != [] {
      assert run[0].who != me;
      OtherStep(db, run[0], me);
      StepKeepsSound(db, run[0]);
      StepLogs(db, run[0]);
      OthersRun(Step(db, run[0]), run[1..], me);
    }
  }

  /** A code id always means the same code, and a deleted or used one never comes back. */
  predicate CodeKept(db: Db, after: Db, id: CodeId) {
    && db.nextCode <= after.nextCode
    && (id in after.codes && id < db.nextCode ==>
          && id in db.codes && after.codes[id].hash == db.codes[id].hash && after.codes[id].member == db.codes[id].member
          && (db.codes[id].used ==> after.codes[id].used))
  }

  lemma StepKeepsCode(db: Db, a: Action, id: CodeId)
    ensures CodeKept(db, Step(db, a), id)
  {
  }

  lemma {:induction false} RunKeepsCode(db: Db, run: seq<Action>, id: CodeId)
    ensures CodeKept(db, Run(db, run), id)
    decreases |run|
  {
    hide Step;
    if run != [] {
      StepKeepsCode(db, run[0], id);
      RunKeepsCode(Step(db, run[0]), run[1..], id);
    }
  }

  /** What a call's own single statement logs. */
  lemma OwnStep(db: Db, a: Action, me: CallId)
    requires a.who == me
    ensures var after := Step(db, a);
            && (after.log == db.log ==> Own(after.log, me) == Own(db.log, me) + [])
            && (after.log != db.log ==> Own(after.log, me) == Own(db.log, me) + [after.log[|db.log|]])
  {
    var after := Step(db, a);
    StepLogs(db, a);
    if after.log != db.log {
      assert after.log == db.log + [after.log[|db.log|]];
      OwnSnoc(db.log, after.log[|db.log|], me);
    }
  }

  /** ListUnusedRecoveryCodes, below a given id, in order. */
  function UnusedBelow(db: Db, m: Member, n: nat): (r: seq<CodeId>)
    ensures forall i :: 0 <= i < |r| ==> r[i] in db.codes && db.codes[r[i]].member == m && !db.codes[r[i]].used
    ensures forall id :: id in db.codes && id < n && db.codes[id].member == m && !db.codes[id].used ==> id in r
  {
    if n == 0 then []
    else
      UnusedBelow(db, m, n - 1) +
      (if n - 1 in db.codes && db.codes[n - 1].member == m && !db.codes[n - 1].used then [n - 1] else [])
  }

  // ----- One call's own transaction steps -----

  /** Nobody is in the middle of writing the member's row. */
  predicate Undisturbed(db: Db, m: Member) {
    RowFree(db, m) && NoInsertPending(db, m)
  }

  lemma LookStarts(db: Db, a: Action)
    requires a.Look? && (a.who in db.calls ==> db.calls[a.who].phase.Done?)
    ensures var after := Step(db, a);
            && after.log == db.log && a.who in after.calls
            && after.calls[a.who] == Call(a.member, a.household, a.work, Looking(Seen(db, a.member)))
            && after.rows == db.rows && after.members == db.members
            && (Undisturbed(db, a.member) ==> Undisturbed(after, a.member))
  {
  }

  lemma LockAnswers(db: Db, me: CallId)
    requires Enabled(db, Lock(me))
    ensures var after := Step(db, Lock(me));
            && after.log == db.log && me in after.calls
            && after.calls[me] == db.calls[me].(phase := Looked(db, me))
            && after.rows == db.rows && after.members == db.members
            && (Looked(db, me).Absent? && Undisturbed(db, db.calls[me].member) ==> Undisturbed(after, db.calls[me].member))
  {
  }

  lemma InsertAnswers(db: Db, me: CallId)
    requires Enabled(db, Insert(me))
    ensures var after := Step(db, Insert(me));
            && after.log == db.log && me in after.calls
            && after.calls[me] == db.calls[me].(phase := InsertTried(db, me))
            && after.rows == db.rows && after.members == db.members
  {
  }

  /** What an undisturbed BeginEnrollment is told. */
  function BeginReply(db: Db, m: Member, h: Household): Reply {
    if m in db.rows then
      if db.rows[m].household != h then MemberNotFound else if db.rows[m].confirmed then AlreadyEnrolled else Ok
    else if m in db.members && db.members[m] == h then Ok
    else MemberNotFound
  }

  /** What an undisturbed ConfirmEnrollmentWithCodes is told. */
  function ConfirmReply(db: Db, m: Member, h: Household): Reply {
    if m !in db.rows || db.rows[m].household != h then NotEnrolled
    else if db.rows[m].confirmed then AlreadyEnrolled
    else Ok
  }

  lemma StepOutcome(db: Db, a: Action)
    requires a.RecordStep? && Enabled(db, a)
    ensures var after := Step(db, a);
            if StepHits(db, a.member, a.step, a.seen)
            then a.member in after.rows && after.log == db.log + [Accepted(a.who, a.member, after.rows[a.member].life, a.step)]
            else after == db
  {
  }

  lemma CodeOutcome(db: Db, a: Action)
    requires a.MarkUsed?
    ensures var after := Step(db, a);
            && after.rows == db.rows && after.calls == db.calls
            && if CodeHits(db, a.id)
               then && a.id in after.codes && after.codes[a.id] == db.codes[a.id].(used := true)
                    && after.log == db.log + [Redeemed(a.who, db.codes[a.id].member, LifeOf(db, db.codes[a.id].member), a.id)]
               else after == db
  {
  }

  lemma DeleteOutcome(db: Db, a: Action)
    requires a.Delete? && Enabled(db, a)
    ensures var after := Step(db, a);
            if DeleteHits(db, a.member, a.household, a.seen)
            then && a.member !in after.rows && OthersCodesStay(db.codes, after.codes, a.member)
                 && after.log == db.log + [Deleted(a.who, a.member, db.rows[a.member].life)]
            else after == db
  {
  }

  lemma AbortEnds(db: Db, me: CallId)
    requires me in db.calls && !db.calls[me].phase.Done?
    ensures var after := Step(db, Abort(me));
            after.log == db.log && me in after.calls && after.calls[me] == db.calls[me].(phase := Done(Failed))
  {
  }

  /** What the enrolling commit leaves: the member's row, pending, with this call's secret. */
  lemma BeginCommits(db: Db, me: CallId)
    requires Sound(db) && me in db.calls && db.calls[me].work.Begin? && Writing(db.calls[me])
    ensures var after := Step(db, Commit(me));
            var c := db.calls[me];
            && me in after.calls && after.calls[me].phase == Done(Ok)
            && c.member in after.rows && !after.rows[c.member].confirmed
            && after.rows[c.member].secret == c.work.secret && after.rows[c.member].household == c.household
            && after.log == db.log + [Began(me, c.member, after.rows[c.member].life, c.work.secret)]
  {
    hide PastHolds, LogInOrder, OneWriter, CodesNeedConfirmation, Numbered;
    assert CallFits(db, db.calls[me]);
  }

  /** The member's codes are replaced by unused ones with the call's hashes; nobody else's are touched. */
  lemma ConfirmedCodes(db: Db, t: CallId)
    requires Numbered(db) && t in db.calls && db.calls[t].work.Confirm? && db.calls[t].member in db.rows
    ensures var c, after := db.calls[t], ConfirmedBy(db, t);
            && HasBatch(after, c.member, db.nextCode, c.work.hashes) && Unused(after, db.nextCode, |c.work.hashes|)
            && OthersCodesKept(db.codes, after.codes, c.member)
  {
  }

  /** What the confirming commit leaves: a confirmed row and exactly the call's hashes as codes. */
  lemma ConfirmCommits(db: Db, me: CallId)
    requires Sound(db) && me in db.calls && db.calls[me].work.Confirm? && db.calls[me].phase.Updating?
    ensures var after := Step(db, Commit(me));
            var c := db.calls[me];
            && me in after.calls && after.calls[me].phase == Done(Ok)
            && c.member in after.rows && after.rows[c.member].confirmed && after.rows[c.member].household == c.household
            && after.log == db.log + [Confirmed(me, c.member, after.rows[c.member].life, after.rows[c.member].secret,
                                                db.nextCode, c.work.hashes)]
            && LastBegun(db.log, c.member) == Some(after.rows[c.member].secret)
            && HasBatch(after, c.member, db.nextCode, c.work.hashes)
            && Unused(after, db.nextCode, |c.work.hashes|)
            && OthersCodesKept(db.codes, after.codes, c.member)
  {
    hide PastHolds, LogInOrder, OneWriter, CodesNeedConfirmation, HasBatch, Unused, OthersCodesKept, WithoutCodes, NewCodes;
    assert CallFits(db, db.calls[me]);
    ConfirmedCodes(db, me);
  }

  lemma RunOfThree(db: Db, a: Action, b: Action, c: Action)
    ensures Run(db, [a, b, c]) == Step(Step(Step(db, a), b), c)
  {
    hide Step;
    assert [a, b, c][1..] == [b, c] && [b, c][1..] == [c] && [c][1..] == [];
    assert Run(db, [a, b, c]) == Run(Step(db, a), [b, c]);
    assert Run(Step(db, a), [b, c]) == Run(Step(Step(db, a), b), [c]);
    assert Run(Step(Step(db, a), b), [c]) == Run(Step(Step(Step(db, a), b), c), []);
  }

  lemma InvNumbered(db: Db)
    requires Inv(db)
    ensures Numbered(db)
  {
  }

  lemma SameNumbers(db: Db, after: Db)
    requires Numbered(db) && after.rows == db.rows && after.codes == db.codes
    requires after.nextLife == db.nextLife && after.nextCode == db.nextCode
    ensures Numbered(after)
  {
  }

  /** One transaction on an unlocked pending row, start to commit. */
  lemma TransactionAlone(db: Db, t: CallId, m: Member, work: Work)
    requires Inv(db) && m in db.rows && !db.rows[m].confirmed && RowFree(db, m)
    requires t in db.calls ==> db.calls[t].phase.Done?
    ensures var h := db.rows[m].household;
            var after := Run(db, [Look(t, m, h, work), Lock(t), Commit(t)]);
            && m in after.rows && after.rows[m].life == db.rows[m].life && after.rows[m].household == h
            && after.rows[m].confirmed == work.Confirm?
            && after.rows[m].secret == (if work.Begin? then work.secret else db.rows[m].secret)
            && RowFree(after, m) && (forall u :: u != t ==> SameCall(db, after, u))
            && (work.Begin? ==> after.codes == db.codes)
            && (work.Confirm? ==>
                  && HasBatch(after, m, db.nextCode, work.hashes) && Unused(after, db.nextCode, |work.hashes|)
                  && OthersCodesKept(db.codes, after.codes, m))
  {
    hide Inv, HasBatch, Unused, OthersCodesKept, WithoutCodes, NewCodes, Numbered;
    var h := db.rows[m].household;
    var a, b := Look(t, m, h, work), Lock(t);
    var one := Step(db, a);
    var two := Step(one, b);
    RunOfThree(db, a, b, Commit(t));
    assert one.calls[t].phase == Looking(Some(db.rows[m].life));
    assert two.calls[t].phase == Updating(db.rows[m].life);
    if work.Confirm? {
      InvNumbered(db);
      SameNumbers(db, two);
      ConfirmedCodes(two, t);
    }
  }

  /**
   A code is validated against one secret and another is confirmed: `u` replaces the pending secret
   after `t` has read and validated it, before `t` takes the row.
   */
  lemma ValidatedIsNotAlwaysConfirmed(db: Db, t: CallId, u: CallId, m: Member, secret: Secret, hashes: seq<string>)
    requires Inv(db) && m in db.rows && !db.rows[m].confirmed && RowFree(db, m) && t !in db.calls && u !in db.calls && t != u
    requires secret != db.rows[m].secret
    ensures var h := db.rows[m].household;
            var replaced := Run(db, [Look(u, m, h, Begin(secret)), Lock(u), Commit(u)]);
            var after := Run(replaced, [Look(t, m, h, Confirm(hashes)), Lock(t), Commit(t)]);
            m in after.rows && after.rows[m].confirmed && after.rows[m].secret != db.rows[m].secret
  {
    hide Inv, Step;
    var h := db.rows[m].household;
    var run := [Look(u, m, h, Begin(secret)), Lock(u), Commit(u)];
    var replaced := Run(db, run);
    TransactionAlone(db, u, m, Begin(secret));
    RunKeepsInv(db, run);
    assert SameCall(db, replaced, t);
    TransactionAlone(replaced, t, m, Confirm(hashes));
  }

  /** A member's first enrollment, with nobody else about. */
  lemma FirstEnrollment(db: Db, t: CallId, m: Member, h: Household, secret: Secret)
    requires m !in db.rows && m in db.members && db.members[m] == h && db.calls == map[]
    ensures var after := Run(db, [Look(t, m, h, Begin(secret)), Lock(t), Insert(t), Commit(t)]);
            && m in after.rows && after.rows[m] == Enrollment(h, secret, false, None, db.nextLife)
            && after.calls.Keys == {t} && after.calls[t].phase == Done(Ok) && after.codes == db.codes && after.nextCode == db.nextCode
  {
    var a, b, c, d := Look(t, m, h, Begin(secret)), Lock(t), Insert(t), Commit(t);
    var one := Step(db, a);
    assert one.calls == map[t := Call(m, h, Begin(secret), Looking(None))];
    var two := Step(one, b);
    assert two.calls == map[t := Call(m, h, Begin(secret), Absent)];
    var three := Step(two, c);
    assert three.calls == map[t := Call(m, h, Begin(secret), Inserting)];
    RunOfThree(one, b, c, d);
    assert [a, b, c, d][1..] == [b, c, d];
  }
}
