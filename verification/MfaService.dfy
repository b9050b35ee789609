/**
 The MFA use cases of identity/app/mfa.go as methods over the shared database. Between two
 statements of a call, other calls run any statements they like; a `Gap` says which, and whether
 this call's connection fails before its next statement. A statement that still finds its row
 locked after its wait gives up.
 */
module MfaService {
  import opened Seqs
  import opened MfaStore
  import RecoveryCode

  const CODE_COUNT := 10

  /** The cipher, TOTP provider and password hasher. */
  datatype Crypto = Crypto(
    decrypt: Secret -> Option<string>,
    validate: (string, string) -> bool,
    matchStep: (string, string) -> Option<int>,
    verify: (string, string) -> Option<bool>,   // None: malformed hash
    hash: string -> Option<string>,
    trim: string -> string)

  datatype Gap = Gap(others: seq<Action>, broken: bool)

  predicate GapsOfOthers(gaps: seq<Gap>, me: CallId) {
    forall i :: 0 <= i < |gaps| ==> ByOthers(gaps[i].others, me)
  }

  /** Nobody else runs and nothing breaks. */
  predicate Alone(gaps: seq<Gap>) {
    forall i :: 0 <= i < |gaps| ==> gaps[i] == Gap([], false)
  }

  lemma SomeGaps(gaps: seq<Gap>, me: CallId, i: nat, j: nat)
    requires GapsOfOthers(gaps, me) && i <= j <= |gaps|
    ensures GapsOfOthers(gaps[i..j], me) && (Alone(gaps) ==> Alone(gaps[i..j]))
  {
  }

  lemma FirstGap(gaps: seq<Gap>, me: CallId, db: Db)
    requires GapsOfOthers(gaps, me) && gaps != []
    ensures ByOthers(gaps[0].others, me) && (Alone(gaps) ==> gaps[0] == Gap([], false) && Run(db, gaps[0].others) == db)
  {
  }

  /** The code verifies against the stored hash of a code. */
  predicate Opens(crypto: Crypto, db: Db, raw: string, id: CodeId)
    requires id in db.codes
  {
    crypto.verify(RecoveryCode.Normalize(raw), db.codes[id].hash) == Some(true)
  }

  predicate OpensSome(crypto: Crypto, db: Db, m: Member, raw: string) {
    && RecoveryCode.Normalize(raw) != ""
    && exists id :: id in db.codes && db.codes[id].member == m && !db.codes[id].used && Opens(crypto, db, raw, id)
  }

  /** Of the listed codes, the one at `i` is the first that opens. */
  predicate OpensFirst(crypto: Crypto, db: Db, raw: string, listed: seq<CodeId>, i: nat)
    requires i < |listed| && forall j :: 0 <= j < |listed| ==> listed[j] in db.codes
  {
    Opens(crypto, db, raw, listed[i]) && forall j :: 0 <= j < i ==> !Opens(crypto, db, raw, listed[j])
  }

  /** The row is confirmed and the code matches a step later than its last one. */
  predicate FreshStep(crypto: Crypto, row: Enrollment, totp: string) {
    && crypto.decrypt(row.secret).Some?
    && var step := crypto.matchStep(totp, crypto.decrypt(row.secret).value);
       step.Some? && (row.lastStep.None? || row.lastStep.value < step.value)
  }

  /** What a login needs, with nobody interfering. */
  predicate GoodLogin(crypto: Crypto, db: Db, m: Member, totp: string, recovery: string) {
    && m in db.rows && db.rows[m].confirmed
    && (|| (totp != "" && FreshStep(crypto, db.rows[m], totp))
        || (recovery != "" && (totp != "" ==> crypto.decrypt(db.rows[m].secret).Some?) && OpensSome(crypto, db, m, recovery)))
  }

  /** What a disenroll needs ahead of its delete, with nobody interfering. */
  predicate GoodStepUp(crypto: Crypto, db: Db, m: Member, totp: string, recovery: string) {
    && m in db.rows && db.rows[m].confirmed
    && (|| StepUpByTotp(crypto, db, m, totp)
        || (recovery != "" && (totp != "" ==> crypto.decrypt(db.rows[m].secret).Some?) && OpensSome(crypto, db, m, recovery)))
  }

  /** The recovery code is what passes the step-up, and the household, which only the delete looks at, is wrong. */
  predicate SpendsForNothing(crypto: Crypto, db: Db, m: Member, h: Household, totp: string, recovery: string) {
    && GoodStepUp(crypto, db, m, totp, recovery) && !StepUpByTotp(crypto, db, m, totp)
    && db.rows[m].household != h
  }

  /** What a confirmation needs, with nobody interfering. */
  predicate GoodConfirm(crypto: Crypto, db: Db, m: Member, h: Household, code: string, random: seq<seq<RecoveryCode.Byte>>)
    requires forall i :: 0 <= i < |random| ==> |random[i]| == RecoveryCode.CODE_BYTES
  {
    && ValidatedPending(crypto, db, m, code) && db.rows[m].household == h
    && forall i :: 0 <= i < |random| ==> crypto.hash(RecoveryCode.Encode(random[i])).Some?
  }

  /** What an undisturbed login is told. */
  function LoginReply(crypto: Crypto, db: Db, m: Member, totp: string, recovery: string): Reply {
    if totp == "" && recovery == "" then VerificationRequired
    else if m !in db.rows || !db.rows[m].confirmed then NotEnrolled
    else if totp != "" && crypto.decrypt(db.rows[m].secret).None? then Failed
    else if totp != "" && FreshStep(crypto, db.rows[m], totp) then Ok
    else if recovery == "" then InvalidTotp
    else if OpensSome(crypto, db, m, recovery) then Ok
    else InvalidRecoveryCode
  }

  /** What an undisturbed step-up is told. */
  function StepUpReply(crypto: Crypto, db: Db, m: Member, totp: string, recovery: string): Reply {
    if totp == "" && recovery == "" then VerificationRequired
    else if m !in db.rows || !db.rows[m].confirmed then NotEnrolled
    else if totp != "" && crypto.decrypt(db.rows[m].secret).None? then Failed
    else if StepUpByTotp(crypto, db, m, totp) then Ok
    else if recovery == "" then InvalidTotp
    else if OpensSome(crypto, db, m, recovery) then Ok
    else InvalidRecoveryCode
  }

  /** What an undisturbed disenroll is told: another household's row is reported as none. */
  function DisenrollReply(crypto: Crypto, db: Db, m: Member, h: Household, totp: string, recovery: string): Reply {
    var step := StepUpReply(crypto, db, m, totp, recovery);
    if step == Ok && !(m in db.rows && db.rows[m].household == h) then NotEnrolled else step
  }

  /** What an undisturbed confirmation is told; the household is only looked at in the last step. */
  function EnrollReply(crypto: Crypto, db: Db, m: Member, h: Household, code: string, random: seq<seq<RecoveryCode.Byte>>): Reply
    requires forall i :: 0 <= i < |random| ==> |random[i]| == RecoveryCode.CODE_BYTES
  {
    if m !in db.rows then NotEnrolled
    else if db.rows[m].confirmed then AlreadyEnrolled
    else if crypto.decrypt(db.rows[m].secret).None? then Failed
    else if !ValidatedPending(crypto, db, m, code) then InvalidTotp
    else if exists i :: 0 <= i < |random| && crypto.hash(RecoveryCode.Encode(random[i])).None? then Failed
    else if db.rows[m].household != h then NotEnrolled
    else Ok
  }

  lemma LoginReplyOk(crypto: Crypto, db: Db, m: Member, totp: string, recovery: string)
    ensures LoginReply(crypto, db, m, totp, recovery) == Ok <==> GoodLogin(crypto, db, m, totp, recovery)
  {
    hide OpensSome;
    if m in db.rows {
      FreshNeedsSecret(crypto, db.rows[m], totp);
    }
    hide FreshStep;
    NothingOpens(crypto, db, m);
  }

  lemma FreshNeedsSecret(crypto: Crypto, row: Enrollment, totp: string)
    ensures FreshStep(crypto, row, totp) ==> crypto.decrypt(row.secret).Some?
  {
  }

  lemma NothingOpens(crypto: Crypto, db: Db, m: Member)
    ensures !OpensSome(crypto, db, m, "")
  {
    RecoveryCode.NormalizeEncoded("");
  }

  lemma EnrollReplyOk(crypto: Crypto, db: Db, m: Member, h: Household, code: string, random: seq<seq<RecoveryCode.Byte>>)
    requires forall i :: 0 <= i < |random| ==> |random[i]| == RecoveryCode.CODE_BYTES
    ensures EnrollReply(crypto, db, m, h, code, random) == Ok <==> GoodConfirm(crypto, db, m, h, code, random)
  {
    hide RecoveryCode.Encode;
  }

  predicate SameRowsAndCalls(db: Db, after: Db) {
    db.rows == after.rows && db.calls == after.calls
  }

  /** The update that started at `start` finds its row, and an earlier step in it, after others ran. */
  predicate StepRecords(start: Db, others: seq<Action>, m: Member, step: int) {
    StepHits(Run(start, others), m, step, Seen(start, m))
  }

  /** The code matches a later step than the row's, and that step is still later when it is recorded. */
  predicate TotpVerifies(crypto: Crypto, row: Enrollment, start: Db, others: seq<Action>, m: Member, totp: string) {
    FreshStep(crypto, row, totp) && StepRecords(start, others, m, crypto.matchStep(totp, crypto.decrypt(row.secret).value).value)
  }

  /** After others ran, the row the delete saw when it started is still there, and it is the household's. */
  predicate DeleteFinds(start: Db, gaps: seq<Gap>, m: Member, h: Household)
    requires |gaps| == 2
  {
    var seen := Run(start, gaps[0].others);
    DeleteHits(Run(seen, gaps[1].others), m, h, Seen(seen, m))
  }

  /** Nothing breaks, and the row is there and nobody is holding it. */
  predicate DeleteGoes(start: Db, gaps: seq<Gap>, m: Member, h: Household)
    requires |gaps| == 2
  {
    && !gaps[0].broken && !gaps[1].broken && DeleteFinds(start, gaps, m, h)
    && RowFree(Run(Run(start, gaps[0].others), gaps[1].others), m)
  }

  predicate IsAccept(done: seq<Event>, me: CallId, m: Member, step: int) {
    |done| == 1 && done[0].Accepted? && done[0].who == me && done[0].member == m && done[0].step == step
  }

  predicate IsRedeem(done: seq<Event>, me: CallId, m: Member) {
    |done| == 1 && done[0].Redeemed? && done[0].who == me && done[0].member == m
  }

  /** The one code a redeeming call spent opened with what was typed. */
  predicate RedeemedWith(crypto: Crypto, db: Db, e: Event, raw: string) {
    e.Redeemed? && e.id in db.codes && db.codes[e.id].used && db.codes[e.id].member == e.member && Opens(crypto, db, raw, e.id)
  }

  /** Fresh codes and their hashes, or nothing if one cannot be hashed. */
  method GenerateRecoveryCodes(crypto: Crypto, random: seq<seq<RecoveryCode.Byte>>)
    returns (codes: seq<string>, hashes: seq<string>, ok: bool)
    requires |random| == CODE_COUNT && forall i :: 0 <= i < |random| ==> |random[i]| == RecoveryCode.CODE_BYTES
    ensures ok <==> forall i :: 0 <= i < |random| ==> crypto.hash(RecoveryCode.Encode(random[i])).Some?
    ensures ok ==> |codes| == |hashes| == CODE_COUNT
    ensures ok ==> forall i :: 0 <= i < CODE_COUNT ==>
              && RecoveryCode.Normalize(codes[i]) == RecoveryCode.Encode(random[i])
              && Some(hashes[i]) == crypto.hash(RecoveryCode.Normalize(codes[i]))
    ensures !ok ==> codes == [] && hashes == []
  {
    codes, hashes := [], [];
    for n := 0 to CODE_COUNT
      invariant |codes| == |hashes| == n
      invariant forall i :: 0 <= i < n ==>
                  && RecoveryCode.Normalize(codes[i]) == RecoveryCode.Encode(random[i])
                  && Some(hashes[i]) == crypto.hash(RecoveryCode.Normalize(codes[i]))
    {
      var raw := RecoveryCode.GenerateRecoveryCode(random[n]);
      var hash := crypto.hash(RecoveryCode.Normalize(raw));
      if hash.None? {
        return [], [], false;
      }
      codes, hashes := codes + [raw], hashes + [hash.value];
    }
    ok := true;
  }

  /** The first listed code that opens; a malformed hash is skipped. */
  method FirstMatch(crypto: Crypto, db: Db, raw: string, listed: seq<CodeId>) returns (r: Option<CodeId>)
    requires forall i :: 0 <= i < |listed| ==> listed[i] in db.codes
    ensures r.None? ==> forall i :: 0 <= i < |listed| ==> !Opens(crypto, db, raw, listed[i])
    ensures r.Some? ==> exists i :: 0 <= i < |listed| && listed[i] == r.value && OpensFirst(crypto, db, raw, listed, i)
  {
    for n := 0 to |listed|
      invariant forall i :: 0 <= i < n ==> !Opens(crypto, db, raw, listed[i])
    {
      var ok := crypto.verify(RecoveryCode.Normalize(raw), db.codes[listed[n]].hash);
      if ok.None? {
        continue;
      }
      if ok.value {
        assert OpensFirst(crypto, db, raw, listed, n);
        return Some(listed[n]);
      }
    }
    r := None;
  }

  lemma StepEnabled(db: Db, me: CallId, m: Member, step: int, seen: Option<Life>)
    ensures RowFree(db, m) ==> Enabled(db, RecordStep(me, m, step, seen))
  {
  }

  lemma DeleteEnabled(db: Db, me: CallId, m: Member, h: Household, seen: Option<Life>)
    ensures Enabled(db, Delete(me, m, h, seen)) <==> (DeleteHits(db, m, h, seen) ==> RowFree(db, m))
  {
  }

  /** What the confirming event at the end of the log says of the secret read earlier. */
  lemma SecretReported(read: Db, log: seq<Event>, m: Member, e: Event)
    requires Sound(read) && m in read.rows && ConfirmsLastBegun(read.log, log, m, e)
    ensures ConfirmsSecretRead(read, log, m, e)
    ensures |log| == |read.log| + 1 ==> e.secret == read.rows[m].secret
  {
    hide Sound, LastBegun;
    SecretConfirmed(read, log[..|log| - 1], m, e.secret);
    assert log[..|log| - 1][|read.log|..] == log[|read.log|..|log| - 1];
    NothingSince(m, read.rows[m].secret);
    assert |log| == |read.log| + 1 ==> log[|read.log|..|log| - 1] == [];
  }

  lemma NothingSince(m: Member, secret: Secret)
    ensures SecretKept([], m, secret)
  {
  }

  lemma StepUpHasRow(crypto: Crypto, db: Db, m: Member, totp: string, recovery: string)
    ensures GoodStepUp(crypto, db, m, totp, recovery) ==> m in db.rows
  {
  }

  /** A shown code passes the check against its own stored hash. */
  predicate VerifiesOwnHash(crypto: Crypto, codes: seq<string>, hashes: seq<string>, i: nat) {
    i < |codes| && i < |hashes| && crypto.verify(RecoveryCode.Normalize(codes[i]), hashes[i]) == Some(true)
  }

  /** Any code of a batch that nobody used yet opens a login. */
  lemma ShownCodesOpen(crypto: Crypto, db: Db, m: Member, codes: seq<string>, hashes: seq<string>, first: CodeId)
    requires m in db.rows && db.rows[m].confirmed && |codes| == |hashes|
    requires HasBatch(db, m, first, hashes) && Unused(db, first, |hashes|)
    requires forall i :: 0 <= i < |codes| ==> RecoveryCode.Normalize(codes[i]) != ""
    ensures forall i :: 0 <= i < |codes| && VerifiesOwnHash(crypto, codes, hashes, i) ==> GoodLogin(crypto, db, m, "", codes[i])
  {
    hide RecoveryCode.Normalize;
    RecoveryCode.NormalizeEncoded("");
    forall i | 0 <= i < |codes| && VerifiesOwnHash(crypto, codes, hashes, i)
      ensures GoodLogin(crypto, db, m, "", codes[i])
    {
      assert Opens(crypto, db, codes[i], first + i);
      assert OpensSome(crypto, db, m, codes[i]);
    }
  }

  /** Nobody holds the row of a confirmed enrollment for writing. */
  lemma ConfirmedIsFree(db: Db, m: Member)
    requires Sound(db) && m in db.rows && db.rows[m].confirmed
    ensures RowFree(db, m)
  {
    assert forall t :: t in db.calls ==> CallFits(db, db.calls[t]);
  }

  lemma LoginKeepsLife(read: Db, after: Db, m: Member, life: Life)
    requires Sound(read) && Sound(after) && read.log <= after.log && m in read.rows && m in after.rows
    requires life == after.rows[m].life
    ensures SameLifeUnlessEnded(read, after, m, life)
  {
    hide Sound, Ended;
    SameEnrollmentExactly(read, after, m);
  }

  lemma LoggedByStep(crypto: Crypto, read: Db, me: CallId, m: Member, totp: string, done: seq<Event>)
    requires totp != "" && m in read.rows && read.rows[m].confirmed && FreshStep(crypto, read.rows[m], totp)
    requires IsAccept(done, me, m, crypto.matchStep(totp, crypto.decrypt(read.rows[m].secret).value).value)
    ensures LoginBySteps(crypto, read, me, m, totp, done) && !IsRedeem(done, me, m)
  {
  }

  lemma LoggedByCode(crypto: Crypto, read: Db, me: CallId, m: Member, totp: string, done: seq<Event>)
    requires done == [] || IsRedeem(done, me, m)
    ensures !LoginBySteps(crypto, read, me, m, totp, done) && (done == [] ==> !IsRedeem(done, me, m))
  {
  }

  /** A login that ends before any code is looked at. */
  lemma NoCodeReply(crypto: Crypto, db: Db, m: Member, totp: string, recovery: string)
    ensures totp == "" && recovery == "" ==> LoginReply(crypto, db, m, totp, recovery) == VerificationRequired
    ensures (totp != "" || recovery != "") && !(m in db.rows && db.rows[m].confirmed) ==>
              LoginReply(crypto, db, m, totp, recovery) == NotEnrolled
  {
  }

  /** A login that ends with the TOTP code. */
  lemma TotpReply(crypto: Crypto, db: Db, m: Member, totp: string, recovery: string, r: Reply)
    requires m in db.rows && db.rows[m].confirmed && totp != "" && r in {Ok, InvalidTotp, Failed}
    requires r == Ok <==> FreshStep(crypto, db.rows[m], totp)
    requires r == Failed <==> crypto.decrypt(db.rows[m].secret).None?
    ensures r != InvalidTotp || recovery == "" ==> LoginReply(crypto, db, m, totp, recovery) == r
    ensures r == InvalidTotp && recovery != "" ==>
              LoginReply(crypto, db, m, totp, recovery) == if OpensSome(crypto, db, m, recovery) then Ok else InvalidRecoveryCode
  {
    hide OpensSome;
  }

  /** A login with a recovery code alone. */
  lemma RecoveryReply(crypto: Crypto, db: Db, m: Member, recovery: string)
    requires m in db.rows && db.rows[m].confirmed && recovery != ""
    ensures LoginReply(crypto, db, m, "", recovery) == if OpensSome(crypto, db, m, recovery) then Ok else InvalidRecoveryCode
  {
    hide OpensSome;
  }

  lemma TotpDidFail(crypto: Crypto, read: Db, gaps: seq<Gap>, m: Member, totp: string)
    requires |gaps| == 5
    requires totp != "" ==> m in read.rows && !TotpVerifies(crypto, read.rows[m], Run(read, gaps[1].others), gaps[2].others, m, totp)
    ensures TotpFailed(crypto, read, gaps, m, totp)
  {
  }

  lemma GoodTotpIsFresh(crypto: Crypto, db: Db, m: Member, totp: string)
    ensures GoodTotp(crypto, db, m, totp) ==>
              totp != "" && m in db.rows && db.rows[m].confirmed && FreshStep(crypto, db.rows[m], totp)
  {
  }

  lemma FailureSaysNothing(db: Db, m: Member, h: Household)
    ensures RefusedTruly(db, m, h, Failed) && RefusedTruly(db, m, h, Ok)
  {
  }

  /** What a refused enrollment is told is so right then. */
  predicate RefusedTruly(db: Db, m: Member, h: Household, r: Reply) {
    && (r == MemberNotFound ==> if m in db.rows then db.rows[m].household != h else !(m in db.members && db.members[m] == h))
    && (r == AlreadyEnrolled ==> m in db.rows && db.rows[m].confirmed && db.rows[m].household == h)
    && (r == Raced ==> m in db.rows)
  }

  /** The row lock, when it is granted, ends the call with this reply. */
  predicate LockTells(at: Db, me: CallId, r: Reply) {
    me in at.calls && at.calls[me].phase.Looking? && Looked(at, me) == Done(r)
  }

  /** The state in which the call that starts with this look-up gets the row lock. */
  function WhenLocked(start: Db, look: Action, gaps: seq<Gap>): Db
    requires |gaps| > 1
  {
    Run(Step(Run(start, gaps[0].others), look), gaps[1].others)
  }

  class Service {
    var db: Db
    const crypto: Crypto

    constructor (db: Db, crypto: Crypto)
      ensures this.db == db && this.crypto == crypto
    {
      this.db := db;
      this.crypto := crypto;
    }

    /** Other calls run. */
    method Pause(me: CallId, others: seq<Action>)
      requires Sound(db) && ByOthers(others, me)
      modifies `db
      ensures db == Run(old(db), others) && Sound(db) && old(db).log <= db.log
      ensures Own(db.log, me) == Own(old(db).log, me) && SameCall(old(db), db, me)
    {
      OthersRun(db, others, me);
      db := Run(db, others);
    }

    /** One statement of this call. */
    method Perform(a: Action) returns (ghost done: seq<Event>)
      requires Sound(db)
      modifies `db
      ensures db == Step(old(db), a) && Sound(db) && old(db).log <= db.log
      ensures Own(db.log, a.who) == Own(old(db).log, a.who) + done
      ensures done == if db.log == old(db).log then [] else [db.log[|old(db).log|]]
    {
      StepKeepsSound(db, a);
      OwnStep(db, a, a.who);
      StepLogs(db, a);
      done := if Step(db, a).log == db.log then [] else [Step(db, a).log[|db.log|]];
      db := Step(db, a);
    }

    method RecordLoginStep(me: CallId, m: Member, step: int, gaps: seq<Gap>) returns (r: Reply, ghost done: seq<Event>)
      requires Sound(db) && |gaps| == 2 && GapsOfOthers(gaps, me)
      modifies `db
      ensures old(db).log <= db.log
      ensures Sound(db) && Own(db.log, me) == Own(old(db).log, me) + done
      ensures r == Ok ==> IsAccept(done, me, m, step) && m in db.rows && done[0].life == db.rows[m].life
      ensures r != Ok ==> done == [] && r in {InvalidTotp, Failed}
      ensures gaps[0].broken || gaps[1].broken ==> r == Failed
      ensures r == Ok ==> StepRecords(Run(old(db), gaps[0].others), gaps[1].others, m, step)
      ensures r == InvalidTotp ==> !StepRecords(Run(old(db), gaps[0].others), gaps[1].others, m, step)
      ensures Alone(gaps) && RowFree(old(db), m) ==>
                && (r == Ok <==> StepHits(old(db), m, step, Seen(old(db), m)))
                && (r != Ok ==> r == InvalidTotp && db == old(db))
    {
      hide Sound, Own, Step, Enabled, SameCall, StepHits;
      done := [];
      Pause(me, gaps[0].others);
      if gaps[0].broken {
        return Failed, [];
      }
      var seen := Seen(db, m);
      Pause(me, gaps[1].others);
      StepEnabled(db, me, m, step, seen);
      var update := RecordStep(me, m, step, seen);
      if gaps[1].broken || !Enabled(db, update) {
        return Failed, [];
      }
      var hit := StepHits(db, m, step, seen);
      StepOutcome(db, update);
      done := Perform(update);
      r := if hit then Ok else InvalidTotp;
    }

    method MarkRecoveryCodeUsed(me: CallId, id: CodeId, gap: Gap) returns (r: Reply, ghost done: seq<Event>)
      requires Sound(db) && ByOthers(gap.others, me) && id < db.nextCode
      modifies `db
      ensures Sound(db) && Own(db.log, me) == Own(old(db).log, me) + done
      ensures r == Ok ==> && id in old(db).codes && !old(db).codes[id].used
                          && id in db.codes && db.codes[id] == old(db).codes[id].(used := true)
                          && IsRedeem(done, me, db.codes[id].member) && done[0].id == id
      ensures r != Ok ==> done == [] && r in {InvalidRecoveryCode, Failed}
      ensures r == Failed <==> gap.broken
      ensures gap == Gap([], false) ==> (r == Ok <==> CodeHits(old(db), id)) && (r != Ok ==> r == InvalidRecoveryCode)
      ensures gap == Gap([], false) ==> SameRowsAndCalls(old(db), db)
    {
      hide Sound, Own, Step, SameCall;
      done := [];
      RunKeepsCode(db, gap.others, id);
      Pause(me, gap.others);
      if gap.broken {
        return Failed, [];
      }
      var hit := CodeHits(db, id);
      CodeOutcome(db, MarkUsed(me, id));
      done := Perform(MarkUsed(me, id));
      r := if hit then Ok else InvalidRecoveryCode;
    }

    /** Normalizes what was typed and looks for it among the member's unused codes. */
    method MatchRecoveryCode(me: CallId, m: Member, raw: string, gap: Gap) returns (r: Option<CodeId>, failed: bool)
      requires Sound(db) && ByOthers(gap.others, me)
      modifies `db
      ensures Sound(db) && Own(db.log, me) == Own(old(db).log, me)
      ensures r.Some? ==> r.value in db.codes && db.codes[r.value].member == m && Opens(crypto, db, raw, r.value)
      ensures r.Some? ==> !failed && r.value < db.nextCode && RecoveryCode.Normalize(raw) != ""
      ensures r.None? && !failed ==> !OpensSome(crypto, db, m, raw)
      ensures gap == Gap([], false) ==> db == old(db) && !failed && (r.Some? ==> CodeHits(db, r.value))
    {
      failed := false;
      if RecoveryCode.Normalize(raw) == "" {
        return None, false;
      }
      Pause(me, gap.others);
      if gap.broken {
        return None, true;
      }
      var listed := UnusedBelow(db, m, db.nextCode);
      r := FirstMatch(crypto, db, raw, listed);
    }

    method ConsumeRecoveryCode(me: CallId, m: Member, raw: string, gaps: seq<Gap>) returns (r: Reply, ghost done: seq<Event>)
      requires Sound(db) && |gaps| == 2 && GapsOfOthers(gaps, me)
      modifies `db
      ensures Sound(db) && Own(db.log, me) == Own(old(db).log, me) + done
      ensures r == Ok ==> IsRedeem(done, me, m) && RedeemedWith(crypto, db, done[0], raw)
      ensures r != Ok ==> done == [] && r in {InvalidRecoveryCode, Failed}
      ensures Alone(gaps) ==> r == (if OpensSome(crypto, old(db), m, raw) then Ok else InvalidRecoveryCode)
      ensures Alone(gaps) ==> SameRowsAndCalls(old(db), db)
    {
      done := [];
      var id, failed := MatchRecoveryCode(me, m, raw, gaps[0]);
      if failed {
        return Failed, [];
      }
      if id.None? {
        return InvalidRecoveryCode, [];
      }
      r, done := MarkRecoveryCodeUsed(me, id.value, gaps[1]);
    }

    /** The step a code matches must be later than the last one read, and again when it is recorded. */
    method VerifyLoginTotp(me: CallId, m: Member, row: Enrollment, totp: string, gaps: seq<Gap>)
      returns (r: Reply, ghost done: seq<Event>)
      requires Sound(db) && |gaps| == 2 && GapsOfOthers(gaps, me)
      modifies `db
      ensures old(db).log <= db.log
      ensures Sound(db) && Own(db.log, me) == Own(old(db).log, me) + done
      ensures r == Ok ==> FreshStep(crypto, row, totp) &&
                          IsAccept(done, me, m, crypto.matchStep(totp, crypto.decrypt(row.secret).value).value)
                          && m in db.rows && done[0].life == db.rows[m].life
      ensures r != Ok ==> done == [] && r in {InvalidTotp, Failed}
      ensures r == Ok ==> TotpVerifies(crypto, row, Run(old(db), gaps[0].others), gaps[1].others, m, totp)
      ensures r == InvalidTotp ==> !TotpVerifies(crypto, row, Run(old(db), gaps[0].others), gaps[1].others, m, totp)
      ensures Alone(gaps) && RowFree(old(db), m) && m in old(db).rows && old(db).rows[m] == row ==>
                && (r == Ok <==> FreshStep(crypto, row, totp))
                && (r != Ok ==> db == old(db) && (r == Failed <==> crypto.decrypt(row.secret).None?))
    {
      done := [];
      var secret := crypto.decrypt(row.secret);
      if secret.None? {
        return Failed, [];
      }
      var step := crypto.matchStep(totp, secret.value);
      if step.None? {
        return InvalidTotp, [];
      }
      if row.lastStep.Some? && step.value <= row.lastStep.value {
        return InvalidTotp, [];
      }
      r, done := RecordLoginStep(me, m, step.value, gaps);
    }

    /** The confirmed enrollment, as committed when it is read. */
    method RequireConfirmedEnrollment(me: CallId, m: Member, gap: Gap) returns (r: Reply, row: Option<Enrollment>)
      requires Sound(db) && ByOthers(gap.others, me)
      modifies `db
      ensures old(db).log <= db.log
      ensures Sound(db) && db == Run(old(db), gap.others) && Own(db.log, me) == Own(old(db).log, me)
      ensures SameCall(old(db), db, me)
      ensures r in {Ok, NotEnrolled, Failed} && (r == Ok <==> row.Some?)
      ensures row.Some? ==> m in db.rows && db.rows[m] == row.value && row.value.confirmed
      ensures r == Failed <==> gap.broken
      ensures r == NotEnrolled <==> !gap.broken && !(m in db.rows && db.rows[m].confirmed)
      ensures gap == Gap([], false) ==> (r == Ok <==> m in db.rows && db.rows[m].confirmed)
    {
      Pause(me, gap.others);
      if gap.broken {
        return Failed, None;
      }
      if m !in db.rows || !db.rows[m].confirmed {
        return NotEnrolled, None;
      }
      return Ok, Some(db.rows[m]);
    }

    /** VerifyLoginCode once the codes are trimmed. */
    method VerifyTrimmed(me: CallId, m: Member, totp: string, recovery: string, gaps: seq<Gap>)
      returns (r: Reply, ghost done: seq<Event>)
      requires Sound(db) && |gaps| == 5 && GapsOfOthers(gaps, me)
      modifies `db
      ensures Sound(db) && Own(db.log, me) == Own(old(db).log, me) + done
      ensures r == Ok ==>
                || LoginBySteps(crypto, Run(old(db), gaps[0].others), me, m, totp, done)
                || (IsRedeem(done, me, m) && RedeemedWith(crypto, db, done[0], recovery))
      ensures r != Ok ==> done == []
      ensures IsRedeem(done, me, m) ==> TotpFailed(crypto, Run(old(db), gaps[0].others), gaps, m, totp)
      ensures LoginBySteps(crypto, Run(old(db), gaps[0].others), me, m, totp, done) ==>
                SameLifeUnlessEnded(Run(old(db), gaps[0].others), db, m, done[0].life)
      ensures Alone(gaps) && RowFree(old(db), m) && GoodTotp(crypto, old(db), m, totp) ==>
                r == Ok && LoginBySteps(crypto, old(db), me, m, totp, done)
      ensures Alone(gaps) && RowFree(old(db), m) ==>
                && (r == Ok <==> GoodLogin(crypto, old(db), m, totp, recovery))
                && r == LoginReply(crypto, old(db), m, totp, recovery)
      ensures r == VerificationRequired <==> totp == "" && recovery == ""
      ensures r == NotEnrolled <==> r != VerificationRequired && NotConfirmedWhenRead(old(db), gaps, m)
      ensures r == InvalidTotp ==> totp != "" && recovery == ""
      ensures r == InvalidRecoveryCode ==> recovery != ""
      ensures r in {InvalidTotp, InvalidRecoveryCode} ==>
                TotpFailed(crypto, Run(old(db), gaps[0].others), gaps, m, totp)
      ensures r in {Ok, VerificationRequired, NotEnrolled, InvalidTotp, InvalidRecoveryCode, Failed}
    {
      hide Sound, Own, Step, Enabled, Opens, OpensSome, FreshStep, SameCall, TotpVerifies, RedeemedWith, Ended, RowFree,
           Visible, GapsOfOthers, Alone, GoodLogin, Run, SameLifeUnlessEnded, StepRecords, LoginBySteps, IsAccept, IsRedeem, LoginReply,
           TotpFailed, GoodTotp;
      done := [];
      LoggedByCode(crypto, Run(db, gaps[0].others), me, m, totp, []);
      LoginReplyOk(crypto, db, m, totp, recovery);
      NoCodeReply(crypto, db, m, totp, recovery);
      GoodTotpIsFresh(crypto, db, m, totp);
      if totp == "" && recovery == "" {
        return VerificationRequired, [];
      }
      FirstGap(gaps, me, db);
      SomeGaps(gaps, me, 1, 3);
      SomeGaps(gaps, me, 3, 5);
      var found, row := RequireConfirmedEnrollment(me, m, gaps[0]);
      if found != Ok {
        return found, [];
      }
      ghost var read := db;
      if totp != "" {
        r, done := VerifyLoginTotp(me, m, row.value, totp, gaps[1..3]);
        if Alone(gaps) && RowFree(old(db), m) {
          TotpReply(crypto, old(db), m, totp, recovery, r);
        }
        if r == Ok {
          LoggedByStep(crypto, read, me, m, totp, done);
          LoginKeepsLife(read, db, m, done[0].life);
        }
        if r == InvalidTotp {
          TotpDidFail(crypto, read, gaps, m, totp);
        }
        if r == Ok || r != InvalidTotp || recovery == "" {
          return;
        }
      } else {
        TotpDidFail(crypto, read, gaps, m, totp);
        if Alone(gaps) {
          RecoveryReply(crypto, old(db), m, recovery);
        }
      }
      r, done := ConsumeRecoveryCode(me, m, recovery, gaps[3..5]);
      LoggedByCode(crypto, read, me, m, totp, done);
    }

    /**
     A login's second factor. A success spends exactly one credential, a refusal none; and with
     nobody interfering it succeeds exactly on a good code.
     */
    method VerifyLoginCode(me: CallId, m: Member, totpCode: string, recoveryCode: string, gaps: seq<Gap>)
      returns (r: Reply, ghost done: seq<Event>)
      requires Sound(db) && |gaps| == 5 && GapsOfOthers(gaps, me)
      modifies `db
      ensures Sound(db) && Own(db.log, me) == Own(old(db).log, me) + done
      ensures r == Ok ==>
                || LoginBySteps(crypto, Run(old(db), gaps[0].others), me, m, crypto.trim(totpCode), done)
                || (IsRedeem(done, me, m) && RedeemedWith(crypto, db, done[0], crypto.trim(recoveryCode)))
      ensures r != Ok ==> done == []
      ensures IsRedeem(done, me, m) ==> TotpFailed(crypto, Run(old(db), gaps[0].others), gaps, m, crypto.trim(totpCode))
      ensures LoginBySteps(crypto, Run(old(db), gaps[0].others), me, m, crypto.trim(totpCode), done) ==>
                SameLifeUnlessEnded(Run(old(db), gaps[0].others), db, m, done[0].life)
      ensures Alone(gaps) && RowFree(old(db), m) && GoodTotp(crypto, old(db), m, crypto.trim(totpCode)) ==>
                r == Ok && LoginBySteps(crypto, old(db), me, m, crypto.trim(totpCode), done)
      ensures Alone(gaps) && RowFree(old(db), m) ==>
                && (r == Ok <==> GoodLogin(crypto, old(db), m, crypto.trim(totpCode), crypto.trim(recoveryCode)))
                && r == LoginReply(crypto, old(db), m, crypto.trim(totpCode), crypto.trim(recoveryCode))
      ensures r == VerificationRequired <==> crypto.trim(totpCode) == "" && crypto.trim(recoveryCode) == ""
      ensures r == NotEnrolled <==> r != VerificationRequired && NotConfirmedWhenRead(old(db), gaps, m)
      ensures r == InvalidTotp ==> crypto.trim(totpCode) != "" && crypto.trim(recoveryCode) == ""
      ensures r == InvalidRecoveryCode ==> crypto.trim(recoveryCode) != ""
      ensures r in {InvalidTotp, InvalidRecoveryCode} ==>
                TotpFailed(crypto, Run(old(db), gaps[0].others), gaps, m, crypto.trim(totpCode))
      ensures r in {Ok, VerificationRequired, NotEnrolled, InvalidTotp, InvalidRecoveryCode, Failed}
    {
      hide *;
      r, done := VerifyTrimmed(me, m, crypto.trim(totpCode), crypto.trim(recoveryCode), gaps);
    }

    /** Step-up: a current TOTP code, which is not replay-guarded, or a recovery code, which is spent. */
    method VerifyTotpOrRecovery(me: CallId, m: Member, totpCode: string, recoveryCode: string, gaps: seq<Gap>)
      returns (r: Reply, ghost done: seq<Event>)
      requires Sound(db) && |gaps| == 3 && GapsOfOthers(gaps, me)
      modifies `db
      ensures Sound(db) && Own(db.log, me) == Own(old(db).log, me) + done
      ensures done != [] ==> IsRedeem(done, me, m) && RedeemedWith(crypto, db, done[0], crypto.trim(recoveryCode))
      ensures done != [] ==> !StepUpByTotp(crypto, Run(old(db), gaps[0].others), m, crypto.trim(totpCode))
      ensures r == Ok && done == [] ==> StepUpByTotp(crypto, Run(old(db), gaps[0].others), m, crypto.trim(totpCode))
      ensures r != Ok ==> done == []
      ensures r == VerificationRequired <==> crypto.trim(totpCode) == "" && crypto.trim(recoveryCode) == ""
      ensures r == NotEnrolled <==> r != VerificationRequired && NotConfirmedWhenRead(old(db), gaps, m)
      ensures r in {Ok, VerificationRequired, NotEnrolled, InvalidTotp, InvalidRecoveryCode, Failed}
      ensures Alone(gaps) ==>
                && (r == Ok <==> GoodStepUp(crypto, old(db), m, crypto.trim(totpCode), crypto.trim(recoveryCode)))
                && (r == Ok && done == [] <==> StepUpByTotp(crypto, old(db), m, crypto.trim(totpCode)))
                && r == StepUpReply(crypto, old(db), m, crypto.trim(totpCode), crypto.trim(recoveryCode))
                && SameRowsAndCalls(old(db), db)
    {
      hide Sound, Own, Step, Enabled, Opens, OpensSome, SameCall;
      done := [];
      var totp, recovery := crypto.trim(totpCode), crypto.trim(recoveryCode);
      if totp == "" && recovery == "" {
        return VerificationRequired, [];
      }
      assert Alone(gaps) ==> Alone(gaps[1..]) && Run(db, gaps[0].others) == db;
      var found, row := RequireConfirmedEnrollment(me, m, gaps[0]);
      if found != Ok {
        return found, [];
      }
      if totp != "" {
        var secret := crypto.decrypt(row.value.secret);
        if secret.None? {
          return Failed, [];
        }
        if crypto.validate(totp, secret.value) {
          return Ok, [];
        }
        if recovery == "" {
          return InvalidTotp, [];
        }
      }
      r, done := ConsumeRecoveryCode(me, m, recovery, gaps[1..]);
    }

    method DeleteEnrollment(me: CallId, h: Household, m: Member, gaps: seq<Gap>) returns (r: Reply, ghost done: seq<Event>)
      requires Sound(db) && |gaps| == 2 && GapsOfOthers(gaps, me)
      modifies `db
      ensures Sound(db) && Own(db.log, me) == Own(old(db).log, me) + done
      ensures r == Ok ==> |done| == 1 && IsDelete(done[0], me, m) && m !in db.rows
                          && forall id :: id in db.codes ==> db.codes[id].member != m
      ensures r != Ok ==> done == [] && r in {NotEnrolled, Failed}
      ensures Alone(gaps) && RowFree(old(db), m) ==>
                (r == Ok <==> m in old(db).rows && old(db).rows[m].household == h) && (r != Ok ==> r == NotEnrolled)
      ensures r == Ok <==> DeleteGoes(old(db), gaps, m, h)
      ensures r == NotEnrolled <==> !gaps[0].broken && !gaps[1].broken && !DeleteFinds(old(db), gaps, m, h)
    {
      hide Sound, Own, Step, Enabled, SameCall;
      done := [];
      Pause(me, gaps[0].others);
      if gaps[0].broken {
        return Failed, [];
      }
      var seen := Seen(db, m);
      Pause(me, gaps[1].others);
      DeleteEnabled(db, me, m, h, seen);
      var delete := Delete(me, m, h, seen);
      if gaps[1].broken || !Enabled(db, delete) {
        return Failed, [];
      }
      var hit := DeleteHits(db, m, h, seen);
      DeleteOutcome(db, delete);
      done := Perform(delete);
      r := if hit then Ok else NotEnrolled;
    }

    /**
     Removes the enrollment after a step-up, which is over in the state `at`. A refusal has spent a
     recovery code exactly if the step-up spent one and the delete, started in that state, does not go
     through.
     */
    method Disenroll(me: CallId, m: Member, h: Household, totpCode: string, recoveryCode: string, gaps: seq<Gap>)
      returns (r: Reply, ghost done: seq<Event>, ghost at: Db)
      requires Sound(db) && |gaps| == 5 && GapsOfOthers(gaps, me)
      modifies `db
      ensures Sound(db) && Own(db.log, me) == Own(old(db).log, me) + done
      ensures r == Ok ==> |done| in {1, 2} && IsDelete(done[|done| - 1], me, m) && (|done| == 2 ==> IsRedeem(done[..1], me, m))
      ensures r != Ok ==> done == [] || (IsRedeem(done, me, m) && r in {NotEnrolled, Failed})
      ensures r == Ok && |done| == 1 ==> StepUpByTotp(crypto, Run(old(db), gaps[0].others), m, crypto.trim(totpCode))
      ensures r != Ok && done != [] <==> Own(at.log, me) != Own(old(db).log, me) && !DeleteGoes(at, gaps[3..], m, h)
      ensures Own(at.log, me) != Own(old(db).log, me) ==>
                done != [] && IsRedeem(done[..1], me, m) && Own(at.log, me) == Own(old(db).log, me) + done[..1]
      ensures Alone(gaps) && RowFree(old(db), m) ==>
                && (r == Ok <==> GoodStepUp(crypto, old(db), m, crypto.trim(totpCode), crypto.trim(recoveryCode))
                                 && old(db).rows[m].household == h)
                && r == DisenrollReply(crypto, old(db), m, h, crypto.trim(totpCode), crypto.trim(recoveryCode))
                && (r != Ok && done != [] <==>
                      SpendsForNothing(crypto, old(db), m, h, crypto.trim(totpCode), crypto.trim(recoveryCode)))
      ensures IsRedeem(done[..if |done| > 0 then 1 else 0], me, m) ==>
                !StepUpByTotp(crypto, Run(old(db), gaps[0].others), m, crypto.trim(totpCode))
    {
      hide Sound, Own, Step, Enabled, GoodStepUp, StepUpByTotp, RedeemedWith, DeleteGoes, DeleteFinds;
      assert Alone(gaps) ==> Alone(gaps[..3]) && Alone(gaps[3..]);
      StepUpHasRow(crypto, db, m, crypto.trim(totpCode), crypto.trim(recoveryCode));
      r, done := VerifyTotpOrRecovery(me, m, totpCode, recoveryCode, gaps[..3]);
      at := db;
      if r != Ok {
        return;
      }
      ghost var gone;
      r, gone := DeleteEnrollment(me, h, m, gaps[3..]);
      done := done + gone;
    }

    /** One attempt of the confirming transaction. */
    method ConfirmEnrollmentWithCodes(me: CallId, h: Household, m: Member, hashes: seq<string>, gaps: seq<Gap>)
      returns (r: Reply, ghost done: seq<Event>)
      requires Sound(db) && |gaps| == 3 && GapsOfOthers(gaps, me) && Idle(db, me)
      modifies `db
      ensures old(db).log <= db.log
      ensures Sound(db) && Own(db.log, me) == Own(old(db).log, me) + done && Idle(db, me)
      ensures r == Ok ==> |done| == 1 && IsConfirm(done[0], me, m, hashes)
                          && m in db.rows && db.rows[m].household == h && db.rows[m].confirmed
                          && HasBatch(db, m, done[0].first, hashes) && Unused(db, done[0].first, |hashes|) && RowFree(db, m)
      ensures r == Ok ==> ConfirmsLastBegun(old(db).log, db.log, m, done[0])
      ensures r == Ok && Alone(gaps) ==> |db.log| == |old(db).log| + 1
      ensures r != Ok ==> done == [] && r in {NotEnrolled, AlreadyEnrolled, Failed}
      ensures gaps[0].broken || gaps[1].broken ==> r == Failed
      ensures r in {NotEnrolled, AlreadyEnrolled} ==>
                LockTells(WhenLocked(old(db), Look(me, m, h, Confirm(hashes)), gaps), me, r)
      ensures gaps[2].broken ==> r != Ok
      ensures Alone(gaps) && Undisturbed(old(db), m) ==> r == ConfirmReply(old(db), m, h)
    {
      hide Sound, Own, Step, Enabled, Undisturbed, SameCall, HasBatch, Unused, RowFree;
      done := [];
      Pause(me, gaps[0].others);
      if gaps[0].broken {
        return Failed, [];
      }
      LookStarts(db, Look(me, m, h, Confirm(hashes)));
      done := Perform(Look(me, m, h, Confirm(hashes)));
      r := TakeRow(me, gaps[1]);
      if r != Ok {
        return;
      }
      Pause(me, gaps[2].others);
      if gaps[2].broken {
        AbortEnds(db, me);
        done := Perform(Abort(me));
        return Failed, [];
      }
      ConfirmCommits(db, me);
      done := Perform(Commit(me));
      ConfirmedIsFree(db, m);
    }

    /** The SELECT ... FOR UPDATE: Ok while the call goes on, holding the row or having found none. */
    method TakeRow(me: CallId, gap: Gap) returns (r: Reply)
      requires Sound(db) && ByOthers(gap.others, me) && me in db.calls && db.calls[me].phase.Looking?
      modifies `db
      ensures old(db).log <= db.log
      ensures Sound(db) && Own(db.log, me) == Own(old(db).log, me)
      ensures me in db.calls && db.calls[me] == old(db).calls[me].(phase := db.calls[me].phase)
      ensures r == Ok ==> db.calls[me].phase.Updating? || (db.calls[me].work.Begin? && db.calls[me].phase.Absent?)
      ensures r != Ok ==> db.calls[me].phase == Done(r)
      ensures gap == Gap([], false) && Undisturbed(old(db), db.calls[me].member) ==>
                && db.calls[me].phase == Looked(old(db), me) && db.rows == old(db).rows && db.members == old(db).members
                && (r == Ok && db.calls[me].phase.Absent? ==> Undisturbed(db, db.calls[me].member))
      ensures gap == Gap([], false) ==> db.log == old(db).log
      ensures gap.broken ==> r == Failed
      ensures RefusedTruly(db, db.calls[me].member, db.calls[me].household, r)
      ensures r !in {Ok, Failed} ==> LockTells(Run(old(db), gap.others), me, r)
      ensures r in {Ok, AlreadyEnrolled, Failed} + if db.calls[me].work.Begin? then {MemberNotFound} else {NotEnrolled}
    {
      hide Sound, Own, Step;
      ghost var done: seq<Event>;
      Pause(me, gap.others);
      if gap.broken || !Enabled(db, Lock(me)) {
        AbortEnds(db, me);
        done := Perform(Abort(me));
        return Failed;
      }
      LockAnswers(db, me);
      done := Perform(Lock(me));
      r := if db.calls[me].phase.Done? then db.calls[me].phase.reply else Ok;
    }

    /** The INSERT of a row not found: Ok while the call goes on, with the row inserted. */
    method TryInsert(me: CallId, gap: Gap) returns (r: Reply)
      requires Sound(db) && ByOthers(gap.others, me) && me in db.calls && db.calls[me].phase.Absent?
      modifies `db
      ensures Sound(db) && Own(db.log, me) == Own(old(db).log, me)
      ensures me in db.calls && db.calls[me] == old(db).calls[me].(phase := db.calls[me].phase)
      ensures r == Ok ==> db.calls[me].phase.Inserting?
      ensures r != Ok ==> db.calls[me].phase == Done(r) && r in {Raced, MemberNotFound, Failed}
      ensures gap.broken ==> r == Failed
      ensures RefusedTruly(db, db.calls[me].member, db.calls[me].household, r)
      ensures gap == Gap([], false) && Undisturbed(old(db), db.calls[me].member) ==>
                db.calls[me].phase == InsertTried(old(db), me)
    {
      hide Sound, Own, Step;
      ghost var done: seq<Event>;
      Pause(me, gap.others);
      if gap.broken || !Enabled(db, Insert(me)) {
        AbortEnds(db, me);
        done := Perform(Abort(me));
        return Failed;
      }
      InsertAnswers(db, me);
      done := Perform(Insert(me));
      r := if db.calls[me].phase.Done? then db.calls[me].phase.reply else Ok;
    }

    /** One attempt of the enrolling transaction. */
    method BeginEnrollmentOnce(me: CallId, m: Member, h: Household, secret: Secret, gaps: seq<Gap>)
      returns (r: Reply, ghost done: seq<Event>)
      requires Sound(db) && |gaps| == 4 && GapsOfOthers(gaps, me) && Idle(db, me)
      modifies `db
      ensures Sound(db) && Own(db.log, me) == Own(old(db).log, me) + done && Idle(db, me)
      ensures r == Ok ==> |done| == 1 && IsBegin(done[0], me, m, secret)
                          && m in db.rows && db.rows[m].secret == secret && !db.rows[m].confirmed && db.rows[m].household == h
      ensures r != Ok ==> done == [] && r in {MemberNotFound, AlreadyEnrolled, Raced, Failed}
      ensures gaps[0].broken || gaps[1].broken ==> r == Failed
      ensures r == AlreadyEnrolled ==> LockTells(WhenLocked(old(db), Look(me, m, h, Begin(secret)), gaps), me, r)
      ensures RefusedTruly(db, m, h, r)
      ensures Alone(gaps) && Undisturbed(old(db), m) ==> r == BeginReply(old(db), m, h)
    {
      hide Sound, Own, Step, Enabled, Undisturbed, SameCall, RefusedTruly, LockTells;
      done := [];
      Pause(me, gaps[0].others);
      if gaps[0].broken {
        FailureSaysNothing(db, m, h);
        return Failed, [];
      }
      LookStarts(db, Look(me, m, h, Begin(secret)));
      done := Perform(Look(me, m, h, Begin(secret)));
      r := TakeRow(me, gaps[1]);
      if r != Ok {
        return;
      }
      if db.calls[me].phase.Absent? {
        r := TryInsert(me, gaps[2]);
        if r != Ok {
          return;
        }
      } else {
        Pause(me, gaps[2].others);
      }
      Pause(me, gaps[3].others);
      if gaps[3].broken {
        AbortEnds(db, me);
        done := Perform(Abort(me));
        FailureSaysNothing(db, m, h);
        return Failed, [];
      }
      BeginCommits(db, me);
      done := Perform(Commit(me));
      FailureSaysNothing(db, m, h);
    }

    /**
     A lost insert race is retried once; losing twice is an error. `first` is what the first attempt
     was told, in the state `at`.
     */
    method BeginEnrollment(me: CallId, m: Member, h: Household, secret: Secret, gaps: seq<Gap>)
      returns (r: Reply, ghost done: seq<Event>, ghost first: Reply, ghost at: Db)
      requires Sound(db) && |gaps| == 8 && GapsOfOthers(gaps, me) && Idle(db, me)
      modifies `db
      ensures Sound(db) && Own(db.log, me) == Own(old(db).log, me) + done && Idle(db, me)
      ensures r == Ok ==> |done| == 1 && IsBegin(done[0], me, m, secret)
                          && m in db.rows && db.rows[m].secret == secret && !db.rows[m].confirmed && db.rows[m].household == h
      ensures r != Ok ==> done == [] && r in {MemberNotFound, AlreadyEnrolled, Failed}
      ensures Alone(gaps) && Undisturbed(old(db), m) ==> r == BeginReply(old(db), m, h)
      ensures RefusedTruly(db, m, h, r)
      ensures first != Raced ==> r == first
      ensures first == Raced ==> m in at.rows
      ensures first == Raced && Alone(gaps[4..]) && Undisturbed(at, m) ==> r == BeginReply(at, m, h)
    {
      hide Sound, Own;
      assert Alone(gaps) ==> Alone(gaps[..4]);
      r, done := BeginEnrollmentOnce(me, m, h, secret, gaps[..4]);
      first, at := r, db;
      if r == Raced {
        r, done := BeginEnrollmentOnce(me, m, h, secret, gaps[4..]);
        if r == Raced {
          r := Failed;
        }
      }
    }

    /** Validates a code against the pending secret read, then confirms whatever secret is pending by then. */
    method ConfirmEnrollment(me: CallId, m: Member, h: Household, code: string,
                             random: seq<seq<RecoveryCode.Byte>>, gaps: seq<Gap>)
      returns (r: Reply, codes: seq<string>, ghost done: seq<Event>)
      requires |random| == CODE_COUNT && forall i :: 0 <= i < |random| ==> |random[i]| == RecoveryCode.CODE_BYTES
      requires Sound(db) && |gaps| == 4 && GapsOfOthers(gaps, me) && Idle(db, me)
      modifies `db
      ensures Sound(db) && Own(db.log, me) == Own(old(db).log, me) + done && Idle(db, me)
      ensures r == Ok ==> ValidatedPending(crypto, Run(old(db), gaps[0].others), m, code)
      ensures r == Ok ==> && |codes| == CODE_COUNT && |done| == 1 && done[0].Confirmed? && done[0].who == me && done[0].member == m
                          && StoredFor(crypto, codes, done[0].hashes) && HasBatch(db, m, done[0].first, done[0].hashes)
                          && Unused(db, done[0].first, CODE_COUNT)
      ensures r == Ok ==> RowFree(db, m) && forall i :: 0 <= i < CODE_COUNT && VerifiesOwnHash(crypto, codes, done[0].hashes, i) ==>
                GoodLogin(crypto, db, m, "", codes[i])
      ensures r != Ok ==> done == [] && codes == []
      ensures gaps[0].broken ==> r == Failed
      ensures r == InvalidTotp ==> !ValidatedPending(crypto, Run(old(db), gaps[0].others), m, code)
      ensures r == Ok ==> ConfirmsSecretRead(Run(old(db), gaps[0].others), db.log, m, done[0])
      ensures Alone(gaps) && r == Ok ==> m in old(db).rows && done[0].secret == old(db).rows[m].secret
      ensures Alone(gaps) && Undisturbed(old(db), m) ==> (r == Ok <==> GoodConfirm(crypto, old(db), m, h, code, random))
      ensures Alone(gaps) && Undisturbed(old(db), m) ==> r == EnrollReply(crypto, old(db), m, h, code, random)
    {
      hide Sound, Own, Step, Enabled, Undisturbed, HasBatch, ConfirmsSecretRead, ConfirmsLastBegun, SameCall,
           Unused, GoodLogin, RowFree, VerifiesOwnHash, GoodConfirm, GapsOfOthers, Alone,
           RecoveryCode.Encode, RecoveryCode.Normalize;
      EnrollReplyOk(crypto, db, m, h, code, random);
      FirstGap(gaps, me, db);
      SomeGaps(gaps, me, 1, 4);
      done, codes := [], [];
      Pause(me, gaps[0].others);
      if gaps[0].broken {
        return Failed, [], [];
      }
      if m !in db.rows {
        return NotEnrolled, [], [];
      }
      var row := db.rows[m];
      if row.confirmed {
        return AlreadyEnrolled, [], [];
      }
      var secret := crypto.decrypt(row.secret);
      if secret.None? {
        return Failed, [], [];
      }
      if !crypto.validate(crypto.trim(code), secret.value) {
        return InvalidTotp, [], [];
      }
      var shown, hashes, ok := GenerateRecoveryCodes(crypto, random);
      if !ok {
        return Failed, [], [];
      }
      ghost var read := db;
      r, done := ConfirmEnrollmentWithCodes(me, h, m, hashes, gaps[1..4]);
      if r == Ok {
        SecretReported(read, db.log, m, done[0]);
        ShownCodesOpen(crypto, db, m, shown, hashes, done[0].first);
      }
      codes := if r == Ok then shown else [];
    }
  }

  /** The step came from the code and the confirmed row as it stood when it was read. */
  predicate LoginBySteps(crypto: Crypto, read: Db, me: CallId, m: Member, totp: string, done: seq<Event>) {
    && totp != "" && m in read.rows && read.rows[m].confirmed && FreshStep(crypto, read.rows[m], totp)
    && IsAccept(done, me, m, crypto.matchStep(totp, crypto.decrypt(read.rows[m].secret).value).value)
  }

  /** The call has no transaction open. */
  predicate Idle(db: Db, me: CallId) {
    me in db.calls ==> db.calls[me].phase.Done?
  }

  /** The confirmation is the last event, and its secret the last one begun before it. */
  predicate ConfirmsLastBegun(before: seq<Event>, log: seq<Event>, m: Member, e: Event) {
    && e.Confirmed? && |before| < |log| && log[|log| - 1] == e && before <= log[..|log| - 1]
    && LastBegun(log[..|log| - 1], m) == Some(e.secret)
  }

  /**
   The secret confirmed is the one that was read exactly if no BeginEnrollment of the member was
   logged between the read and the confirmation, or the last one stored that same secret.
   */
  predicate ConfirmsSecretRead(read: Db, log: seq<Event>, m: Member, e: Event) {
    && e.Confirmed? && m in read.rows && |read.log| < |log|
    && (e.secret == read.rows[m].secret <==> SecretKept(log[|read.log|..|log| - 1], m, read.rows[m].secret))
  }

  predicate IsBegin(e: Event, me: CallId, m: Member, secret: Secret) {
    e.Began? && e.who == me && e.member == m && e.secret == secret
  }

  predicate IsConfirm(e: Event, me: CallId, m: Member, hashes: seq<string>) {
    e.Confirmed? && e.who == me && e.member == m && e.hashes == hashes
  }

  predicate IsDelete(e: Event, me: CallId, m: Member) {
    e.Deleted? && e.who == me && e.member == m
  }

  /** Undisturbed, the code alone opens the login. */
  predicate GoodTotp(crypto: Crypto, db: Db, m: Member, totp: string) {
    totp != "" && m in db.rows && db.rows[m].confirmed && FreshStep(crypto, db.rows[m], totp)
  }

  /** The read went through, and found no confirmed enrollment. */
  predicate NotConfirmedWhenRead(start: Db, gaps: seq<Gap>, m: Member)
    requires |gaps| > 0
  {
    var read := Run(start, gaps[0].others);
    !gaps[0].broken && !(m in read.rows && read.rows[m].confirmed)
  }

  /** A TOTP code, if there was one, was tried against the row read and did not verify. */
  predicate TotpFailed(crypto: Crypto, read: Db, gaps: seq<Gap>, m: Member, totp: string)
    requires |gaps| == 5
  {
    totp != "" ==> m in read.rows && !TotpVerifies(crypto, read.rows[m], Run(read, gaps[1].others), gaps[2].others, m, totp)
  }

  /** The step is recorded for the very enrollment that was read exactly if that was not deleted since. */
  predicate SameLifeUnlessEnded(read: Db, after: Db, m: Member, life: Life) {
    && m in read.rows && read.log <= after.log
    && (life == read.rows[m].life <==> !Ended(after.log[|read.log|..], m, read.rows[m].life))
  }

  predicate StepUpByTotp(crypto: Crypto, read: Db, m: Member, totp: string) {
    && totp != "" && m in read.rows && read.rows[m].confirmed
    && crypto.decrypt(read.rows[m].secret).Some? && crypto.validate(totp, crypto.decrypt(read.rows[m].secret).value)
  }

  predicate ValidatedPending(crypto: Crypto, read: Db, m: Member, code: string) {
    && m in read.rows && !read.rows[m].confirmed
    && crypto.decrypt(read.rows[m].secret).Some?
    && crypto.validate(crypto.trim(code), crypto.decrypt(read.rows[m].secret).value)
  }

  /** The stored hashes are those of the codes shown. */
  predicate StoredFor(crypto: Crypto, codes: seq<string>, hashes: seq<string>) {
    |codes| == |hashes| && forall i :: 0 <= i < |codes| ==> Some(hashes[i]) == crypto.hash(RecoveryCode.Normalize(codes[i]))
  }

  /** Whoever disenrolls with a good recovery code and the wrong household loses the code and is refused. */
  lemma WrongHouseholdSpendsTheCode(crypto: Crypto, db: Db, m: Member, h: Household, recovery: string, id: CodeId)
    requires m in db.rows && db.rows[m].confirmed && db.rows[m].household != h
    requires id in db.codes && db.codes[id].member == m && !db.codes[id].used && Opens(crypto, db, recovery, id)
    requires RecoveryCode.Normalize(recovery) != "" && recovery != ""
    ensures SpendsForNothing(crypto, db, m, h, "", recovery)
  {
    assert OpensSome(crypto, db, m, recovery);
  }

  /** And it can happen: a member enrolls, confirms, and is disenrolled through another household. */
  lemma CodeLostToWrongHousehold(crypto: Crypto, recovery: string, hash: string)
    requires RecoveryCode.Normalize(recovery) != "" && recovery != ""
    requires crypto.verify(RecoveryCode.Normalize(recovery), hash) == Some(true)
    ensures var db := Db(map["m" := "h"], map[], map[], map[], 0, 0, []);
            var begun := Run(db, [Look(0, "m", "h", Begin("s")), Lock(0), Insert(0), Commit(0)]);
            var confirmed := Run(begun, [Look(1, "m", "h", Confirm([hash])), Lock(1), Commit(1)]);
            Untouched(db) && Sound(confirmed) && SpendsForNothing(crypto, confirmed, "m", "other", "", recovery)
  {
    hide Sound, Step, Run;
    var db := Db(map["m" := "h"], map[], map[], map[], 0, 0, []);
    var begin := [Look(0, "m", "h", Begin("s")), Lock(0), Insert(0), Commit(0)];
    var begun := Run(db, begin);
    UntouchedSound(db);
    RunKeepsSound(db, begin);
    FirstEnrollment(db, 0, "m", "h", "s");
    SoundHasInv(begun);
    TransactionAlone(begun, 1, "m", Confirm([hash]));
    var confirm := [Look(1, "m", "h", Confirm([hash])), Lock(1), Commit(1)];
    RunKeepsSound(begun, confirm);
    WrongHouseholdSpendsTheCode(crypto, Run(begun, confirm), "m", "other", recovery, 0);
  }

  lemma SoundHasInv(db: Db)
    requires Sound(db)
    ensures Inv(db)
  {
  }
}
