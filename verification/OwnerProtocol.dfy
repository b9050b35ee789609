/**
 Concurrent member writes of identity/adapter/member_postgres.go as steps over a database.
 A writer opens a transaction, takes its household's advisory lock, and only then starts the
 guarded UPDATE, whose reads all come from the snapshot fixed when that statement starts. Any
 number of writers interleave, members are created at any time, and any writer may fail at any
 step. Two households may share a lock key.
 */
module OwnerProtocol {
  type Household = string
  type Member = string
  type TxId = nat

  datatype Role = Owner | Adult | Child

  datatype Row = Row(household: Household, displayName: string, role: Role, active: bool) {
    predicate ActiveOwner() {
      role == Owner && active
    }
  }

  type Rows = map<Member, Row>

  /** What UpdateMemberProfile and SetMemberActive ask for. */
  datatype Change = Profile(displayName: string, role: Role) | Active(active: bool) {
    function On(r: Row): Row {
      match this
      case Profile(name, role) => r.(displayName := name, role := role)
      case Active(a) => r.(active := a)
    }

    /** Whether the change could take an active owner away. */
    predicate Demotes() {
      match this
      case Profile(_, role) => role != Owner
      case Active(a) => !a
    }
  }

  datatype Reply = Saved | MemberNotFound | LastActiveOwner | Failed

  datatype Phase =
    | Begun
    | Waiting(stale: Rows)     // one-statement variant: the statement started before the lock was granted
    | Locked
    | Reading(snapshot: Rows)
    | Written(row: Row)
    | Refused(guarded: bool)   // no row matched; guarded says whether the guard turned it away
    | Done(reply: Reply)

  datatype Tx = Tx(household: Household, member: Member, change: Change, phase: Phase) {
    predicate HoldsLock() {
      phase.Locked? || phase.Reading? || phase.Written? || phase.Refused?
    }
  }

  datatype Db = Db(rows: Rows, locks: map<int, TxId>, txs: map<TxId, Tx>)

  /** LockFirst is the code; OneStatement takes the lock inside the guarded UPDATE. */
  datatype Variant = LockFirst | OneStatement

  datatype Action =
    | Begin(t: TxId, household: Household, member: Member, change: Change)
    | Start(t: TxId)           // one-statement variant: fix the snapshot, then wait for the lock
    | Acquire(t: TxId)
    | Snapshot(t: TxId)        // the guarded UPDATE starts
    | Execute(t: TxId)         // it finds its row and evaluates its WHERE clause
    | Diagnose(t: TxId)        // memberWriteFailureReason, then rollback
    | Commit(t: TxId)
    | Abort(t: TxId)           // any error, then rollback
    | Create(member: Member, row: Row)

  /** The second row is the first with exactly what was asked for. */
  predicate AsAsked(before: Row, after: Row, c: Change) {
    && after.household == before.household
    && (c.Profile? ==> after.displayName == c.displayName && after.role == c.role && after.active == before.active)
    && (c.Active? ==> after.displayName == before.displayName && after.role == before.role && after.active == c.active)
  }

  predicate OtherActiveOwner(rows: Rows, h: Household, m: Member) {
    exists o :: o in rows && o != m && rows[o].household == h && rows[o].ActiveOwner()
  }

  /** The WHERE clause on one version of the target row; its subquery reads the snapshot. */
  predicate Passes(row: Row, snapshot: Rows, tx: Tx) {
    && row.household == tx.household
    && !(tx.change.Demotes() && row.ActiveOwner() && !OtherActiveOwner(snapshot, tx.household, tx.member))
  }

  predicate InHousehold(rows: Rows, tx: Tx) {
    tx.member in rows && rows[tx.member].household == tx.household
  }

  /**
   The row must qualify as the snapshot shows it and, once locked, as it stands now: READ
   COMMITTED re-evaluates the target row alone.
   */
  predicate Matches(db: Db, tx: Tx, snapshot: Rows) {
    && tx.member in snapshot && Passes(snapshot[tx.member], snapshot, tx)
    && tx.member in db.rows && Passes(db.rows[tx.member], snapshot, tx)
  }

  /** Another writer's uncommitted version of the row blocks this one. */
  predicate RowFree(db: Db, t: TxId, m: Member) {
    forall u :: u in db.txs && u != t && db.txs[u].phase.Written? ==> db.txs[u].member != m
  }

  predicate Enabled(hash: Household -> int, v: Variant, db: Db, a: Action) {
    match a
    case Begin(t, _, _, _) => t !in db.txs
    case Start(t) => v == OneStatement && t in db.txs && db.txs[t].phase.Begun?
    case Acquire(t) =>
      && t in db.txs && hash(db.txs[t].household) !in db.locks
      && (if v == LockFirst then db.txs[t].phase.Begun? else db.txs[t].phase.Waiting?)
    case Snapshot(t) => t in db.txs && db.txs[t].phase.Locked?
    case Execute(t) => t in db.txs && db.txs[t].phase.Reading? && RowFree(db, t, db.txs[t].member)
    case Diagnose(t) => t in db.txs && db.txs[t].phase.Refused?
    case Commit(t) => t in db.txs && db.txs[t].phase.Written?
    case Abort(t) => t in db.txs && !db.txs[t].phase.Done?
    case Create(m, row) => m !in db.rows && row.active
  }

  function To(db: Db, t: TxId, p: Phase): Db
    requires t in db.txs
  {
    db.(txs := db.txs[t := db.txs[t].(phase := p)])
  }

  /** Transaction end: the advisory lock is released with it. */
  function Finish(hash: Household -> int, db: Db, t: TxId, r: Reply): Db
    requires t in db.txs
  {
    var freed := if db.txs[t].HoldsLock() then db.locks - {hash(db.txs[t].household)} else db.locks;
    To(db, t, Done(r)).(locks := freed)
  }

  function Apply(hash: Household -> int, v: Variant, db: Db, a: Action): Db
    requires Enabled(hash, v, db, a)
  {
    match a
    case Begin(t, h, m, c) => db.(txs := db.txs[t := Tx(h, m, c, Begun)])
    case Start(t) => To(db, t, Waiting(db.rows))
    case Acquire(t) =>
      var tx := db.txs[t];
      To(db, t, if v == LockFirst then Locked else Reading(tx.phase.stale)).(locks := db.locks[hash(tx.household) := t])
    case Snapshot(t) => To(db, t, Reading(db.rows))
    case Execute(t) =>
      var tx := db.txs[t];
      if Matches(db, tx, tx.phase.snapshot) then To(db, t, Written(tx.change.On(db.rows[tx.member])))
      else To(db, t, Refused(InHousehold(tx.phase.snapshot, tx)))
    case Diagnose(t) =>
      Finish(hash, db, t, if InHousehold(db.rows, db.txs[t]) then LastActiveOwner else MemberNotFound)
    case Commit(t) =>
      var tx := db.txs[t];
      Finish(hash, db.(rows := db.rows[tx.member := tx.phase.row]), t, Saved)
    case Abort(t) => Finish(hash, db, t, Failed)
    case Create(m, row) => db.(rows := db.rows[m := row])
  }

  predicate ValidRun(hash: Household -> int, v: Variant, db: Db, run: seq<Action>)
    decreases |run|
  {
    run == [] || (Enabled(hash, v, db, run[0]) && ValidRun(hash, v, Apply(hash, v, db, run[0]), run[1..]))
  }

  function Run(hash: Household -> int, v: Variant, db: Db, run: seq<Action>): Db
    requires ValidRun(hash, v, db, run)
    decreases |run|
  {
    if run == [] then db else Run(hash, v, Apply(hash, v, db, run[0]), run[1..])
  }

  predicate HasActiveOwner(rows: Rows, h: Household) {
    exists o :: o in rows && rows[o].household == h && rows[o].role == Owner && rows[o].active
  }

  // ----- What every step keeps -----

  /** The lock table and the transactions agree on who holds what. */
  ghost predicate LocksAgree(hash: Household -> int, db: Db) {
    forall t :: t in db.txs && db.txs[t].HoldsLock() ==>
      hash(db.txs[t].household) in db.locks && db.locks[hash(db.txs[t].household)] == t
  }

  /** A running UPDATE still sees its own household exactly as committed, new members aside. */
  ghost predicate SnapshotCurrent(db: Db, tx: Tx) {
    tx.phase.Reading? ==>
      forall m :: m in tx.phase.snapshot && tx.phase.snapshot[m].household == tx.household ==>
        m in db.rows && db.rows[m] == tx.phase.snapshot[m]
  }

  /** A pending row never takes its household's last active owner away. */
  ghost predicate WriteSafe(db: Db, tx: Tx) {
    tx.phase.Written? ==>
      && InHousehold(db.rows, tx)
      && tx.phase.row.household == tx.household
      && (db.rows[tx.member].ActiveOwner() && !tx.phase.row.ActiveOwner() ==>
            OtherActiveOwner(db.rows, tx.household, tx.member))
  }

  ghost predicate Inv(hash: Household -> int, db: Db) {
    && LocksAgree(hash, db)
    && (forall t :: t in db.txs ==> !db.txs[t].phase.Waiting? && SnapshotCurrent(db, db.txs[t]) && WriteSafe(db, db.txs[t]))
  }

  /** One household's writers exclude each other, whatever else shares their lock key. */
  lemma OneWriter(hash: Household -> int, db: Db, t: TxId, u: TxId)
    requires LocksAgree(hash, db) && t in db.txs && u in db.txs
    requires db.txs[t].HoldsLock() && db.txs[u].HoldsLock() && db.txs[t].household == db.txs[u].household
    ensures t == u
  {
  }

  /** A commit leaves every other household's rows, and so its writers, as they were. */
  lemma CommitElsewhere(hash: Household -> int, db: Db, t: TxId, u: TxId)
    requires Inv(hash, db) && t in db.txs && db.txs[t].phase.Written? && u in db.txs && u != t
    ensures var after := db.(rows := db.rows[db.txs[t].member := db.txs[t].phase.row]);
            SnapshotCurrent(after, db.txs[u]) && WriteSafe(after, db.txs[u])
  {
    var tx, ux := db.txs[t], db.txs[u];
    var after := db.(rows := db.rows[tx.member := tx.phase.row]);
    if ux.HoldsLock() {
      if ux.household == tx.household {
        OneWriter(hash, db, t, u);
      }
      if OtherActiveOwner(db.rows, ux.household, ux.member) {
        var o :| o in db.rows && o != ux.member && db.rows[o].household == ux.household && db.rows[o].ActiveOwner();
        assert after.rows[o] == db.rows[o];
      }
    }
  }

  lemma StepKeepsLocks(hash: Household -> int, db: Db, a: Action)
    requires LocksAgree(hash, db) && Enabled(hash, LockFirst, db, a)
    ensures LocksAgree(hash, Apply(hash, LockFirst, db, a))
  {
    hide OtherActiveOwner, Matches, InHousehold;
  }

  /** The guarded UPDATE leaves a row only if its snapshot shows another active owner, who still stands. */
  lemma ExecuteIsSafe(db: Db, tx: Tx)
    requires tx.phase.Reading? && SnapshotCurrent(db, tx) && Matches(db, tx, tx.phase.snapshot)
    ensures WriteSafe(db, tx.(phase := Written(tx.change.On(db.rows[tx.member]))))
  {
    var s := tx.phase.snapshot;
    if OtherActiveOwner(s, tx.household, tx.member) {
      var o :| o in s && o != tx.member && s[o].household == tx.household && s[o].ActiveOwner();
      assert o in db.rows && db.rows[o] == s[o];
    }
  }

  lemma CreateKeeps(db: Db, m: Member, row: Row, tx: Tx)
    requires m !in db.rows && SnapshotCurrent(db, tx) && WriteSafe(db, tx)
    ensures var after := db.(rows := db.rows[m := row]); SnapshotCurrent(after, tx) && WriteSafe(after, tx)
  {
    var after := db.(rows := db.rows[m := row]);
    if OtherActiveOwner(db.rows, tx.household, tx.member) {
      var o :| o in db.rows && o != tx.member && db.rows[o].household == tx.household && db.rows[o].ActiveOwner();
      assert after.rows[o] == db.rows[o];
    }
  }

  lemma StepKeepsInv(hash: Household -> int, db: Db, a: Action)
    requires Inv(hash, db) && Enabled(hash, LockFirst, db, a)
    ensures Inv(hash, Apply(hash, LockFirst, db, a))
  {
    var after := Apply(hash, LockFirst, db, a);
    StepKeepsLocks(hash, db, a);
    forall u | u in after.txs
      ensures !after.txs[u].phase.Waiting? && SnapshotCurrent(after, after.txs[u]) && WriteSafe(after, after.txs[u])
    {
      match a
      case Create(m, row) => CreateKeeps(db, m, row, db.txs[u]);
      case Commit(t) =>
        if u != t {
          CommitElsewhere(hash, db, t, u);
        }
      case Execute(t) =>
        if u == t && Matches(db, db.txs[t], db.txs[t].phase.snapshot) {
          ExecuteIsSafe(db, db.txs[t]);
        }
      case _ =>
    }
  }

  // ----- The last active owner stays -----

  lemma StepKeepsOwner(hash: Household -> int, db: Db, a: Action, h: Household)
    requires Inv(hash, db) && Enabled(hash, LockFirst, db, a) && HasActiveOwner(db.rows, h)
    ensures HasActiveOwner(Apply(hash, LockFirst, db, a).rows, h)
  {
    var after := Apply(hash, LockFirst, db, a);
    var o :| o in db.rows && db.rows[o].household == h && db.rows[o].ActiveOwner();
    if a.Commit? && db.txs[a.t].member == o && !after.rows[o].ActiveOwner() {
      var tx := db.txs[a.t];
      var other :| other in db.rows && other != o && db.rows[other].household == h && db.rows[other].ActiveOwner();
      assert after.rows[other] == db.rows[other];
    } else {
      assert o in after.rows && after.rows[o].household == h && after.rows[o].ActiveOwner();
    }
  }

  /** A database at rest: no transaction is open and no lock is held. */
  predicate Quiet(db: Db) {
    db.locks == map[] && db.txs == map[]
  }

  lemma {:induction false} RunKeepsOwner(hash: Household -> int, db: Db, run: seq<Action>, h: Household)
    requires Inv(hash, db) && ValidRun(hash, LockFirst, db, run) && HasActiveOwner(db.rows, h)
    ensures HasActiveOwner(Run(hash, LockFirst, db, run).rows, h)
    decreases |run|
  {
    if run != [] {
      StepKeepsInv(hash, db, run[0]);
      StepKeepsOwner(hash, db, run[0], h);
      RunKeepsOwner(hash, Apply(hash, LockFirst, db, run[0]), run[1..], h);
    }
  }

  /**
   Whatever writers run, however they interleave, and however lock keys collide: a household that
   has an active owner never reaches a committed state without one.
   */
  lemma OwnerNeverLost(hash: Household -> int, db: Db, run: seq<Action>, more: seq<Action>, h: Household)
    requires Quiet(db) && ValidRun(hash, LockFirst, db, run)
    requires HasActiveOwner(Run(hash, LockFirst, db, run).rows, h)
    requires ValidRun(hash, LockFirst, Run(hash, LockFirst, db, run), more)
    ensures HasActiveOwner(Run(hash, LockFirst, Run(hash, LockFirst, db, run), more).rows, h)
  {
    RunKeepsInv(hash, db, run);
    RunKeepsOwner(hash, Run(hash, LockFirst, db, run), more, h);
  }

  lemma {:induction false} RunKeepsInv(hash: Household -> int, db: Db, run: seq<Action>)
    requires Inv(hash, db) && ValidRun(hash, LockFirst, db, run)
    ensures Inv(hash, Run(hash, LockFirst, db, run))
    decreases |run|
  {
    if run != [] {
      StepKeepsInv(hash, db, run[0]);
      RunKeepsInv(hash, Apply(hash, LockFirst, db, run[0]), run[1..]);
    }
  }

  // ----- What a write leaves -----

  /** A pending row is the row as it stands with exactly what was asked for. */
  ghost predicate PendingFits(db: Db) {
    forall t :: t in db.txs && db.txs[t].phase.Written? ==>
      db.txs[t].member in db.rows && AsAsked(db.rows[db.txs[t].member], db.txs[t].phase.row, db.txs[t].change)
  }

  /** Two pending rows are of different members. */
  lemma PendingApart(hash: Household -> int, db: Db, t: TxId, u: TxId)
    requires Inv(hash, db) && t in db.txs && u in db.txs && t != u
    requires db.txs[t].phase.Written? && db.txs[u].phase.Written?
    ensures db.txs[t].member != db.txs[u].member
  {
    assert WriteSafe(db, db.txs[t]) && WriteSafe(db, db.txs[u]);
    if db.txs[t].household == db.txs[u].household {
      OneWriter(hash, db, t, u);
    }
  }

  lemma StepKeepsPending(hash: Household -> int, db: Db, a: Action)
    requires Inv(hash, db) && PendingFits(db) && Enabled(hash, LockFirst, db, a)
    ensures PendingFits(Apply(hash, LockFirst, db, a))
  {
    hide Inv, OtherActiveOwner;
    var after := Apply(hash, LockFirst, db, a);
    forall u | u in after.txs && after.txs[u].phase.Written?
      ensures after.txs[u].member in after.rows
      ensures AsAsked(after.rows[after.txs[u].member], after.txs[u].phase.row, after.txs[u].change)
    {
      if a.Commit? && u != a.t {
        PendingApart(hash, db, a.t, u);
      }
    }
  }

  lemma {:induction false} RunKeepsPending(hash: Household -> int, db: Db, run: seq<Action>)
    requires Inv(hash, db) && PendingFits(db) && ValidRun(hash, LockFirst, db, run)
    ensures PendingFits(Run(hash, LockFirst, db, run))
    decreases |run|
  {
    hide Apply, Enabled, Inv, PendingFits;
    if run != [] {
      StepKeepsInv(hash, db, run[0]);
      StepKeepsPending(hash, db, run[0]);
      RunKeepsPending(hash, Apply(hash, LockFirst, db, run[0]), run[1..]);
    }
  }

  /**
   Whatever else runs between a writer's start and its commit, the commit writes to its own member's
   row, as that stands then, exactly what was asked for at the start; and nothing else.
   */
  lemma CommitWritesWhatWasAsked(
    hash: Household -> int, db: Db, before: seq<Action>, t: TxId, h: Household, m: Member, c: Change, between: seq<Action>)
    requires Quiet(db) && ValidRun(hash, LockFirst, db, before)
    requires Enabled(hash, LockFirst, Run(hash, LockFirst, db, before), Begin(t, h, m, c))
    requires var begun := Apply(hash, LockFirst, Run(hash, LockFirst, db, before), Begin(t, h, m, c));
             && ValidRun(hash, LockFirst, begun, between)
             && Enabled(hash, LockFirst, Run(hash, LockFirst, begun, between), Commit(t))
    ensures var at := Run(hash, LockFirst, Apply(hash, LockFirst, Run(hash, LockFirst, db, before), Begin(t, h, m, c)), between);
            var after := Apply(hash, LockFirst, at, Commit(t));
            && m in at.rows && at.rows[m].household == h && after.rows == at.rows[m := after.rows[m]]
            && AsAsked(at.rows[m], after.rows[m], c) && after.txs[t].phase == Done(Saved)
  {
    hide Inv, AsAsked, OtherActiveOwner;
    var start := Run(hash, LockFirst, db, before);
    var begun := Apply(hash, LockFirst, start, Begin(t, h, m, c));
    QuietInv(hash, db);
    RunKeepsInv(hash, db, before);
    RunKeepsPending(hash, db, before);
    StepKeepsInv(hash, start, Begin(t, h, m, c));
    StepKeepsPending(hash, start, Begin(t, h, m, c));
    RunKeepsInv(hash, begun, between);
    RunKeepsPending(hash, begun, between);
    RunKeepsRequest(hash, begun, between, t);
    PendingKnown(hash, Run(hash, LockFirst, begun, between), t);
  }

  lemma PendingKnown(hash: Household -> int, db: Db, t: TxId)
    requires Inv(hash, db) && t in db.txs && db.txs[t].phase.Written?
    ensures InHousehold(db.rows, db.txs[t])
  {
    assert WriteSafe(db, db.txs[t]);
  }

  /** The writer has a step to take on its own account. */
  predicate CanGoOn(hash: Household -> int, db: Db, t: TxId) {
    || Enabled(hash, LockFirst, db, Acquire(t)) || Enabled(hash, LockFirst, db, Snapshot(t))
    || Enabled(hash, LockFirst, db, Execute(t)) || Enabled(hash, LockFirst, db, Diagnose(t))
    || Enabled(hash, LockFirst, db, Commit(t))
  }

  /**
   Nobody waits for ever: a writer that is not done waits at most for whoever holds its lock key, or
   for a pending row, whose writer can commit. No UPDATE waits for a row of its own household.
   */
  lemma NobodyIsStuck(hash: Household -> int, db: Db, t: TxId)
    requires Inv(hash, db) && t in db.txs && !db.txs[t].phase.Done?
    ensures Enabled(hash, LockFirst, db, Abort(t))
    ensures || CanGoOn(hash, db, t)
            || (db.txs[t].phase.Begun? && hash(db.txs[t].household) in db.locks)
            || (exists u :: u in db.txs && u != t && db.txs[u].member == db.txs[t].member
                            && Enabled(hash, LockFirst, db, Commit(u)))
    ensures db.txs[t].phase.Reading? && InHousehold(db.rows, db.txs[t]) ==> Enabled(hash, LockFirst, db, Execute(t))
  {
    hide OtherActiveOwner;
    var tx := db.txs[t];
    if tx.phase.Reading? && InHousehold(db.rows, tx) {
      forall u | u in db.txs && u != t && db.txs[u].phase.Written? ensures db.txs[u].member != tx.member {
        assert WriteSafe(db, db.txs[u]);
        if db.txs[u].household == tx.household {
          OneWriter(hash, db, t, u);
        }
      }
    }
  }

  /** A reply is final, in either variant. */
  lemma {:induction false} RepliesStand(hash: Household -> int, v: Variant, db: Db, run: seq<Action>, t: TxId)
    requires ValidRun(hash, v, db, run) && t in db.txs && db.txs[t].phase.Done?
    ensures t in Run(hash, v, db, run).txs && Run(hash, v, db, run).txs[t] == db.txs[t]
    decreases |run|
  {
    hide OtherActiveOwner, Passes, Matches, InHousehold, RowFree;
    if run != [] {
      RepliesStand(hash, v, Apply(hash, v, db, run[0]), run[1..], t);
    }
  }

  /** Any writer may fail at any point: nothing is written, and its lock is free again. */
  lemma FailureLeavesNothing(hash: Household -> int, db: Db, t: TxId)
    requires Inv(hash, db) && t in db.txs && !db.txs[t].phase.Done?
    ensures var after := Apply(hash, LockFirst, db, Abort(t));
            && after.rows == db.rows && after.txs[t].phase == Done(Failed)
            && (forall u :: u in db.txs && u != t ==> u in after.txs && after.txs[u] == db.txs[u])
            && (db.txs[t].HoldsLock() ==> hash(db.txs[t].household) !in after.locks)
  {
  }

  /** No other step writes a row: members are created as given, and every other row stays. */
  lemma OnlyCommitsAndCreatesWrite(hash: Household -> int, db: Db, a: Action)
    requires Enabled(hash, LockFirst, db, a) && !a.Commit?
    ensures var after := Apply(hash, LockFirst, db, a);
            if a.Create? then a.member !in db.rows && a.row.active && after.rows == db.rows[a.member := a.row]
            else after.rows == db.rows
  {
    hide OtherActiveOwner;
  }

  /** The run of one writer with nobody else about. */
  function Alone(t: TxId, h: Household, m: Member, c: Change, matched: bool): seq<Action> {
    [Begin(t, h, m, c), Acquire(t), Snapshot(t)] + [Execute(t), if matched then Commit(t) else Diagnose(t)]
  }

  lemma LoneReads(hash: Household -> int, rows: Rows, t: TxId, h: Household, m: Member, c: Change)
    ensures var db, run := Db(rows, map[], map[]), [Begin(t, h, m, c), Acquire(t), Snapshot(t)];
            && ValidRun(hash, LockFirst, db, run)
            && Run(hash, LockFirst, db, run) == Db(rows, map[hash(h) := t], map[t := Tx(h, m, c, Reading(rows))])
  {
    var tx, run := Tx(h, m, c, Begun), [Begin(t, h, m, c), Acquire(t), Snapshot(t)];
    var held := map[hash(h) := t];
    var states := [
      Db(rows, map[], map[]),
      Db(rows, map[], map[t := tx]),
      Db(rows, held, map[t := tx.(phase := Locked)]),
      Db(rows, held, map[t := tx.(phase := Reading(rows))])];
    forall i | 0 <= i < 3
      ensures Enabled(hash, LockFirst, states[i], run[i])
      ensures states[i + 1] == Apply(hash, LockFirst, states[i], run[i])
    {
      assert states[i + 1].txs == Apply(hash, LockFirst, states[i], run[i]).txs;
    }
    Unroll(hash, LockFirst, run, states);
  }

  lemma LoneEnds(hash: Household -> int, rows: Rows, t: TxId, h: Household, m: Member, c: Change)
    ensures var ok := Allowed(rows, h, m, c);
            var known := m in rows && rows[m].household == h;
            var db := Db(rows, map[hash(h) := t], map[t := Tx(h, m, c, Reading(rows))]);
            var run := [Execute(t), if ok then Commit(t) else Diagnose(t)];
            && ValidRun(hash, LockFirst, db, run)
            && Run(hash, LockFirst, db, run) ==
               Db(if ok then rows[m := c.On(rows[m])] else rows, map[],
                  map[t := Tx(h, m, c, Done(if ok then Saved else if known then LastActiveOwner else MemberNotFound))])
  {
    hide OtherActiveOwner;
    var ok := Allowed(rows, h, m, c);
    var known := m in rows && rows[m].household == h;
    var run := [Execute(t), if ok then Commit(t) else Diagnose(t)];
    var held := map[hash(h) := t];
    var reading := Tx(h, m, c, Reading(rows));
    var written := if ok then Written(c.On(rows[m])) else Refused(known);
    var states := [
      Db(rows, held, map[t := reading]),
      Db(rows, held, map[t := reading.(phase := written)]),
      Db(if ok then rows[m := c.On(rows[m])] else rows, map[],
         map[t := reading.(phase := Done(if ok then Saved else if known then LastActiveOwner else MemberNotFound))])];
    assert Matches(states[0], reading, rows) <==> ok;
    forall i | 0 <= i < 2
      ensures Enabled(hash, LockFirst, states[i], run[i])
      ensures states[i + 1] == Apply(hash, LockFirst, states[i], run[i])
    {
      assert states[i + 1].txs == Apply(hash, LockFirst, states[i], run[i]).txs;
      assert states[i + 1].locks == Apply(hash, LockFirst, states[i], run[i]).locks;
    }
    Unroll(hash, LockFirst, run, states);
  }

  /** What a lone writer should be told. */
  predicate Allowed(rows: Rows, h: Household, m: Member, c: Change) {
    && m in rows && rows[m].household == h
    && !(c.Demotes() && rows[m].ActiveOwner() && !OtherActiveOwner(rows, h, m))
  }

  lemma AskedIsWritten(r: Row, c: Change)
    ensures AsAsked(r, c.On(r), c)
  {
  }

  /**
   The guard refuses exactly the write that would leave the household, which has an active owner,
   without one.
   */
  lemma GuardExactly(rows: Rows, h: Household, m: Member, c: Change, row: Row)
    requires m in rows && rows[m].household == h && AsAsked(rows[m], row, c)
    ensures Allowed(rows, h, m, c) <==> (HasActiveOwner(rows, h) ==> HasActiveOwner(rows[m := row], h))
  {
    var after := rows[m := row];
    if OtherActiveOwner(rows, h, m) {
      var o :| o in rows && o != m && rows[o].household == h && rows[o].ActiveOwner();
      assert after[o] == rows[o];
    } else if HasActiveOwner(rows, h) {
      var o :| o in rows && rows[o].household == h && rows[o].role == Owner && rows[o].active;
      assert o == m && rows[m].ActiveOwner();
      assert after[m] == row;
      if HasActiveOwner(after, h) {
        var p :| p in after && after[p].household == h && after[p].role == Owner && after[p].active;
        assert p != m ==> rows[p].ActiveOwner();
      }
    }
  }

  /**
   A lone writer puts exactly what it asks for into its row, unless that would take the last active
   owner away or the row is not its household's; then it changes nothing. It is told which, and leaves
   no lock behind.
   */
  lemma LoneWriter(hash: Household -> int, rows: Rows, t: TxId, h: Household, m: Member, c: Change)
    ensures var db, ok := Db(rows, map[], map[]), Allowed(rows, h, m, c);
            var known := m in rows && rows[m].household == h;
            var run := Alone(t, h, m, c, ok);
            && ValidRun(hash, LockFirst, db, run)
            && var after := Run(hash, LockFirst, db, run);
            && after.locks == map[]
            && after.txs == map[t := Tx(h, m, c, Done(if ok then Saved else if known then LastActiveOwner else MemberNotFound))]
            && (ok ==> known && m in after.rows && after.rows == rows[m := after.rows[m]] && AsAsked(rows[m], after.rows[m], c))
            && (!ok ==> after.rows == rows)
  {
    hide Apply, Enabled, ValidRun, Run, AsAsked, OtherActiveOwner;
    var ok := Allowed(rows, h, m, c);
    LoneReads(hash, rows, t, h, m, c);
    LoneEnds(hash, rows, t, h, m, c);
    RunsCompose(hash, LockFirst, Db(rows, map[], map[]),
                [Begin(t, h, m, c), Acquire(t), Snapshot(t)], [Execute(t), if ok then Commit(t) else Diagnose(t)]);
    if ok {
      AskedIsWritten(rows[m], c);
    }
  }

  // ----- Why the lock needs a statement of its own -----

  const TWO_OWNERS: Rows := map["a" := Row("h", "Ann", Owner, true), "b" := Row("h", "Bo", Owner, true)]

  /** Two owners ask to deactivate each other, and both UPDATEs start before a lock is granted. */
  const OPENING: seq<Action> := [
    Begin(0, "h", "a", Active(false)), Begin(1, "h", "b", Active(false)), Start(0), Start(1)]

  const RACE: seq<Action> := OPENING + Turn(0) + Turn(1)

  /** A writer is granted the lock, runs its UPDATE and commits. */
  function Turn(t: TxId): (r: seq<Action>)
    ensures |r| == 3
  {
    [Acquire(t), Execute(t), Commit(t)]
  }

  /** Transaction `t` deactivates `m`; its statement started on `stale`. */
  function Deactivating(m: Member, p: Phase): Tx {
    Tx("h", m, Active(false), p)
  }

  lemma Opens(hash: Household -> int, rows: Rows)
    ensures var db := Db(rows, map[], map[]);
            && ValidRun(hash, OneStatement, db, OPENING)
            && Run(hash, OneStatement, db, OPENING) ==
               Db(rows, map[], map[0 := Deactivating("a", Waiting(rows)), 1 := Deactivating("b", Waiting(rows))])
  {
    var b, w := Begun, Waiting(rows);
    var states := [
      Db(rows, map[], map[]),
      Db(rows, map[], map[0 := Deactivating("a", b)]),
      Db(rows, map[], map[0 := Deactivating("a", b), 1 := Deactivating("b", b)]),
      Db(rows, map[], map[0 := Deactivating("a", w), 1 := Deactivating("b", b)]),
      Db(rows, map[], map[0 := Deactivating("a", w), 1 := Deactivating("b", w)])];
    forall i | 0 <= i < |OPENING|
      ensures Enabled(hash, OneStatement, states[i], OPENING[i])
      ensures states[i + 1] == Apply(hash, OneStatement, states[i], OPENING[i])
    {
      assert states[i + 1].txs == Apply(hash, OneStatement, states[i], OPENING[i]).txs;
    }
    Unroll(hash, OneStatement, OPENING, states);
  }

  /** A waiting writer whose stale snapshot shows another owner deactivates its member. */
  lemma TurnSaves(hash: Household -> int, db: Db, t: TxId, m: Member, stale: Rows)
    requires t in db.txs && db.txs[t] == Deactivating(m, Waiting(stale)) && hash("h") !in db.locks
    requires m in stale && m in db.rows && db.rows[m] == stale[m] && stale[m].household == "h"
    requires OtherActiveOwner(stale, "h", m)
    requires forall u :: u in db.txs ==> !db.txs[u].phase.Written?
    ensures ValidRun(hash, OneStatement, db, Turn(t))
    ensures Run(hash, OneStatement, db, Turn(t)) ==
            Db(db.rows[m := stale[m].(active := false)], db.locks, db.txs[t := Deactivating(m, Done(Saved))])
  {
    hide OtherActiveOwner;
    var out := stale[m].(active := false);
    var held := db.locks[hash("h") := t];
    var states := [
      db,
      Db(db.rows, held, db.txs[t := Deactivating(m, Reading(stale))]),
      Db(db.rows, held, db.txs[t := Deactivating(m, Written(out))]),
      Db(db.rows[m := out], db.locks, db.txs[t := Deactivating(m, Done(Saved))])];
    assert Matches(states[1], states[1].txs[t], stale);
    forall i | 0 <= i < 3
      ensures Enabled(hash, OneStatement, states[i], Turn(t)[i])
      ensures states[i + 1] == Apply(hash, OneStatement, states[i], Turn(t)[i])
    {
      assert states[i + 1].txs == Apply(hash, OneStatement, states[i], Turn(t)[i]).txs;
      assert states[i + 1].locks == Apply(hash, OneStatement, states[i], Turn(t)[i]).locks;
    }
    Unroll(hash, OneStatement, Turn(t), states);
  }

  lemma {:induction false} RunsCompose(hash: Household -> int, v: Variant, db: Db, first: seq<Action>, second: seq<Action>)
    requires ValidRun(hash, v, db, first) && ValidRun(hash, v, Run(hash, v, db, first), second)
    ensures ValidRun(hash, v, db, first + second)
    ensures Run(hash, v, db, first + second) == Run(hash, v, Run(hash, v, db, first), second)
    decreases |first|
  {
    hide Apply, Enabled;
    if first == [] {
      assert first + second == second;
    } else {
      RunsCompose(hash, v, Apply(hash, v, db, first[0]), first[1..], second);
      assert (first + second)[1..] == first[1..] + second;
    }
  }

  /**
   Taking the lock inside the guarded statement still serializes the writers, and yet two owners
   who deactivate each other at once leave the household without one.
   */
  lemma OneStatementLosesTheOwner(hash: Household -> int)
    ensures var db := Db(TWO_OWNERS, map[], map[]);
            && HasActiveOwner(db.rows, "h")
            && ValidRun(hash, OneStatement, db, RACE)
            && !HasActiveOwner(Run(hash, OneStatement, db, RACE).rows, "h")
  {
    hide Apply, Enabled, ValidRun, Run;
    var rows := TWO_OWNERS;
    assert rows["a"].ActiveOwner() && rows["b"].ActiveOwner();
    assert OtherActiveOwner(rows, "h", "a") && OtherActiveOwner(rows, "h", "b");
    var db := Db(rows, map[], map[]);
    Opens(hash, rows);
    var ready := Run(hash, OneStatement, db, OPENING);
    TurnSaves(hash, ready, 0, "a", rows);
    var first := Run(hash, OneStatement, ready, Turn(0));
    TurnSaves(hash, first, 1, "b", rows);
    RunsCompose(hash, OneStatement, db, OPENING, Turn(0));
    RunsCompose(hash, OneStatement, db, OPENING + Turn(0), Turn(1));
  }

  /** A run whose states are listed one by one. */
  lemma {:induction false} Unroll(hash: Household -> int, v: Variant, run: seq<Action>, states: seq<Db>)
    requires |states| == |run| + 1
    requires forall i :: 0 <= i < |run| ==>
               Enabled(hash, v, states[i], run[i]) && states[i + 1] == Apply(hash, v, states[i], run[i])
    ensures ValidRun(hash, v, states[0], run)
    ensures Run(hash, v, states[0], run) == states[|run|]
    decreases |run|
  {
    hide Apply, Enabled;
    if run != [] {
      var later := states[1..];
      forall i | 0 <= i < |run[1..]|
        ensures Enabled(hash, v, later[i], run[1..][i]) && later[i + 1] == Apply(hash, v, later[i], run[1..][i])
      {
        assert run[1..][i] == run[i + 1] && later[i] == states[i + 1] && later[i + 1] == states[i + 2];
      }
      Unroll(hash, v, run[1..], later);
    }
  }

  // ----- The reason given for a refusal -----

  /** The guard's ground for refusing: the target is its household's only active owner, and would stop being it. */
  predicate IsLastOwner(rows: Rows, h: Household, m: Member, c: Change) {
    && m in rows && rows[m].household == h && rows[m].ActiveOwner() && c.Demotes()
    && !OtherActiveOwner(rows, h, m)
  }

  /** Why the UPDATE that saw `rows` matched no row. */
  function TrueReason(rows: Rows, tx: Tx): Reply {
    if InHousehold(rows, tx) then LastActiveOwner else MemberNotFound
  }

  /** Transaction t has gone as far as its UPDATE, which sees `rows`; a refusal is for the true reason. */
  ghost predicate Updating(db: Db, t: TxId, rows: Rows) {
    && t in db.txs
    && match db.txs[t].phase
       case Reading(s) => s == rows
       case Written(_) => true
       case Refused(guarded) =>
         && guarded == InHousehold(rows, db.txs[t])
         && (guarded ==> IsLastOwner(rows, db.txs[t].household, db.txs[t].member, db.txs[t].change))
       case Done(_) => true
       case _ => false
  }

  lemma ExecuteRefuses(hash: Household -> int, db: Db, t: TxId)
    requires Inv(hash, db) && t in db.txs && db.txs[t].phase.Reading?
    requires InHousehold(db.txs[t].phase.snapshot, db.txs[t]) && !Matches(db, db.txs[t], db.txs[t].phase.snapshot)
    ensures var tx := db.txs[t]; IsLastOwner(tx.phase.snapshot, tx.household, tx.member, tx.change)
  {
    hide OtherActiveOwner, LocksAgree;
    assert SnapshotCurrent(db, db.txs[t]);
  }

  lemma StepKeepsUpdating(hash: Household -> int, db: Db, a: Action, t: TxId, rows: Rows)
    requires Inv(hash, db) && Enabled(hash, LockFirst, db, a) && Updating(db, t, rows)
    ensures Updating(Apply(hash, LockFirst, db, a), t, rows)
    ensures var tx, after := db.txs[t], Apply(hash, LockFirst, db, a).txs[t]; after == tx.(phase := after.phase)
  {
    hide Inv, OtherActiveOwner, IsLastOwner, Passes, Matches;
    if a == Execute(t) && InHousehold(rows, db.txs[t]) && !Matches(db, db.txs[t], rows) {
      ExecuteRefuses(hash, db, t);
    }
  }

  lemma {:induction false} RunKeepsUpdating(hash: Household -> int, db: Db, run: seq<Action>, t: TxId, rows: Rows)
    requires Inv(hash, db) && ValidRun(hash, LockFirst, db, run) && Updating(db, t, rows)
    ensures Updating(Run(hash, LockFirst, db, run), t, rows)
    ensures var tx, after := db.txs[t], Run(hash, LockFirst, db, run).txs[t]; after == tx.(phase := after.phase)
    decreases |run|
  {
    hide Apply, Enabled, Inv, IsLastOwner, InHousehold;
    if run != [] {
      StepKeepsInv(hash, db, run[0]);
      StepKeepsUpdating(hash, db, run[0], t, rows);
      RunKeepsUpdating(hash, Apply(hash, LockFirst, db, run[0]), run[1..], t, rows);
    }
  }

  /** The run creates the member, in the household. */
  predicate Creates(run: seq<Action>, h: Household, m: Member) {
    exists i :: 0 <= i < |run| && run[i].Create? && run[i].member == m && run[i].row.household == h
  }

  /** Members stay in their household for good, and one comes to be in it only by being created there. */
  lemma StepKeepsHousehold(hash: Household -> int, db: Db, a: Action, h: Household, m: Member)
    requires Inv(hash, db) && Enabled(hash, LockFirst, db, a)
    ensures var after := Apply(hash, LockFirst, db, a);
            (m in after.rows && after.rows[m].household == h) <==>
            ((m in db.rows && db.rows[m].household == h) || Creates([a], h, m))
  {
    hide LocksAgree, OtherActiveOwner;
    if a.Commit? {
      assert WriteSafe(db, db.txs[a.t]);
    }
    if a.Create? && a.member == m && a.row.household == h {
      assert [a][0] == a;
    }
  }

  lemma {:induction false} RunKeepsHousehold(hash: Household -> int, db: Db, run: seq<Action>, h: Household, m: Member)
    requires Inv(hash, db) && ValidRun(hash, LockFirst, db, run)
    ensures var after := Run(hash, LockFirst, db, run);
            (m in after.rows && after.rows[m].household == h) <==>
            ((m in db.rows && db.rows[m].household == h) || Creates(run, h, m))
    decreases |run|
  {
    hide Apply, Enabled, Inv, Creates;
    if run != [] {
      var next := Apply(hash, LockFirst, db, run[0]);
      StepKeepsInv(hash, db, run[0]);
      StepKeepsHousehold(hash, db, run[0], h, m);
      RunKeepsHousehold(hash, next, run[1..], h, m);
      CreatesSplit(run, h, m);
    } else {
      CreatesNothing(h, m);
    }
  }

  lemma CreatesNothing(h: Household, m: Member)
    ensures !Creates([], h, m)
  {
  }

  lemma CreatesSplit(run: seq<Action>, h: Household, m: Member)
    requires run != []
    ensures Creates(run, h, m) <==> Creates([run[0]], h, m) || Creates(run[1..], h, m)
  {
    if Creates(run, h, m) {
      var i :| 0 <= i < |run| && run[i].Create? && run[i].member == m && run[i].row.household == h;
      if i == 0 {
        assert [run[0]][0] == run[0];
      } else {
        assert run[1..][i - 1] == run[i];
      }
    }
    if Creates([run[0]], h, m) {
      assert run[0].Create?;
    } else if Creates(run[1..], h, m) {
      var i :| 0 <= i < |run[1..]| && run[1..][i].Create? && run[1..][i].member == m && run[1..][i].row.household == h;
      assert run[i + 1] == run[1..][i];
    }
  }

  /** What memberWriteFailureReason answers now. */
  function Told(hash: Household -> int, db: Db, t: TxId): Reply
    requires Enabled(hash, LockFirst, db, Diagnose(t))
  {
    var after := Apply(hash, LockFirst, db, Diagnose(t)).txs[t].phase;
    if after.Done? then after.reply else Failed
  }

  /**
   A refused writer is told the true reason unless its member was not in the household when its
   UPDATE started and was created there before the reason was looked up; then it is told wrong.
   The true reason LastActiveOwner means what it says: the member was the only active owner.
   */
  lemma ReasonExactly(hash: Household -> int, db: Db, before: seq<Action>, t: TxId, between: seq<Action>)
    requires Quiet(db) && ValidRun(hash, LockFirst, db, before)
    requires Enabled(hash, LockFirst, Run(hash, LockFirst, db, before), Snapshot(t))
    requires var started := Apply(hash, LockFirst, Run(hash, LockFirst, db, before), Snapshot(t));
             && ValidRun(hash, LockFirst, started, between)
             && Enabled(hash, LockFirst, Run(hash, LockFirst, started, between), Diagnose(t))
    ensures var at := Run(hash, LockFirst, db, before);
            var tx := at.txs[t];
            var asked := Run(hash, LockFirst, Apply(hash, LockFirst, at, Snapshot(t)), between);
            && (Told(hash, asked, t) != TrueReason(at.rows, tx) <==>
                  !InHousehold(at.rows, tx) && Creates(between, tx.household, tx.member))
            && (TrueReason(at.rows, tx) == LastActiveOwner ==> IsLastOwner(at.rows, tx.household, tx.member, tx.change))
  {
    hide Inv, Creates, IsLastOwner;
    var at := Run(hash, LockFirst, db, before);
    QuietInv(hash, db);
    RunKeepsInv(hash, db, before);
    var tx := at.txs[t];
    var started := Apply(hash, LockFirst, at, Snapshot(t));
    StepKeepsInv(hash, at, Snapshot(t));
    RunKeepsUpdating(hash, started, between, t, at.rows);
    RunKeepsHousehold(hash, started, between, tx.household, tx.member);
  }

  lemma QuietInv(hash: Household -> int, db: Db)
    requires Quiet(db)
    ensures Inv(hash, db)
  {
  }

  predicate SameRequest(db: Db, after: Db, t: TxId) {
    t in db.txs ==> t in after.txs && after.txs[t] == db.txs[t].(phase := after.txs[t].phase)
  }

  lemma StepKeepsRequest(hash: Household -> int, db: Db, a: Action, t: TxId)
    requires Enabled(hash, LockFirst, db, a)
    ensures SameRequest(db, Apply(hash, LockFirst, db, a), t)
  {
    hide OtherActiveOwner, Passes, Matches, InHousehold;
  }

  lemma {:induction false} RunKeepsRequest(hash: Household -> int, db: Db, run: seq<Action>, t: TxId)
    requires ValidRun(hash, LockFirst, db, run)
    ensures SameRequest(db, Run(hash, LockFirst, db, run), t)
    decreases |run|
  {
    hide Apply, Enabled;
    if run != [] {
      StepKeepsRequest(hash, db, run[0], t);
      RunKeepsRequest(hash, Apply(hash, LockFirst, db, run[0]), run[1..], t);
    }
  }

  lemma BeginNames(hash: Household -> int, db: Db, h: Household, m: Member, c: Change, t: TxId, before: seq<Action>)
    requires ValidRun(hash, LockFirst, db, [Begin(t, h, m, c)] + before)
    ensures var at := Run(hash, LockFirst, db, [Begin(t, h, m, c)] + before);
            t in at.txs && at.txs[t].household == h && at.txs[t].member == m
  {
    var run := [Begin(t, h, m, c)] + before;
    assert run[0] == Begin(t, h, m, c) && run[1..] == before;
    RunKeepsRequest(hash, Apply(hash, LockFirst, db, run[0]), before, t);
  }

  /** A member already there when its writer begins always gets the true reason. */
  lemma KnownMemberToldRight(
    hash: Household -> int, db: Db, h: Household, m: Member, c: Change, t: TxId, before: seq<Action>, between: seq<Action>)
    requires Quiet(db) && m in db.rows && db.rows[m].household == h
    requires var run := [Begin(t, h, m, c)] + before;
             && ValidRun(hash, LockFirst, db, run)
             && Enabled(hash, LockFirst, Run(hash, LockFirst, db, run), Snapshot(t))
             && var started := Apply(hash, LockFirst, Run(hash, LockFirst, db, run), Snapshot(t));
                && ValidRun(hash, LockFirst, started, between)
                && Enabled(hash, LockFirst, Run(hash, LockFirst, started, between), Diagnose(t))
    ensures var at := Run(hash, LockFirst, db, [Begin(t, h, m, c)] + before);
            Told(hash, Run(hash, LockFirst, Apply(hash, LockFirst, at, Snapshot(t)), between), t) == TrueReason(at.rows, at.txs[t])
  {
    hide Apply, Enabled, Inv, Creates, IsLastOwner, Run, ValidRun;
    var run := [Begin(t, h, m, c)] + before;
    QuietInv(hash, db);
    RunKeepsHousehold(hash, db, run, h, m);
    BeginNames(hash, db, h, m, c, t, before);
    ReasonExactly(hash, db, run, t, between);
  }

  /** Whoever's reason is looked up has started its UPDATE at some point of the run. */
  lemma {:induction false} SnapshotTaken(hash: Household -> int, db: Db, run: seq<Action>, t: TxId) returns (i: nat)
    requires ValidRun(hash, LockFirst, db, run) && NotStarted(db, t)
    requires Enabled(hash, LockFirst, Run(hash, LockFirst, db, run), Diagnose(t))
    ensures i < |run| && run[i] == Snapshot(t)
    decreases |run|
  {
    if run[0] == Snapshot(t) {
      i := 0;
    } else {
      StaysNotStarted(hash, db, run[0], t);
      i := SnapshotTaken(hash, Apply(hash, LockFirst, db, run[0]), run[1..], t);
      i := i + 1;
    }
  }

  predicate NotStarted(db: Db, t: TxId) {
    t in db.txs ==> db.txs[t].phase.Begun? || db.txs[t].phase.Locked? || db.txs[t].phase.Done?
  }

  lemma StaysNotStarted(hash: Household -> int, db: Db, a: Action, t: TxId)
    requires Enabled(hash, LockFirst, db, a) && NotStarted(db, t) && a != Snapshot(t)
    ensures NotStarted(Apply(hash, LockFirst, db, a), t)
  {
    hide OtherActiveOwner, Passes, Matches, InHousehold;
  }

  /** A member created between the UPDATE and the look-up is reported as the last active owner. */
  lemma NewcomerMisreported(hash: Household -> int)
    ensures var child := Row("h", "Cy", Child, true);
            var run := [Begin(0, "h", "m", Active(false)), Acquire(0), Snapshot(0), Execute(0), Create("m", child), Diagnose(0)];
            var db := Db(map[], map[], map[]);
            && ValidRun(hash, LockFirst, db, run)
            && Run(hash, LockFirst, db, run).txs[0].phase == Done(LastActiveOwner)
            && !Run(hash, LockFirst, db, run).rows["m"].ActiveOwner()
  {
    var child := Row("h", "Cy", Child, true);
    var run := [Begin(0, "h", "m", Active(false)), Acquire(0), Snapshot(0), Execute(0), Create("m", child), Diagnose(0)];
    var none: Rows := map[];
    var held := map[hash("h") := 0];
    var tx := Tx("h", "m", Active(false), Begun);
    var states := [
      Db(none, map[], map[]),
      Db(none, map[], map[0 := tx]),
      Db(none, held, map[0 := tx.(phase := Locked)]),
      Db(none, held, map[0 := tx.(phase := Reading(none))]),
      Db(none, held, map[0 := tx.(phase := Refused(false))]),
      Db(map["m" := child], held, map[0 := tx.(phase := Refused(false))]),
      Db(map["m" := child], map[], map[0 := tx.(phase := Done(LastActiveOwner))])];
    forall i | 0 <= i < |run|
      ensures Enabled(hash, LockFirst, states[i], run[i]) && states[i + 1] == Apply(hash, LockFirst, states[i], run[i])
    {
      assert states[i + 1].txs == Apply(hash, LockFirst, states[i], run[i]).txs;
      assert states[i + 1].locks == Apply(hash, LockFirst, states[i], run[i]).locks;
    }
    Unroll(hash, LockFirst, run, states);
  }
}
