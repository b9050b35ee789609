/**
 What the limiter promises over whole runs. A run is any sequence of calls with non-decreasing
 times in which each reservation is cancelled at most once. The world keeps, beside the
 limiter's state, a log of every admitted attempt.
 */
module LimiterRuns {
  import opened Seqs
  import opened LimiterModel

  /** An admitted attempt. It is forgiven when its entry is Reset or displaced by another key. */
  datatype Attempt = Attempt(key: Key, time: Time, epoch: nat, engaged: bool, cancelled: bool, forgiven: bool) {
    function Ticket(): Reservation {
      Reservation(key, epoch, engaged)
    }
  }

  datatype World = World(st: State, log: seq<Attempt>, refunded: set<Key>)

  const START := World(EMPTY, [], {})

  datatype Op =
    | OpLocked(key: Key, now: Time)
    | OpReserve(key: Key, now: Time)
    | OpCancel(i: nat)            // the reservation of log[i]
    | OpCancelNothing             // the zero reservation
    | OpRefund(key: Key)
    | OpReset(key: Key)

  /** Times never decrease, and a reservation is cancelled at most once. */
  predicate Legal(w: World, op: Op) {
    match op
    case OpLocked(_, now) => w.st.latest <= now
    case OpReserve(_, now) => w.st.latest <= now
    case OpCancel(i) => i < |w.log| && !w.log[i].cancelled
    case _ => true
  }

  function Forgive(log: seq<Attempt>, epoch: nat): (r: seq<Attempt>)
    ensures |r| == |log|
    ensures forall i :: 0 <= i < |log| ==>
              r[i] == if log[i].epoch == epoch then log[i].(forgiven := true) else log[i]
  {
    seq(|log|, i requires 0 <= i < |log| => if log[i].epoch == epoch then log[i].(forgiven := true) else log[i])
  }

  /** A world whose key d was displaced to make room. */
  function AfterRoom(p: Policy, w: World): World {
    match Displaced(p, w.st)
    case Some(d) =>
      w.(st := MakeRoom(p, w.st), log := if d in w.st.entries then Forgive(w.log, w.st.entries[d].epoch) else w.log)
    case None => w
  }

  /** Reserve after the clock is observed, logging the attempt it admits. */
  function TryStep(p: Policy, w: World, k: Key, now: Time): World {
    var (st, outcome, r) := TryCount(p, w.st, k, now);
    if outcome.Permitted() then
      var log := if k in w.st.entries then w.log else AfterRoom(p, w).log;
      w.(st := st, log := log + [Attempt(k, now, r.epoch, r.engaged, false, false)])
    else w.(st := st)
  }

  function Step(p: Policy, w: World, op: Op): World
    requires Legal(w, op)
  {
    match op
    case OpLocked(k, now) => w.(st := Locked(p, w.st, k, now).0)
    case OpReserve(k, now) => TryStep(p, w.(st := Observe(p, w.st, now)), k, now)
    case OpCancel(i) =>
      w.(st := Cancel(p, w.st, w.log[i].Ticket()), log := w.log[i := w.log[i].(cancelled := true)])
    case OpCancelNothing => w.(st := Cancel(p, w.st, NO_RESERVATION))
    case OpRefund(k) => w.(st := Refund(w.st, k), refunded := w.refunded + {k})
    case OpReset(k) =>
      w.(st := Reset(w.st, k),
         log := if k in w.st.entries then Forgive(w.log, w.st.entries[k].epoch) else w.log)
  }

  predicate LegalRun(p: Policy, w: World, ops: seq<Op>)
    decreases |ops|
  {
    ops == [] || (Legal(w, ops[0]) && LegalRun(p, Step(p, w, ops[0]), ops[1..]))
  }

  function Run(p: Policy, w: World, ops: seq<Op>): World
    requires LegalRun(p, w, ops)
    decreases |ops|
  {
    if ops == [] then w else Run(p, Step(p, w, ops[0]), ops[1..])
  }

  // ----- The accounting invariant -----

  /** The attempts of one epoch that were not taken back. */
  ghost function Out(log: seq<Attempt>, epoch: nat): set<int> {
    set i | 0 <= i < |log| && log[i].epoch == epoch && !log[i].cancelled
  }

  /** Those of them that engaged a lockout. */
  ghost function Engaging(log: seq<Attempt>, epoch: nat): set<int> {
    set i | 0 <= i < |log| && log[i].epoch == epoch && !log[i].cancelled && log[i].engaged
  }

  /** Whether some tracked entry has this epoch. */
  ghost predicate Live(st: State, epoch: nat) {
    exists k :: k in st.entries && st.entries[k].epoch == epoch
  }

  /** An attempt that still weighs on its key's budget. */
  predicate Weighs(w: World, a: Attempt) {
    !a.cancelled && !a.forgiven && a.key !in w.refunded
  }

  /** Every logged attempt belongs to its epoch's one key. */
  ghost predicate Logged(st: State, log: seq<Attempt>) {
    && (forall i :: 0 <= i < |log| ==> 1 <= log[i].epoch <= st.nextEpoch && log[i].time <= st.latest)
    && (forall i, j :: 0 <= i < |log| && 0 <= j < |log| && log[i].epoch == log[j].epoch ==> log[i].key == log[j].key)
    && (forall i, k :: 0 <= i < |log| && k in st.entries && log[i].epoch == st.entries[k].epoch ==>
          log[i].key == k && !log[i].forgiven && log[i].time <= st.entries[k].lastActivity)
  }

  /** A tracked entry counts exactly its epoch's outstanding attempts and is locked by exactly one. */
  ghost predicate Exact(w: World, k: Key)
    requires k in w.st.entries
  {
    var e := w.st.entries[k];
    && (k !in w.refunded ==> e.attempts == |Out(w.log, e.epoch)| && e.attempts >= 1)
    && |Engaging(w.log, e.epoch)| == if e.locked then 1 else 0
  }

  /** Attempts of different epochs of one key lie a full window apart. */
  ghost predicate Apart(p: Policy, w: World) {
    && (forall i :: 0 <= i < |w.log| && Weighs(w, w.log[i]) && !Live(w.st, w.log[i].epoch) ==>
          w.log[i].time + p.window <= w.st.latest)
    && (forall i, j :: 0 <= i < j < |w.log| && Rivals(w, i, j) ==> w.log[i].time + p.window <= w.log[j].time)
  }

  /** Two weighing attempts of one key in different epochs. */
  ghost predicate Rivals(w: World, i: nat, j: nat)
    requires i < |w.log| && j < |w.log|
  {
    && Weighs(w, w.log[i])
    && Weighs(w, w.log[j])
    && w.log[i].key == w.log[j].key
    && w.log[i].epoch != w.log[j].epoch
  }

  ghost predicate Budgeted(p: Policy, w: World) {
    forall i :: 0 <= i < |w.log| && w.log[i].key !in w.refunded ==> |Out(w.log, w.log[i].epoch)| <= p.threshold
  }

  ghost predicate Accounted(p: Policy, w: World) {
    && Inv(p, w.st)
    && Logged(w.st, w.log)
    && (forall k :: k in w.st.entries ==> Exact(w, k))
    && Apart(p, w)
    && Budgeted(p, w)
  }

  lemma StartAccounted(p: Policy)
    requires p.Valid()
    ensures Accounted(p, START)
  {
  }

  // ----- Entries that age out or are dropped -----

  /** v is w with some entries gone and the attempts of some dead epochs forgiven. */
  ghost predicate Shrunk(p: Policy, w: World, v: World) {
    && Inv(p, v.st)
    && v.refunded == w.refunded && v.st.nextEpoch == w.st.nextEpoch && v.st.latest >= w.st.latest
    && (forall k :: k in v.st.entries ==> k in w.st.entries && v.st.entries[k] == w.st.entries[k])
    && |v.log| == |w.log|
    && (forall i :: 0 <= i < |w.log| ==>
          v.log[i] == w.log[i] || (v.log[i] == w.log[i].(forgiven := true) && !Live(v.st, w.log[i].epoch)))
    && (forall i :: 0 <= i < |w.log| && Weighs(v, v.log[i]) && Live(w.st, v.log[i].epoch) && !Live(v.st, v.log[i].epoch)
          ==> v.log[i].time + p.window <= v.st.latest)
  }

  lemma ShrunkCounts(p: Policy, w: World, v: World, epoch: nat)
    requires Shrunk(p, w, v)
    ensures Out(v.log, epoch) == Out(w.log, epoch) && Engaging(v.log, epoch) == Engaging(w.log, epoch)
  {
    hide Inv, Live;
  }

  lemma ShrunkLogged(p: Policy, w: World, v: World)
    requires Logged(w.st, w.log) && Shrunk(p, w, v)
    ensures Logged(v.st, v.log)
  {
    hide Inv;
    forall i, k | 0 <= i < |v.log| && k in v.st.entries && v.log[i].epoch == v.st.entries[k].epoch
      ensures v.log[i].key == k && !v.log[i].forgiven && v.log[i].time <= v.st.entries[k].lastActivity
    {
      assert k in w.st.entries && Live(v.st, w.log[i].epoch);
    }
  }

  lemma ShrunkApart(p: Policy, w: World, v: World)
    requires Apart(p, w) && Shrunk(p, w, v)
    ensures Apart(p, v)
  {
    hide Inv, Live;
    forall i | 0 <= i < |v.log| && Weighs(v, v.log[i]) && !Live(v.st, v.log[i].epoch)
      ensures v.log[i].time + p.window <= v.st.latest
    {
      assert Weighs(w, w.log[i]);
    }
    forall i, j | 0 <= i < j < |v.log| && Rivals(v, i, j) ensures v.log[i].time + p.window <= v.log[j].time {
      assert Rivals(w, i, j);
    }
  }

  lemma ShrunkAccounted(p: Policy, w: World, v: World)
    requires Accounted(p, w) && Shrunk(p, w, v)
    ensures Accounted(p, v)
  {
    hide Inv, Live, Logged, Apart, Out, Engaging;
    ShrunkLogged(p, w, v);
    ShrunkApart(p, w, v);
    forall k | k in v.st.entries ensures Exact(v, k) {
      assert Exact(w, k);
      ShrunkCounts(p, w, v, v.st.entries[k].epoch);
    }
    forall i | 0 <= i < |v.log| && v.log[i].key !in v.refunded ensures |Out(v.log, v.log[i].epoch)| <= p.threshold {
      ShrunkCounts(p, w, v, v.log[i].epoch);
    }
  }

  lemma ObserveShrinks(p: Policy, w: World, now: Time)
    requires Accounted(p, w) && w.st.latest <= now
    ensures Shrunk(p, w, w.(st := Observe(p, w.st, now)))
  {
    hide Recency, Tracked;
    ObserveKeeps(p, w.st, now);
    var v := w.(st := Observe(p, w.st, now));
    forall i | 0 <= i < |w.log| && Live(w.st, w.log[i].epoch) && !Live(v.st, w.log[i].epoch)
      ensures w.log[i].time + p.window <= now
    {
      var k :| k in w.st.entries && w.st.entries[k].epoch == w.log[i].epoch;
      assert k !in v.st.entries;
      assert Expired(p, w.st.entries[k], now);
      assert w.log[i].time <= w.st.entries[k].lastActivity;
    }
  }

  lemma LiveRemove(p: Policy, s: State, k: Key, epoch: nat)
    requires Inv(p, s) && k in s.entries
    ensures Live(Remove(s, k), epoch) <==> Live(s, epoch) && epoch != s.entries[k].epoch
  {
    hide Recency, Without;
    var t := Remove(s, k);
    if Live(s, epoch) && epoch != s.entries[k].epoch {
      var l :| l in s.entries && s.entries[l].epoch == epoch;
      assert l in t.entries && t.entries[l].epoch == epoch;
    }
    if Live(t, epoch) {
      var l :| l in t.entries && t.entries[l].epoch == epoch;
      assert l in s.entries && s.entries[l].epoch == epoch && l != k;
    }
  }

  /** Dropping k while forgiving its epoch. */
  lemma DropShrinks(p: Policy, w: World, k: Key)
    requires Accounted(p, w) && k in w.st.entries
    ensures Shrunk(p, w, w.(st := Remove(w.st, k), log := Forgive(w.log, w.st.entries[k].epoch)))
  {
    hide Inv, Live, Without, Logged, Exact, Apart, Budgeted;
    RemoveKeeps(p, w.st, k);
    forall epoch ensures Live(Remove(w.st, k), epoch) <==> Live(w.st, epoch) && epoch != w.st.entries[k].epoch {
      LiveRemove(p, w.st, k, epoch);
    }
  }

  // ----- One counted attempt -----

  lemma AddOne(s: set<int>, n: int)
    requires n !in s
    ensures |s + {n}| == |s| + 1
  {
  }

  lemma CountsAppend(log: seq<Attempt>, a: Attempt, epoch: nat)
    requires !a.cancelled
    ensures |Out(log + [a], epoch)| == |Out(log, epoch)| + (if a.epoch == epoch then 1 else 0)
    ensures |Engaging(log + [a], epoch)| == |Engaging(log, epoch)| + (if a.epoch == epoch && a.engaged then 1 else 0)
  {
    if a.epoch != epoch {
      assert Out(log + [a], epoch) == Out(log, epoch);
    } else {
      assert Out(log + [a], epoch) == Out(log, epoch) + {|log|};
      AddOne(Out(log, epoch), |log|);
    }
    EngagingAppend(log, a, epoch);
  }

  lemma EngagingAppend(log: seq<Attempt>, a: Attempt, epoch: nat)
    requires !a.cancelled
    ensures |Engaging(log + [a], epoch)| == |Engaging(log, epoch)| + (if a.epoch == epoch && a.engaged then 1 else 0)
  {
    if a.epoch != epoch || !a.engaged {
      assert Engaging(log + [a], epoch) == Engaging(log, epoch);
    } else {
      assert Engaging(log + [a], epoch) == Engaging(log, epoch) + {|log|};
      AddOne(Engaging(log, epoch), |log|);
    }
  }

  /** v is w with one more attempt of k, just made, counted on its record. */
  ghost predicate Counts(p: Policy, w: World, v: World, k: Key) {
    && Inv(p, v.st)
    && v.refunded == w.refunded && v.st.latest == w.st.latest
    && k in v.st.entries && v.st.entries == w.st.entries[k := v.st.entries[k]]
    && var e := v.st.entries[k];
    && v.log == w.log + [Attempt(k, w.st.latest, e.epoch, e.locked, false, false)]
    && e.lastActivity == w.st.latest
    && if k in w.st.entries then
         && v.st.nextEpoch == w.st.nextEpoch && !w.st.entries[k].locked
         && e.epoch == w.st.entries[k].epoch && e.attempts == w.st.entries[k].attempts + 1
       else v.st.nextEpoch == w.st.nextEpoch + 1 && e.epoch == v.st.nextEpoch && e.attempts == 1
  }

  lemma CountsLogged(p: Policy, w: World, v: World, k: Key)
    requires Inv(p, w.st) && Logged(w.st, w.log) && Counts(p, w, v, k)
    ensures Logged(v.st, v.log)
  {
    hide Recency;
    forall i, l | 0 <= i < |v.log| && l in v.st.entries && v.log[i].epoch == v.st.entries[l].epoch
      ensures v.log[i].key == l && !v.log[i].forgiven && v.log[i].time <= v.st.entries[l].lastActivity
    {
      if i == |w.log| {
        assert v.st.entries[l].epoch == v.st.entries[k].epoch;
      } else if l == k && k in w.st.entries {
        assert w.log[i].epoch == w.st.entries[k].epoch;
      }
    }
    forall i, j | 0 <= i < |v.log| && 0 <= j < |v.log| && v.log[i].epoch == v.log[j].epoch
      ensures v.log[i].key == v.log[j].key
    {
      if i < |w.log| && j == |w.log| {
        assert k in w.st.entries && w.log[i].epoch == w.st.entries[k].epoch;
      } else if j < |w.log| && i == |w.log| {
        assert k in w.st.entries && w.log[j].epoch == w.st.entries[k].epoch;
      }
    }
  }

  /** No attempt carries an epoch that is yet to come. */
  lemma FreshEpoch(st: State, log: seq<Attempt>, epoch: nat)
    requires Logged(st, log) && epoch > st.nextEpoch
    ensures Out(log, epoch) == {} && Engaging(log, epoch) == {}
  {
  }

  lemma CountsExact(p: Policy, w: World, v: World, k: Key, l: Key)
    requires Inv(p, w.st) && Logged(w.st, w.log) && Counts(p, w, v, k)
    requires forall m :: m in w.st.entries ==> Exact(w, m)
    requires l in v.st.entries
    ensures Exact(v, l)
  {
    hide Recency, Out, Engaging;
    var a := v.log[|w.log|];
    CountsAppend(w.log, a, v.st.entries[l].epoch);
    if l == k {
      if k in w.st.entries {
        assert Exact(w, k);
      } else {
        FreshEpoch(w.st, w.log, a.epoch);
      }
    } else {
      assert Exact(w, l);
      assert v.st.entries[l].epoch != v.st.entries[k].epoch;
    }
  }

  lemma CountsApart(p: Policy, w: World, v: World, k: Key)
    requires Logged(w.st, w.log) && Apart(p, w) && Counts(p, w, v, k)
    ensures Apart(p, v)
  {
    hide Inv;
    var n := |w.log|;
    forall i | 0 <= i < n && Live(w.st, w.log[i].epoch) ensures Live(v.st, w.log[i].epoch) {
      var l :| l in w.st.entries && w.st.entries[l].epoch == w.log[i].epoch;
      assert l in v.st.entries && v.st.entries[l].epoch == w.log[i].epoch;
    }
    assert Live(v.st, v.log[n].epoch);
    forall i | 0 <= i < |v.log| && Weighs(v, v.log[i]) && !Live(v.st, v.log[i].epoch)
      ensures v.log[i].time + p.window <= v.st.latest
    {
      assert i < n && v.log[i] == w.log[i] && Weighs(w, w.log[i]);
    }
    forall i, j | 0 <= i < j < |v.log| && Rivals(v, i, j) ensures v.log[i].time + p.window <= v.log[j].time {
      assert v.log[i] == w.log[i] && Weighs(w, w.log[i]);
      if j < n {
        assert Rivals(w, i, j);
      }
    }
  }

  lemma CountsAccounted(p: Policy, w: World, v: World, k: Key)
    requires Accounted(p, w) && Counts(p, w, v, k)
    ensures Accounted(p, v)
  {
    hide Recency, Out, Engaging;
    CountsLogged(p, w, v, k);
    CountsApart(p, w, v, k);
    forall l | l in v.st.entries ensures Exact(v, l) {
      CountsExact(p, w, v, k, l);
    }
    forall i | 0 <= i < |v.log| && v.log[i].key !in v.refunded ensures |Out(v.log, v.log[i].epoch)| <= p.threshold {
      var a := v.log[|w.log|];
      CountsAppend(w.log, a, v.log[i].epoch);
      if v.log[i].epoch == a.epoch {
        assert v.log[i].key == a.key == k;
        assert Exact(v, k) && RecordOk(p, v.st, v.st.entries[k]);
      } else {
        assert v.log[i] == w.log[i];
      }
    }
  }

  // ----- Reserve -----

  lemma RoomAccounted(p: Policy, w: World)
    requires Accounted(p, w) && !Saturated(p, w.st)
    ensures Accounted(p, AfterRoom(p, w)) && AfterRoom(p, w).refunded == w.refunded
    ensures AfterRoom(p, w).st == MakeRoom(p, w.st) && |MakeRoom(p, w.st).entries| < p.maxKeys
    ensures AfterRoom(p, w).st.latest == w.st.latest
  {
    hide Exact, Apart, Budgeted, Logged, Remove, Forgive;
    MakeRoomKeeps(p, w.st);
    if Displaced(p, w.st).Some? {
      var d := Displaced(p, w.st).value;
      assert d in w.st.counting;
      DropShrinks(p, w, d);
      ShrunkAccounted(p, w, AfterRoom(p, w));
    }
  }

  lemma AdmitCounts(p: Policy, w: World, k: Key)
    requires Accounted(p, w) && k !in w.st.entries && |w.st.entries| < p.maxKeys
    ensures var (st, outcome, r) := Count(p, Admit(w.st, k), k, w.st.latest);
            && outcome.Permitted()
            && Counts(p, w, w.(st := st, log := w.log + [Attempt(k, w.st.latest, r.epoch, r.engaged, false, false)]), k)
  {
    hide Without;
    AdmitThenCountKeeps(p, w.st, k);
    AdmitThenCount(p, w.st, k, w.st.latest);
  }

  lemma TrackedCounts(p: Policy, w: World, k: Key)
    requires Accounted(p, w) && k in w.st.entries && !w.st.entries[k].locked
    ensures var (st, outcome, r) := Count(p, w.st, k, w.st.latest);
            && outcome.Permitted()
            && Counts(p, w, w.(st := st, log := w.log + [Attempt(k, w.st.latest, r.epoch, r.engaged, false, false)]), k)
  {
    hide Without;
    CountKeeps(p, w.st, k);
    CountIsTouch(p, w.st, k, w.st.latest);
  }

  lemma TryAccounted(p: Policy, w: World, k: Key)
    requires Accounted(p, w)
    ensures Accounted(p, TryStep(p, w, k, w.st.latest))
  {
    hide Exact, Apart, Budgeted, Logged, Recency, Counts, AfterRoom, Count, Admit, MakeRoom;
    if k !in w.st.entries {
      if !Saturated(p, w.st) {
        var u := AfterRoom(p, w);
        RoomAccounted(p, w);
        RoomTracks(p, w.st, k);
        AdmitCounts(p, u, k);
        CountsAccounted(p, u, TryStep(p, w, k, w.st.latest), k);
      }
    } else if !w.st.entries[k].locked {
      TrackedCounts(p, w, k);
      CountsAccounted(p, w, TryStep(p, w, k, w.st.latest), k);
    }
  }

  lemma RoomTracks(p: Policy, s: State, k: Key)
    requires k !in s.entries
    ensures k !in MakeRoom(p, s).entries
  {
  }

  // ----- Cancel -----

  function Struck(log: seq<Attempt>, i: nat): (r: seq<Attempt>)
    requires i < |log|
  {
    log[i := log[i].(cancelled := true)]
  }

  lemma CountsStruck(log: seq<Attempt>, i: nat, epoch: nat)
    requires i < |log| && !log[i].cancelled
    ensures Out(Struck(log, i), epoch) == Out(log, epoch) - {i}
    ensures Engaging(Struck(log, i), epoch) == Engaging(log, epoch) - {i}
    ensures i in Out(log, epoch) <==> log[i].epoch == epoch
    ensures i in Engaging(log, epoch) <==> log[i].epoch == epoch && log[i].engaged
    ensures Engaging(log, epoch) <= Out(log, epoch)
  {
  }

  /** v is w with attempt i taken back from its own, still tracked entry. */
  ghost predicate Uncounts(p: Policy, w: World, v: World, i: nat) {
    && i < |w.log| && !w.log[i].cancelled
    && Inv(p, v.st)
    && v.refunded == w.refunded && v.st.latest == w.st.latest && v.st.nextEpoch == w.st.nextEpoch
    && v.log == Struck(w.log, i)
    && var k := w.log[i].key;
    && k in w.st.entries && w.st.entries[k].epoch == w.log[i].epoch
    && (forall l :: l != k ==> (l in v.st.entries <==> l in w.st.entries))
    && (forall l :: l != k && l in v.st.entries ==> v.st.entries[l] == w.st.entries[l])
    && var e := w.st.entries[k];
    && if k in v.st.entries then
         var f := v.st.entries[k];
         && f.epoch == e.epoch && f.attempts == e.attempts - 1 && f.lastActivity >= e.lastActivity
         && f.locked == (e.locked && !w.log[i].engaged) && (f.locked ==> f.lockedUntil == e.lockedUntil)
         && (e.attempts == 1 ==> e.locked && !w.log[i].engaged)
       else e.attempts == 1 && (!e.locked || w.log[i].engaged)
  }

  lemma UncountsLogged(p: Policy, w: World, v: World, i: nat)
    requires Logged(w.st, w.log) && Uncounts(p, w, v, i)
    ensures Logged(v.st, v.log)
  {
    hide Inv;
    forall j, l | 0 <= j < |v.log| && l in v.st.entries && v.log[j].epoch == v.st.entries[l].epoch
      ensures v.log[j].key == l && !v.log[j].forgiven && v.log[j].time <= v.st.entries[l].lastActivity
    {
      assert l in w.st.entries && w.log[j].epoch == w.st.entries[l].epoch;
    }
  }

  lemma UncountsExact(p: Policy, w: World, v: World, i: nat, l: Key)
    requires Inv(p, w.st) && Uncounts(p, w, v, i) && Exact(w, w.log[i].key)
    requires l in v.st.entries && Exact(w, l)
    ensures Exact(v, l)
  {
    hide Recency, RecordOk, Out, Engaging, Struck;
    var epoch := w.st.entries[l].epoch;
    CountsStruck(w.log, i, epoch);
    if l == w.log[i].key {
      SubsetSize(Engaging(w.log, epoch), Out(w.log, epoch));
      if w.log[i].engaged {
        assert |Engaging(w.log, epoch) - {i}| == |Engaging(w.log, epoch)| - 1;
      } else {
        assert Engaging(w.log, epoch) - {i} == Engaging(w.log, epoch);
      }
      if l !in w.refunded && w.st.entries[l].attempts == 1 {
        LoneMember(Out(w.log, epoch), Engaging(w.log, epoch), i);
      }
    } else {
      assert Out(w.log, epoch) - {i} == Out(w.log, epoch);
      assert Engaging(w.log, epoch) - {i} == Engaging(w.log, epoch);
    }
  }

  /** The only element of a set is the only one its subsets can hold. */
  lemma LoneMember(s: set<int>, t: set<int>, i: int)
    requires i in s && |s| == 1 && t <= s
    ensures s == {i} && |t| == if i in t then 1 else 0
  {
    assert |s - {i}| == 0;
    if i in t {
      assert t == {i};
    } else {
      assert t == {};
    }
  }

  /** Only the cancelled attempt's own epoch can die of it, and then no other attempt was left. */
  lemma DeadHere(p: Policy, w: World, v: World, i: nat, epoch: nat)
    requires Uncounts(p, w, v, i) && Live(w.st, epoch) && !Live(v.st, epoch)
    ensures epoch == w.log[i].epoch && w.log[i].key !in v.st.entries
  {
    hide Inv;
    var l :| l in w.st.entries && w.st.entries[l].epoch == epoch;
    if l in v.st.entries {
      assert v.st.entries[l].epoch != epoch;
    }
  }

  lemma UncountsApart(p: Policy, w: World, v: World, i: nat)
    requires Apart(p, w) && Logged(w.st, w.log) && Uncounts(p, w, v, i) && Exact(w, w.log[i].key)
    ensures Apart(p, v)
  {
    hide Inv, Logged, Live;
    var epoch := w.log[i].epoch;
    forall j | 0 <= j < |v.log| && Weighs(v, v.log[j]) && !Live(v.st, v.log[j].epoch)
      ensures v.log[j].time + p.window <= v.st.latest
    {
      assert Weighs(w, w.log[j]);
      if Live(w.st, w.log[j].epoch) {
        DeadHere(p, w, v, i, w.log[j].epoch);
        OwnKey(w, i, j);
        CountsStruck(w.log, i, epoch);
        LoneMember(Out(w.log, epoch), Engaging(w.log, epoch), i);
      }
    }
    forall a, b | 0 <= a < b < |v.log| && Rivals(v, a, b) ensures v.log[a].time + p.window <= v.log[b].time {
      assert Rivals(w, a, b);
    }
  }

  lemma OwnKey(w: World, i: nat, j: nat)
    requires Logged(w.st, w.log) && i < |w.log| && j < |w.log| && w.log[i].epoch == w.log[j].epoch
    ensures w.log[i].key == w.log[j].key
    ensures !w.log[j].cancelled ==> j in Out(w.log, w.log[i].epoch)
  {
  }

  lemma StruckBudgeted(p: Policy, w: World, v: World, i: nat)
    requires Budgeted(p, w) && v.refunded == w.refunded && i < |w.log| && !w.log[i].cancelled && v.log == Struck(w.log, i)
    ensures Budgeted(p, v)
  {
    forall j | 0 <= j < |v.log| && v.log[j].key !in v.refunded ensures |Out(v.log, v.log[j].epoch)| <= p.threshold {
      CountsStruck(w.log, i, v.log[j].epoch);
      SubsetSize(Out(v.log, v.log[j].epoch), Out(w.log, v.log[j].epoch));
      assert w.log[j].key !in w.refunded;
    }
  }

  lemma UncountsAccounted(p: Policy, w: World, v: World, i: nat)
    requires Accounted(p, w) && Uncounts(p, w, v, i)
    ensures Accounted(p, v)
  {
    hide Inv, Logged, Apart, Budgeted, Exact, Struck;
    UncountsLogged(p, w, v, i);
    UncountsApart(p, w, v, i);
    StruckBudgeted(p, w, v, i);
    forall l | l in v.st.entries ensures Exact(v, l) {
      UncountsExact(p, w, v, i, l);
    }
  }

  /** Striking an attempt whose entry is gone. */
  lemma StaleAccounted(p: Policy, w: World, i: nat)
    requires Accounted(p, w) && i < |w.log| && !w.log[i].cancelled && !Current(w.st, w.log[i].Ticket())
    ensures Accounted(p, w.(log := Struck(w.log, i)))
  {
    hide Inv, Budgeted;
    var v := w.(log := Struck(w.log, i));
    StruckBudgeted(p, w, v, i);
    forall k | k in v.st.entries ensures Exact(v, k) {
      assert Exact(w, k);
      CountsStruck(w.log, i, v.st.entries[k].epoch);
      assert Out(w.log, v.st.entries[k].epoch) - {i} == Out(w.log, v.st.entries[k].epoch);
      assert Engaging(w.log, v.st.entries[k].epoch) - {i} == Engaging(w.log, v.st.entries[k].epoch);
    }
    forall a, b | 0 <= a < b < |v.log| && Rivals(v, a, b) ensures v.log[a].time + p.window <= v.log[b].time {
      assert Rivals(w, a, b);
    }
    forall j | 0 <= j < |v.log| && Weighs(v, v.log[j]) && !Live(v.st, v.log[j].epoch)
      ensures v.log[j].time + p.window <= v.st.latest
    {
      assert Weighs(w, w.log[j]);
    }
  }

  lemma TakeBackUncounts(p: Policy, w: World, i: nat)
    requires Accounted(p, w) && i < |w.log| && !w.log[i].cancelled && Current(w.st, w.log[i].Ticket())
    ensures Uncounts(p, w, w.(st := TakeBack(w.st, w.log[i].Ticket()), log := Struck(w.log, i)), i)
  {
    hide Recency, Without, Exact, Apart, Budgeted, Logged;
    TakeBackKeeps(p, w.st, w.log[i].Ticket());
  }

  lemma CancelAccounted(p: Policy, w: World, i: nat)
    requires Accounted(p, w) && Legal(w, OpCancel(i))
    ensures Accounted(p, Step(p, w, OpCancel(i)))
  {
    hide Inv, Logged, Apart, Budgeted, Exact, TakeBack, Uncounts;
    ExpireIdle(p, w.st);
    if Current(w.st, w.log[i].Ticket()) {
      TakeBackUncounts(p, w, i);
      UncountsAccounted(p, w, Step(p, w, OpCancel(i)), i);
    } else {
      StaleAccounted(p, w, i);
    }
  }

  // ----- Every call and every run -----

  lemma RefundAccounted(p: Policy, w: World, k: Key)
    requires Accounted(p, w)
    ensures Accounted(p, Step(p, w, OpRefund(k)))
  {
    hide Logged, Exact, Apart, Budgeted, Recency, Without;
    var v := Step(p, w, OpRefund(k));
    RefundKeeps(p, w.st, k);
    RefundShape(w.st, k);
    RefundedAccounted(p, w, v, k);
  }

  lemma RefundShape(s: State, k: Key)
    ensures forall l :: l != k ==> (l in Refund(s, k).entries <==> l in s.entries)
    ensures forall l :: l != k && l in s.entries ==> Refund(s, k).entries[l] == s.entries[l]
    ensures k in Refund(s, k).entries ==>
              k in s.entries && Refund(s, k).entries[k] == s.entries[k].(attempts := Refund(s, k).entries[k].attempts)
    ensures Refund(s, k).nextEpoch == s.nextEpoch
  {
    hide Without;
  }

  /** A refund changes only its own key, whose attempts stop weighing. */
  lemma RefundedAccounted(p: Policy, w: World, v: World, k: Key)
    requires Accounted(p, w) && Inv(p, v.st)
    requires v.log == w.log && v.refunded == w.refunded + {k}
    requires v.st.latest == w.st.latest && v.st.nextEpoch == w.st.nextEpoch
    requires forall l :: l != k ==> (l in v.st.entries <==> l in w.st.entries)
    requires forall l :: l != k && l in w.st.entries ==> v.st.entries[l] == w.st.entries[l]
    requires k in v.st.entries ==>
               k in w.st.entries && v.st.entries[k] == w.st.entries[k].(attempts := v.st.entries[k].attempts)
    ensures Accounted(p, v)
  {
    hide Inv, Out, Engaging;
    forall l | l in v.st.entries ensures Exact(v, l) {
      assert Exact(w, l);
    }
    forall i, l | 0 <= i < |v.log| && l in v.st.entries && v.log[i].epoch == v.st.entries[l].epoch
      ensures v.log[i].key == l && !v.log[i].forgiven && v.log[i].time <= v.st.entries[l].lastActivity
    {
      assert w.log[i].epoch == w.st.entries[l].epoch;
    }
    forall j | 0 <= j < |v.log| && Weighs(v, v.log[j]) && !Live(v.st, v.log[j].epoch)
      ensures v.log[j].time + p.window <= v.st.latest
    {
      assert Weighs(w, w.log[j]);
    }
    forall a, b | 0 <= a < b < |v.log| && Rivals(v, a, b) ensures v.log[a].time + p.window <= v.log[b].time {
      assert Rivals(w, a, b);
    }
  }

  lemma ResetAccounted(p: Policy, w: World, k: Key)
    requires Accounted(p, w)
    ensures Accounted(p, Step(p, w, OpReset(k)))
  {
    hide Inv, Logged, Apart, Budgeted, Exact, Forgive, Remove, Shrunk;
    if k in w.st.entries {
      DropShrinks(p, w, k);
      ShrunkAccounted(p, w, Step(p, w, OpReset(k)));
    }
  }

  lemma ZeroCancel(p: Policy, s: State)
    requires Inv(p, s)
    ensures Cancel(p, s, NO_RESERVATION) == s
  {
    ExpireIdle(p, s);
  }

  /** Every legal call keeps the accounts. */
  lemma StepAccounted(p: Policy, w: World, op: Op)
    requires Accounted(p, w) && Legal(w, op)
    ensures Accounted(p, Step(p, w, op))
  {
    hide Inv, Logged, Apart, Budgeted, Exact, Shrunk, Observe, TryStep, Cancel, Refund, Reset, Forgive;
    match op
    case OpLocked(k, now) =>
      ObserveShrinks(p, w, now);
      ShrunkAccounted(p, w, w.(st := Observe(p, w.st, now)));
    case OpReserve(k, now) =>
      ObserveShrinks(p, w, now);
      var u := w.(st := Observe(p, w.st, now));
      ShrunkAccounted(p, w, u);
      ObservedAt(p, w.st, now);
      TryAccounted(p, u, k);
    case OpCancel(i) => CancelAccounted(p, w, i);
    case OpCancelNothing => ZeroCancel(p, w.st);
    case OpRefund(k) => RefundAccounted(p, w, k);
    case OpReset(k) => ResetAccounted(p, w, k);
  }

  lemma ObservedAt(p: Policy, s: State, now: Time)
    requires s.latest <= now
    ensures Observe(p, s, now).latest == now
  {
  }

  lemma {:induction false} RunAccounted(p: Policy, w: World, ops: seq<Op>)
    requires Accounted(p, w) && LegalRun(p, w, ops)
    ensures Accounted(p, Run(p, w, ops))
    decreases |ops|
  {
    hide Accounted, Step;
    if ops != [] {
      StepAccounted(p, w, ops[0]);
      RunAccounted(p, Step(p, w, ops[0]), ops[1..]);
    }
  }

  // ----- The budget -----

  /** The weighing attempts of k that fall in the window-long span that starts at `from`. */
  ghost function InSpan(p: Policy, w: World, k: Key, from: Time): set<int> {
    set i | 0 <= i < |w.log| && w.log[i].key == k && Weighs(w, w.log[i]) && from <= w.log[i].time < from + p.window
  }

  lemma SpanIsOneEpoch(p: Policy, w: World, k: Key, from: Time, i: int)
    requires Apart(p, w) && i in InSpan(p, w, k, from)
    ensures InSpan(p, w, k, from) <= Out(w.log, w.log[i].epoch)
  {
    forall j | j in InSpan(p, w, k, from) ensures w.log[j].epoch == w.log[i].epoch {
      assert i < j ==> !Rivals(w, i, j);
      assert j < i ==> !Rivals(w, j, i);
    }
  }

  /**
   In any run, within any span one window long, at most `threshold` attempts of a key that was
   never refunded are admitted without being cancelled, wiped by a Reset or displaced.
   */
  lemma Budget(p: Policy, ops: seq<Op>, k: Key, from: Time)
    requires p.Valid() && LegalRun(p, START, ops) && k !in Run(p, START, ops).refunded
    ensures |InSpan(p, Run(p, START, ops), k, from)| <= p.threshold
  {
    StartAccounted(p);
    RunAccounted(p, START, ops);
    var w := Run(p, START, ops);
    var s := InSpan(p, w, k, from);
    if s != {} {
      var i :| i in s;
      SpanIsOneEpoch(p, w, k, from, i);
      SubsetSize(s, Out(w.log, w.log[i].epoch));
    }
  }

  // ----- Structure of every reachable state -----

  lemma {:induction false} DisjointSizes(a: seq<Key>, b: seq<Key>, m: set<Key>)
    requires NoDups(a) && NoDups(b)
    requires forall k :: k in m <==> k in a || k in b
    requires forall k :: !(k in a && k in b)
    ensures |a| + |b| == |m|
  {
    if a != [] {
      assert forall k :: k in a <==> k == a[0] || k in a[1..];
      DisjointSizes(a[1..], b, m - {a[0]});
    } else if b != [] {
      assert forall k :: k in b <==> k == b[0] || k in b[1..];
      DisjointSizes(a, b[1..], m - {b[0]});
    } else {
      assert m == {};
    }
  }

  /**
   In every reachable state the lists partition the table by `locked`, each runs from newest to
   oldest (lockouts by when they end), the table is within its cap, and nothing is overdue.
   */
  lemma Structure(p: Policy, ops: seq<Op>)
    requires p.Valid() && LegalRun(p, START, ops)
    ensures var s := Run(p, START, ops).st;
            && |s.counting| + |s.locks| == |s.entries| <= p.maxKeys
            && (forall k :: k in s.counting <==> k in s.entries && !s.entries[k].locked)
            && (forall k :: k in s.locks <==> k in s.entries && s.entries[k].locked)
            && (forall i, j :: 0 <= i < j < |s.counting| ==>
                  s.entries[s.counting[i]].lastActivity >= s.entries[s.counting[j]].lastActivity)
            && (forall i, j :: 0 <= i < j < |s.locks| ==>
                  s.entries[s.locks[i]].lockedUntil >= s.entries[s.locks[j]].lockedUntil)
            && Expire(p, s, s.latest) == s
  {
    StartAccounted(p);
    RunAccounted(p, START, ops);
    var s := Run(p, START, ops).st;
    ExpireIdle(p, s);
    DisjointSizes(s.counting, s.locks, s.entries.Keys);
    forall i, j | 0 <= i < j < |s.locks|
      ensures s.entries[s.locks[i]].lockedUntil >= s.entries[s.locks[j]].lockedUntil
    {
      assert s.locks[i] in s.locks && s.locks[j] in s.locks;
    }
  }

  /** Only a full table displaces a key, and then the unlocked one that was active longest ago. */
  lemma DisplacedIsOldest(p: Policy, s: State)
    requires Inv(p, s) && Displaced(p, s).Some?
    ensures var d := Displaced(p, s).value;
            && |s.entries| == p.maxKeys && d in s.entries && !s.entries[d].locked
            && forall k :: k in s.entries && !s.entries[k].locked ==>
                 s.entries[k].lastActivity >= s.entries[d].lastActivity
  {
    var n := |s.counting| - 1;
    assert s.counting[n] in s.counting;
    forall k | k in s.entries && !s.entries[k].locked
      ensures s.entries[k].lastActivity >= s.entries[s.counting[n]].lastActivity
    {
      var i :| 0 <= i < |s.counting| && s.counting[i] == k;
      assert i < n || i == n;
    }
  }

  /**
   Displacing a key takes a flood, and so does filling the table with lockouts: in any run, when a
   new key displaces one or is denied a slot, `maxKeys` distinct keys are tracked, every one of them
   active within the last window, and each one never refunded has a logged attempt that still stands.
   */
  lemma DisplacementTakesAFlood(p: Policy, ops: seq<Op>)
    requires p.Valid() && LegalRun(p, START, ops)
    requires var s := Run(p, START, ops).st; Displaced(p, s).Some? || Saturated(p, s)
    ensures var w := Run(p, START, ops);
            && |w.st.entries| == p.maxKeys
            && (forall k :: k in w.st.entries ==> w.st.latest < w.st.entries[k].lastActivity + p.window)
            && (forall k :: k in w.st.entries && k !in w.refunded ==>
                  |Out(w.log, w.st.entries[k].epoch)| == w.st.entries[k].attempts && w.st.entries[k].attempts >= 1)
  {
    hide Logged, Apart, Budgeted, Recency;
    StartAccounted(p);
    RunAccounted(p, START, ops);
    var w := Run(p, START, ops);
    forall k | k in w.st.entries ensures w.st.latest < w.st.entries[k].lastActivity + p.window {
      assert RecordOk(p, w.st, w.st.entries[k]);
    }
    assert forall k :: k in w.st.entries ==> Exact(w, k);
  }

  /** Locked answers exactly whether Reserve would deny. */
  lemma LockedPredictsReserve(p: Policy, s: State, k: Key, now: Time)
    ensures Locked(p, s, k, now).1 <==> Reserve(p, s, k, now).1 == Denied
    ensures Locked(p, s, k, now).1 ==> Reserve(p, s, k, now).0 == Locked(p, s, k, now).0
  {
  }

  /** Answers for a key with `n` outstanding attempts that is still collecting them. */
  function Answer(p: Policy, n: nat): Outcome {
    if n + 1 < p.threshold then Allowed else AllowedLastAttempt
  }

  /**
   What Reserve answers, from the history alone: it denies exactly a locked key, or a new one when
   every slot holds a lockout; otherwise the outstanding attempts decide.
   */
  lemma ReserveAnswers(p: Policy, w: World, k: Key, now: Time)
    requires Accounted(p, w) && w.st.latest <= now && k !in w.refunded
    ensures var u := Observe(p, w.st, now);
            Reserve(p, w.st, k, now).1 ==
            if k in u.entries then
              (if u.entries[k].locked then Denied else Answer(p, |Out(w.log, u.entries[k].epoch)|))
            else if |u.entries| == p.maxKeys && (forall l :: l in u.entries ==> u.entries[l].locked) then Denied
            else Answer(p, 0)
  {
    hide Logged, Apart, Budgeted, Without, Recency, Sound, TryCount, Observe;
    var u := Observe(p, w.st, now);
    ObserveShrinks(p, w, now);
    ObservedAt(p, w.st, now);
    if k in u.entries {
      assert Exact(w, k);
      TrackedAnswers(p, u, k);
    } else {
      NewcomerAnswers(p, u, k);
    }
  }

  lemma TrackedAnswers(p: Policy, u: State, k: Key)
    requires Inv(p, u) && k in u.entries && u.entries[k].attempts >= 0
    ensures TryCount(p, u, k, u.latest).1 == if u.entries[k].locked then Denied else Answer(p, u.entries[k].attempts)
  {
    hide Recency, Without;
  }

  lemma NewcomerAnswers(p: Policy, u: State, k: Key)
    requires Inv(p, u) && k !in u.entries
    ensures TryCount(p, u, k, u.latest).1 ==
            if |u.entries| == p.maxKeys && (forall l :: l in u.entries ==> u.entries[l].locked) then Denied else Answer(p, 0)
  {
    hide Without, MakeRoom, Epochs;
    if u.counting != [] {
      assert u.counting[0] in u.counting;
    }
  }

  // ----- Exact cancellation -----

  /** A zero reservation, or one that outlived its entry, changes nothing. */
  lemma StaleCancelIsIdle(p: Policy, s: State, r: Reservation)
    requires Inv(p, s) && !Current(s, r)
    ensures Cancel(p, s, r) == s
  {
    ExpireIdle(p, s);
  }

  /** A permitted attempt's reservation names its key and its new epoch; a denied one's is the zero reservation. */
  lemma TryReserves(p: Policy, s: State, k: Key, now: Time)
    requires Inv(p, s)
    ensures var (st, out, r) := TryCount(p, s, k, now);
            if out.Permitted() then r.key == k && Current(st, r) && (r.engaged <==> out == AllowedLastAttempt)
            else r == NO_RESERVATION && st == s
  {
    hide Without, Recency, Saturated;
    if k in s.entries {
      assert RecordOk(p, s, s.entries[k]);
    }
  }

  /** What a log entry says of its attempt never changes, whatever is called later. */
  lemma {:induction false} TicketsStay(p: Policy, w: World, ops: seq<Op>, i: nat)
    requires LegalRun(p, w, ops) && i < |w.log|
    ensures i < |Run(p, w, ops).log| && Run(p, w, ops).log[i].Ticket() == w.log[i].Ticket()
    decreases |ops|
  {
    hide TryCount, Cancel, Refund, Reset, Observe, MakeRoom, Displaced;
    if ops != [] {
      TicketsStay(p, Step(p, w, ops[0]), ops[1..], i);
    }
  }

  /**
   In any run, a permitted Reserve logs its key and time and returns that entry's own reservation,
   for good: cancelling the value returned, whenever that is, is cancelling that attempt. What a
   denied Reserve returns cancels nothing.
   */
  lemma ReservationIsItsAttempt(p: Policy, before: seq<Op>, k: Key, now: Time, after: seq<Op>)
    requires p.Valid() && LegalRun(p, START, before) && Legal(Run(p, START, before), OpReserve(k, now))
    requires LegalRun(p, Step(p, Run(p, START, before), OpReserve(k, now)), after)
    ensures var w := Run(p, START, before);
            var (st, out, r) := Reserve(p, w.st, k, now);
            var v := Step(p, w, OpReserve(k, now));
            var u, i := Run(p, v, after), |w.log|;
            && v.st == st
            && (out.Permitted() ==>
                  && |v.log| == i + 1 && i < |u.log| && u.log[i].Ticket() == r
                  && v.log[i].key == r.key == k && v.log[i].time == now && Current(st, r)
                  && (Legal(u, OpCancel(i)) ==> Step(p, u, OpCancel(i)).st == Cancel(p, u.st, r)))
            && (!out.Permitted() ==> v.log == w.log && Cancel(p, u.st, r) == u.st)
  {
    hide Logged, Apart, Budgeted, Exact, Inv, Cancel, Observe, TryCount, AfterRoom, Current;
    var w := Run(p, START, before);
    var v := Step(p, w, OpReserve(k, now));
    StartAccounted(p);
    RunAccounted(p, START, before);
    StepAccounted(p, w, OpReserve(k, now));
    RunAccounted(p, v, after);
    ObserveKeeps(p, w.st, now);
    TryReserves(p, Observe(p, w.st, now), k, now);
    LogBefore(p, w.(st := Observe(p, w.st, now)), k, now);
    if |v.log| > |w.log| {
      TicketsStay(p, v, after, |w.log|);
    }
    ZeroCancel(p, Run(p, v, after).st);
  }

  lemma LogBefore(p: Policy, w: World, k: Key, now: Time)
    ensures |AfterRoom(p, w).log| == |w.log|
  {
  }

  function Cancels(order: seq<nat>): seq<Op> {
    seq(|order|, j requires 0 <= j < |order| => OpCancel(order[j]))
  }

  /** One of several outstanding attempts taken back: the key stays tracked in the same epoch. */
  lemma CancelOneOfMany(p: Policy, w: World, k: Key, i: nat)
    requires Accounted(p, w) && k in w.st.entries && k !in w.refunded
    requires i in Out(w.log, w.st.entries[k].epoch)
    ensures var v := Step(p, w, OpCancel(i));
            && v.st.latest == w.st.latest && v.refunded == w.refunded
            && Out(v.log, w.st.entries[k].epoch) == Out(w.log, w.st.entries[k].epoch) - {i}
            && if |Out(w.log, w.st.entries[k].epoch)| == 1 then k !in v.st.entries
               else k in v.st.entries && v.st.entries[k].epoch == w.st.entries[k].epoch
  {
    hide Recency, Without;
    var epoch := w.st.entries[k].epoch;
    var v := Step(p, w, OpCancel(i));
    assert w.log[i].key == k && Current(w.st, w.log[i].Ticket());
    ExpireIdle(p, w.st);
    TakeBackUncounts(p, w, i);
    assert Uncounts(p, w, v, i);
    CountsStruck(w.log, i, epoch);
    assert Exact(w, k);
    if |Out(w.log, epoch)| == 1 {
      LoneMember(Out(w.log, epoch), Engaging(w.log, epoch), i);
    }
  }

  /** Taking back every outstanding attempt of a key, in any order, leaves the key untracked. */
  lemma {:induction false} CancelAll(p: Policy, w: World, k: Key, order: seq<nat>)
    requires Accounted(p, w) && k in w.st.entries && k !in w.refunded
    requires NoDups(order) && forall i :: i in order <==> i in Out(w.log, w.st.entries[k].epoch)
    ensures LegalRun(p, w, Cancels(order))
    ensures k !in Run(p, w, Cancels(order)).st.entries
    ensures Run(p, w, Cancels(order)).st.latest == w.st.latest
    decreases |order|
  {
    hide Inv, Logged, Apart, Budgeted, Step;
    var out := Out(w.log, w.st.entries[k].epoch);
    assert Exact(w, k);
    var some :| some in out;
    assert some in order;
    var i := order[0];
    assert i in order;
    var v := Step(p, w, OpCancel(i));
    CancelOneOfMany(p, w, k, i);
    StepAccounted(p, w, OpCancel(i));
    assert Cancels(order)[0] == OpCancel(i) && Cancels(order)[1..] == Cancels(order[1..]);
    assert forall j :: j in order <==> j == i || j in order[1..];
    if |out| == 1 {
      LoneMember(out, {}, i);
      assert order[|order| - 1] in order;
    } else {
      CancelAll(p, v, k, order[1..]);
    }
  }

  // ----- Lockouts -----

  /** k is locked until `until` by attempt i. */
  ghost predicate Held(w: World, k: Key, i: nat, until: Time) {
    && k in w.st.entries && w.st.entries[k].locked && w.st.entries[k].lockedUntil == until
    && i in Engaging(w.log, w.st.entries[k].epoch)
  }

  /** A call that neither resets k, nor cancels attempt i, nor comes at or after `until`. */
  predicate Spares(op: Op, k: Key, i: nat, until: Time) {
    match op
    case OpLocked(_, now) => now < until
    case OpReserve(_, now) => now < until
    case OpCancel(j) => j != i
    case OpReset(l) => l != k
    case _ => true
  }

  lemma TouchElse(p: Policy, s: State, k: Key, l: Key)
    requires Inv(p, s) && k in s.entries && s.entries[k].locked && l != k
    ensures var st := TryCount(p, s, l, s.latest).0; k in st.entries && st.entries[k] == s.entries[k]
  {
    hide Without;
    if l !in s.entries && Displaced(p, s).Some? {
      DisplacedIsOldest(p, s);
    }
  }

  /** Whatever log TryStep leaves, an attempt of a key it did not displace is still there. */
  lemma TryKeepsAttempt(p: Policy, w: World, l: Key, i: nat, epoch: nat)
    requires i in Engaging(w.log, epoch)
    ensures i in Engaging(TryStep(p, w, l, w.st.latest).log, epoch)
  {
    hide TryCount, MakeRoom;
  }

  lemma TryHeld(p: Policy, w: World, l: Key, k: Key, i: nat, until: Time)
    requires Accounted(p, w) && Held(w, k, i, until) && w.st.latest < until
    ensures Held(TryStep(p, w, l, w.st.latest), k, i, until)
  {
    hide Recency, Exact, Apart, Budgeted, Logged, Engaging, AfterRoom;
    TryKeepsAttempt(p, w, l, i, w.st.entries[k].epoch);
    if l != k {
      TouchElse(p, w.st, k, l);
    }
  }

  lemma ObserveHeld(p: Policy, w: World, k: Key, i: nat, until: Time, now: Time)
    requires Held(w, k, i, until) && now < until
    ensures Held(w.(st := Observe(p, w.st, now)), k, i, until)
  {
  }

  /** An attempt of a held key other than i did not engage the lockout. */
  lemma HeldAlone(p: Policy, w: World, k: Key, i: nat, until: Time, j: nat)
    requires Accounted(p, w) && Held(w, k, i, until) && j != i
    ensures j !in Engaging(w.log, w.st.entries[k].epoch)
  {
    hide Engaging, Out, Logged, Inv, Apart, Budgeted;
    assert Exact(w, k);
    LoneMember(Engaging(w.log, w.st.entries[k].epoch), {}, i);
  }

  /** Taking back another attempt leaves k's lockout. */
  lemma UncountsHeld(p: Policy, w: World, v: World, k: Key, i: nat, until: Time, j: nat)
    requires Accounted(p, w) && Held(w, k, i, until) && j != i && Uncounts(p, w, v, j)
    ensures Held(v, k, i, until)
  {
    hide Inv, Logged, Apart, Budgeted, Exact, Accounted, Out, Engaging;
    CountsStruck(w.log, j, w.st.entries[k].epoch);
    HeldAlone(p, w, k, i, until, j);
  }

  lemma CancelHeld(p: Policy, w: World, k: Key, i: nat, until: Time, j: nat)
    requires Accounted(p, w) && Held(w, k, i, until) && j != i && Legal(w, OpCancel(j))
    ensures Held(Step(p, w, OpCancel(j)), k, i, until)
  {
    hide Inv, Logged, Apart, Budgeted, Exact, TakeBack, Uncounts, Out, Engaging;
    ExpireIdle(p, w.st);
    if Current(w.st, w.log[j].Ticket()) {
      TakeBackUncounts(p, w, j);
      UncountsHeld(p, w, Step(p, w, OpCancel(j)), k, i, until, j);
    } else {
      CountsStruck(w.log, j, w.st.entries[k].epoch);
    }
  }

  lemma StepHeld(p: Policy, w: World, op: Op, k: Key, i: nat, until: Time)
    requires Accounted(p, w) && Legal(w, op) && Held(w, k, i, until) && Spares(op, k, i, until)
    ensures Held(Step(p, w, op), k, i, until)
  {
    hide Inv, Logged, Apart, Budgeted, Exact, Engaging, Observe, TryStep, Cancel, Out;
    match op
    case OpLocked(l, now) => ObserveHeld(p, w, k, i, until, now);
    case OpReserve(l, now) =>
      var u := w.(st := Observe(p, w.st, now));
      ObserveHeld(p, w, k, i, until, now);
      ObserveShrinks(p, w, now);
      ShrunkAccounted(p, w, u);
      ObservedAt(p, w.st, now);
      TryHeld(p, u, l, k, i, until);
    case OpCancel(j) => CancelHeld(p, w, k, i, until, j);
    case OpCancelNothing => ZeroCancel(p, w.st);
    case OpRefund(l) => RefundShape(w.st, l);
    case OpReset(l) => ResetHeld(p, w, l, k, i, until);
  }

  lemma ResetHeld(p: Policy, w: World, l: Key, k: Key, i: nat, until: Time)
    requires Accounted(p, w) && Held(w, k, i, until) && l != k
    ensures Held(Step(p, w, OpReset(l)), k, i, until)
  {
    hide Recency, Without;
  }

  lemma {:induction false} RunHeld(p: Policy, w: World, ops: seq<Op>, k: Key, i: nat, until: Time)
    requires Accounted(p, w) && LegalRun(p, w, ops) && Held(w, k, i, until)
    requires forall op :: op in ops ==> Spares(op, k, i, until)
    ensures Held(Run(p, w, ops), k, i, until)
    decreases |ops|
  {
    hide Accounted, Step, Held, Spares;
    if ops != [] {
      assert ops[0] in ops;
      StepHeld(p, w, ops[0], k, i, until);
      StepAccounted(p, w, ops[0]);
      RunHeld(p, Step(p, w, ops[0]), ops[1..], k, i, until);
    }
  }

  /**
   Once Reserve answers AllowedLastAttempt for k at time t, then through any calls at all, floods
   of other keys and cancels of earlier attempts included, Reserve denies k until t + window,
   unless k is Reset or that very reservation is cancelled.
   */
  lemma Lockout(p: Policy, before: seq<Op>, k: Key, t: Time, after: seq<Op>, now: Time)
    requires p.Valid() && LegalRun(p, START, before)
    requires var w := Run(p, START, before);
             && Legal(w, OpReserve(k, t)) && Reserve(p, w.st, k, t).1 == AllowedLastAttempt
             && var v := Step(p, w, OpReserve(k, t));
             && LegalRun(p, v, after)
             && (forall op :: op in after ==> Spares(op, k, |v.log| - 1, t + p.window))
             && Run(p, v, after).st.latest <= now < t + p.window
    ensures var u := Run(p, Step(p, Run(p, START, before), OpReserve(k, t)), after);
            Reserve(p, u.st, k, now).1 == Denied && Locked(p, u.st, k, now).1
  {
    hide Accounted, Held, Reserve, Locked, Step, Run, LegalRun;
    var w := Run(p, START, before);
    var v := Step(p, w, OpReserve(k, t));
    StartAccounted(p);
    RunAccounted(p, START, before);
    StepAccounted(p, w, OpReserve(k, t));
    LastAttemptHolds(p, w, k, t);
    RunHeld(p, v, after, k, |v.log| - 1, t + p.window);
    HeldDenies(p, Run(p, v, after), k, |v.log| - 1, t + p.window, now);
  }

  lemma HeldDenies(p: Policy, w: World, k: Key, i: nat, until: Time, now: Time)
    requires Held(w, k, i, until) && now < until
    ensures Reserve(p, w.st, k, now).1 == Denied && Locked(p, w.st, k, now).1
  {
    ObserveHeld(p, w, k, i, until, now);
  }

  lemma LastAttemptLocks(p: Policy, s: State, k: Key, t: Time)
    requires TryCount(p, s, k, t).1 == AllowedLastAttempt
    ensures var (st, _, r) := TryCount(p, s, k, t);
            && k in st.entries && st.entries[k].locked && st.entries[k].lockedUntil == t + p.window
            && r.engaged && r.epoch == st.entries[k].epoch
  {
    hide Without, MakeRoom, Saturated;
  }

  lemma LastAttemptHolds(p: Policy, w: World, k: Key, t: Time)
    requires w.st.latest <= t && Reserve(p, w.st, k, t).1 == AllowedLastAttempt
    ensures var v := Step(p, w, OpReserve(k, t));
            |v.log| > 0 && Held(v, k, |v.log| - 1, t + p.window)
  {
    hide TryCount, Observe, AfterRoom;
    LastAttemptLocks(p, Observe(p, w.st, t), k, t);
  }

  // ----- Cost -----

  /** List elements one call's expiry looks at; Refund and Reset do not expire. */
  ghost function OpLooks(p: Policy, w: World, op: Op): int
    requires Legal(w, op)
  {
    match op
    case OpLocked(_, now) => Looks(p, w.st.(latest := now), now)
    case OpReserve(_, now) => Looks(p, w.st.(latest := now), now)
    case OpCancel(_) => Looks(p, w.st, w.st.latest)
    case OpCancelNothing => Looks(p, w.st, w.st.latest)
    case _ => 0
  }

  ghost function RunLooks(p: Policy, w: World, ops: seq<Op>): int
    requires LegalRun(p, w, ops)
    decreases |ops|
  {
    if ops == [] then 0 else OpLooks(p, w, ops[0]) + RunLooks(p, Step(p, w, ops[0]), ops[1..])
  }

  lemma TryGrows(p: Policy, s: State, k: Key, now: Time)
    ensures |TryCount(p, s, k, now).0.entries| <= |s.entries| + 1
  {
    hide Without;
    var t := TryCount(p, s, k, now).0;
    SubsetSize(t.entries.Keys, s.entries.Keys + {k});
  }

  lemma CancelShrinks(p: Policy, s: State, r: Reservation)
    ensures |Cancel(p, s, r).entries| <= |Expire(p, s, s.latest).entries|
  {
    hide Without, Tracked;
    SubsetSize(Cancel(p, s, r).entries.Keys, Expire(p, s, s.latest).entries.Keys);
  }

  /** A call's looks are paid for by the entries it drops, and it adds at most one. */
  lemma StepCost(p: Policy, w: World, op: Op)
    requires Legal(w, op)
    ensures OpLooks(p, w, op) + |Step(p, w, op).st.entries| <= |w.st.entries| + 3
  {
    hide Without, Tracked, Cancel, TryCount;
    match op
    case OpLocked(_, _) =>
    case OpReserve(k, now) => TryGrows(p, Observe(p, w.st, now), k, now);
    case OpCancel(i) => CancelShrinks(p, w.st, w.log[i].Ticket());
    case OpCancelNothing => CancelShrinks(p, w.st, NO_RESERVATION);
    case OpRefund(k) => SubsetSize(Refund(w.st, k).entries.Keys, w.st.entries.Keys);
    case OpReset(k) => SubsetSize(Reset(w.st, k).entries.Keys, w.st.entries.Keys);
  }

  lemma {:induction false} RunCost(p: Policy, w: World, ops: seq<Op>)
    requires LegalRun(p, w, ops)
    ensures RunLooks(p, w, ops) + |Run(p, w, ops).st.entries| <= |w.st.entries| + 3 * |ops|
    decreases |ops|
  {
    hide Step, OpLooks;
    if ops != [] {
      StepCost(p, w, ops[0]);
      RunCost(p, Step(p, w, ops[0]), ops[1..]);
    }
  }

  /** Amortised constant cost: n calls make at most 3n looks, however many keys are tracked. */
  lemma AmortisedCost(p: Policy, ops: seq<Op>)
    requires LegalRun(p, START, ops)
    ensures RunLooks(p, START, ops) <= 3 * |ops|
  {
    RunCost(p, START, ops);
  }
}
