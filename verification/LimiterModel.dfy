/**
 The attempt limiter of ratelimit/attempt_limiter.go on plain values: what each call does to
 the tracked keys, written with the simple "scan the whole table" expiry. The class in
 AttemptLimiter.dfy computes the same results with its two recency lists.

 Time is counted in ticks from the zero instant of the clock.
 */
module LimiterModel {
  import opened Seqs

  type Key = string
  type Time = int

  datatype Policy = Policy(threshold: int, window: int, maxKeys: int) {
    predicate Valid() {
      threshold >= 1 && window > 0 && maxKeys >= 1
    }
  }

  datatype Outcome = Denied | Allowed | AllowedLastAttempt {
    predicate Permitted() {
      this != Denied
    }
  }

  datatype Reservation = Reservation(key: Key, epoch: nat, engaged: bool)

  const NO_RESERVATION := Reservation("", 0, false)

  /** One key's state. */
  datatype Record = Record(epoch: nat, attempts: int, locked: bool, lockedUntil: Time, lastActivity: Time)

  /** `counting` lists the unlocked keys and `locks` the locked ones, most recently active first. */
  datatype State = State(
    entries: map<Key, Record>,
    counting: seq<Key>,
    locks: seq<Key>,
    nextEpoch: nat,
    latest: Time)

  const EMPTY := State(map[], [], [], 0, 0)

  predicate Expired(p: Policy, e: Record, now: Time) {
    if e.locked then e.lockedUntil <= now else e.lastActivity <= now - p.window
  }

  /** The keys of ks that m tracks, in order. */
  function Tracked(ks: seq<Key>, m: map<Key, Record>): (r: seq<Key>) {
    if ks == [] then []
    else if ks[0] in m then [ks[0]] + Tracked(ks[1..], m)
    else Tracked(ks[1..], m)
  }

  /** Drop every entry whose window has elapsed, by a scan of the table. */
  function Expire(p: Policy, s: State, now: Time): State {
    var kept := map k | k in s.entries && !Expired(p, s.entries[k], now) :: s.entries[k];
    s.(entries := kept, counting := Tracked(s.counting, kept), locks := Tracked(s.locks, kept))
  }

  function Observe(p: Policy, s: State, now: Time): State {
    Expire(p, s.(latest := if now > s.latest then now else s.latest), now)
  }

  function Remove(s: State, k: Key): State {
    s.(entries := s.entries - {k}, counting := Without(s.counting, k), locks := Without(s.locks, k))
  }

  predicate Saturated(p: Policy, s: State) {
    |s.entries| >= p.maxKeys && s.counting == []
  }

  /** The key a new one displaces: none while there is room. */
  function Displaced(p: Policy, s: State): Option<Key> {
    if |s.entries| >= p.maxKeys && s.counting != [] then Some(s.counting[|s.counting| - 1]) else None
  }

  function MakeRoom(p: Policy, s: State): State {
    match Displaced(p, s)
    case None => s
    case Some(k) => Remove(s, k)
  }

  /** Start tracking k. */
  function Admit(s: State, k: Key): State {
    s.(entries := s.entries[k := Record(s.nextEpoch + 1, 0, false, 0, 0)],
       counting := [k] + s.counting,
       nextEpoch := s.nextEpoch + 1)
  }

  /** One more attempt of k, made at now. */
  function Stamp(s: State, k: Key, now: Time): State
    requires k in s.entries
  {
    s.(entries := s.entries[k := s.entries[k].(attempts := s.entries[k].attempts + 1, lastActivity := now)])
  }

  /** k moved from the counting list to the lockouts. */
  function Lock(p: Policy, s: State, k: Key, now: Time): State
    requires k in s.entries
  {
    s.(entries := s.entries[k := s.entries[k].(locked := true, lockedUntil := now + p.window)],
       counting := Without(s.counting, k), locks := [k] + s.locks)
  }

  /** Count one attempt of a tracked, unlocked key, and lock the key when it used its budget. */
  function Count(p: Policy, s: State, k: Key, now: Time): (r: (State, Outcome, Reservation))
    requires k in s.entries
  {
    var t := Stamp(s, k, now);
    var e := t.entries[k];
    if e.attempts < p.threshold then
      (t.(counting := [k] + Without(t.counting, k)), Allowed, Reservation(k, e.epoch, false))
    else
      (Lock(p, t, k, now), AllowedLastAttempt, Reservation(k, e.epoch, true))
  }

  /** The part of Reserve after the clock is observed. */
  function TryCount(p: Policy, t: State, k: Key, now: Time): (r: (State, Outcome, Reservation)) {
    if k !in t.entries then
      if Saturated(p, t) then (t, Denied, NO_RESERVATION)
      else Count(p, Admit(MakeRoom(p, t), k), k, now)
    else if t.entries[k].locked && now < t.entries[k].lockedUntil then (t, Denied, NO_RESERVATION)
    else Count(p, t, k, now)
  }

  function Reserve(p: Policy, s: State, k: Key, now: Time): (r: (State, Outcome, Reservation)) {
    TryCount(p, Observe(p, s, now), k, now)
  }

  function Locked(p: Policy, s: State, k: Key, now: Time): (State, bool) {
    var t := Observe(p, s, now);
    (t, if k !in t.entries then Saturated(p, t) else t.entries[k].locked && now < t.entries[k].lockedUntil)
  }

  function Unlock(s: State, k: Key): State
    requires k in s.entries
  {
    s.(entries := s.entries[k := s.entries[k].(locked := false, lockedUntil := 0, lastActivity := s.latest)],
       counting := [k] + s.counting, locks := Without(s.locks, k))
  }

  /** Whether r still names a tracked entry. */
  predicate Current(s: State, r: Reservation) {
    r.epoch != 0 && r.key in s.entries && s.entries[r.key].epoch == r.epoch
  }

  function Cancel(p: Policy, s: State, r: Reservation): State {
    var t := Expire(p, s, s.latest);
    if Current(t, r) then TakeBack(t, r) else t
  }

  /** The key's record with n attempts counted. */
  function Recount(s: State, k: Key, n: int): State
    requires k in s.entries
  {
    s.(entries := s.entries[k := s.entries[k].(attempts := n)])
  }

  lemma RecountShape(s: State, k: Key, n: int)
    requires k in s.entries
    ensures var t := Recount(s, k, n);
            && t.counting == s.counting && t.locks == s.locks && t.entries.Keys == s.entries.Keys
            && t.entries[k] == s.entries[k].(attempts := n)
  {
  }

  /** Uncount the attempt behind r; only the engaging attempt lifts a lockout. */
  function TakeBack(s: State, r: Reservation): State
    requires Current(s, r)
  {
    var e := s.entries[r.key];
    var u := Recount(s, r.key, e.attempts - 1);
    if e.locked && !r.engaged then u
    else if e.attempts == 1 then Remove(u, r.key)
    else if e.locked then Unlock(u, r.key)
    else u
  }

  function Refund(s: State, k: Key): State {
    if k !in s.entries || s.entries[k].locked || s.entries[k].attempts == 0 then s
    else
      var u := Recount(s, k, s.entries[k].attempts - 1);
      if s.entries[k].attempts == 1 then Remove(u, k) else u
  }

  function Reset(s: State, k: Key): State {
    if k in s.entries then Remove(s, k) else s
  }

  // ----- What every call keeps -----

  /** The two lists split the tracked keys by `locked`, each from newest to oldest activity. */
  ghost predicate Ordered(s: State) {
    Recency(s.entries, s.counting, false) && Recency(s.entries, s.locks, true)
  }

  ghost predicate Recency(m: map<Key, Record>, ks: seq<Key>, locked: bool) {
    && NoDups(ks)
    && (forall k :: k in ks <==> k in m && m[k].locked == locked)
    && (forall i, j :: 0 <= i < j < |ks| ==> m[ks[i]].lastActivity >= m[ks[j]].lastActivity)
  }

  /** No two keys share an epoch. */
  ghost predicate Epochs(m: map<Key, Record>) {
    forall k, l {:trigger m[k].epoch, m[l].epoch} :: k in m && l in m && m[k].epoch == m[l].epoch ==> k == l
  }

  ghost predicate RecordOk(p: Policy, s: State, e: Record) {
    && 1 <= e.epoch <= s.nextEpoch
    && e.lastActivity <= s.latest
    && !Expired(p, e, s.latest)
    && (e.locked ==> e.lockedUntil == e.lastActivity + p.window && e.attempts <= p.threshold)
    && (!e.locked ==> e.attempts < p.threshold && e.lockedUntil == 0)
  }

  /** The size bound and what each record satisfies. */
  ghost predicate Sound(p: Policy, s: State) {
    && |s.entries| <= p.maxKeys
    && (forall k {:trigger s.entries[k]} :: k in s.entries ==> RecordOk(p, s, s.entries[k]))
    && Epochs(s.entries)
  }

  ghost predicate Inv(p: Policy, s: State) {
    && p.Valid()
    && Ordered(s)
    && Sound(p, s)
  }

  // ----- Filtering facts -----

  lemma {:induction false} TrackedMembers(ks: seq<Key>, m: map<Key, Record>)
    ensures forall k :: k in Tracked(ks, m) <==> k in ks && k in m
  {
    if ks != [] {
      TrackedMembers(ks[1..], m);
      assert ks == [ks[0]] + ks[1..];
    }
  }

  lemma {:induction false} TrackedAll(ks: seq<Key>, m: map<Key, Record>)
    requires forall k :: k in ks ==> k in m
    ensures Tracked(ks, m) == ks
  {
    if ks != [] {
      TrackedAll(ks[1..], m);
    }
  }

  /** Filtering looks only at which keys are tracked. */
  lemma {:induction false} TrackedWithout(ks: seq<Key>, k: Key, m: map<Key, Record>)
    requires k !in m
    ensures Tracked(Without(ks, k), m) == Tracked(ks, m)
  {
    if ks != [] {
      TrackedWithout(ks[1..], k, m);
    }
  }

  /** A list that keeps an order keeps it when filtered. */
  lemma {:induction false} TrackedOrdered(ks: seq<Key>, m: map<Key, Record>, rank: Key -> int)
    requires NoDups(ks)
    requires forall i, j :: 0 <= i < j < |ks| ==> rank(ks[i]) >= rank(ks[j])
    ensures NoDups(Tracked(ks, m))
    ensures forall i, j :: 0 <= i < j < |Tracked(ks, m)| ==> rank(Tracked(ks, m)[i]) >= rank(Tracked(ks, m)[j])
  {
    if ks != [] {
      TrackedOrdered(ks[1..], m, rank);
      TrackedMembers(ks[1..], m);
      var rest := Tracked(ks[1..], m);
      forall j | 0 <= j < |rest| ensures rank(ks[0]) >= rank(rest[j]) && rest[j] != ks[0] {
        assert rest[j] in ks[1..];
      }
    }
  }

  lemma {:induction false} WithoutOrdered(ks: seq<Key>, k: Key, rank: Key -> int)
    requires NoDups(ks)
    requires forall i, j :: 0 <= i < j < |ks| ==> rank(ks[i]) >= rank(ks[j])
    ensures NoDups(Without(ks, k))
    ensures forall i, j :: 0 <= i < j < |Without(ks, k)| ==> rank(Without(ks, k)[i]) >= rank(Without(ks, k)[j])
  {
    if ks != [] {
      WithoutOrdered(ks[1..], k, rank);
      WithoutMembers(ks[1..], k);
      var rest := Without(ks[1..], k);
      forall j | 0 <= j < |rest| ensures rank(ks[0]) >= rank(rest[j]) && rest[j] != ks[0] {
        assert rest[j] in ks[1..];
      }
    }
  }

  // ----- Preservation -----

  ghost function Rank(m: map<Key, Record>): Key -> int {
    k => if k in m then m[k].lastActivity else 0
  }

  lemma RecencyExpire(p: Policy, s: State, ks: seq<Key>, locked: bool, now: Time)
    requires Recency(s.entries, ks, locked)
    ensures Recency(Expire(p, s, now).entries, Tracked(ks, Expire(p, s, now).entries), locked)
  {
    var m := Expire(p, s, now).entries;
    var r := Tracked(ks, m);
    TrackedMembers(ks, m);
    TrackedOrdered(ks, m, Rank(s.entries));
    forall i, j | 0 <= i < j < |r| ensures m[r[i]].lastActivity >= m[r[j]].lastActivity {
      assert r[i] in r && r[j] in r;
      assert Rank(s.entries)(r[i]) >= Rank(s.entries)(r[j]);
    }
  }

  lemma ObserveKeeps(p: Policy, s: State, now: Time)
    requires Inv(p, s) && s.latest <= now
    ensures Inv(p, Observe(p, s, now)) && Observe(p, s, now).latest == now
  {
    var u := s.(latest := now);
    RecencyExpire(p, u, u.counting, false, now);
    RecencyExpire(p, u, u.locks, true, now);
    SubsetSize(Expire(p, u, now).entries.Keys, s.entries.Keys);
  }

  lemma ExpireNone(p: Policy, s: State, now: Time)
    requires Ordered(s)
    requires forall k :: k in s.entries ==> !Expired(p, s.entries[k], now)
    ensures Expire(p, s, now) == s
  {
    assert Expire(p, s, now).entries == s.entries;
    TrackedAll(s.counting, s.entries);
    TrackedAll(s.locks, s.entries);
  }

  /** Nothing is ever overdue between calls, so expiring again at `latest` changes nothing. */
  lemma ExpireIdle(p: Policy, s: State)
    requires Inv(p, s)
    ensures Expire(p, s, s.latest) == s
  {
    ExpireNone(p, s, s.latest);
  }

  /** Expiry may drop one overdue key first: this is what each turn of an expiry loop does. */
  lemma ExpireRemove(p: Policy, s: State, k: Key, now: Time)
    requires k in s.entries && Expired(p, s.entries[k], now)
    ensures Expire(p, Remove(s, k), now) == Expire(p, s, now)
  {
    var kept := Expire(p, s, now).entries;
    assert Expire(p, Remove(s, k), now).entries == kept;
    TrackedWithout(s.counting, k, kept);
    TrackedWithout(s.locks, k, kept);
  }

  /** List elements the two expiry loops look at: each dropped entry, and one survivor per list. */
  ghost function Looks(p: Policy, s: State, now: Time): int {
    var t := Expire(p, s, now);
    |s.entries| - |t.entries| + (if t.counting != [] then 1 else 0) + (if t.locks != [] then 1 else 0)
  }

  lemma RecencyDrop(m: map<Key, Record>, ks: seq<Key>, locked: bool, k: Key)
    requires Recency(m, ks, locked)
    ensures Recency(m - {k}, Without(ks, k), locked)
  {
    var r := Without(ks, k);
    WithoutMembers(ks, k);
    WithoutOrdered(ks, k, Rank(m));
    forall i, j | 0 <= i < j < |r| ensures (m - {k})[r[i]].lastActivity >= (m - {k})[r[j]].lastActivity {
      assert r[i] in r && r[j] in r;
      assert Rank(m)(r[i]) >= Rank(m)(r[j]);
    }
  }

  /** A record added for the other list leaves this one alone. */
  lemma RecencyElse(m: map<Key, Record>, ks: seq<Key>, locked: bool, k: Key, e: Record)
    requires Recency(m - {k}, ks, locked) && e.locked != locked
    ensures Recency(m[k := e], ks, locked)
  {
    forall i | 0 <= i < |ks| ensures ks[i] in m - {k} {
      assert ks[i] in ks;
    }
  }

  /** The newest record goes to the front. */
  lemma RecencyFront(m: map<Key, Record>, ks: seq<Key>, locked: bool, k: Key, e: Record)
    requires Recency(m - {k}, ks, locked) && e.locked == locked
    requires forall l :: l in m - {k} ==> m[l].lastActivity <= e.lastActivity
    ensures Recency(m[k := e], [k] + ks, locked)
  {
    var n := m[k := e];
    var r := [k] + ks;
    assert forall l :: l in r <==> l == k || l in ks;
    forall i | 0 <= i < |ks| ensures ks[i] in m - {k} {
      assert ks[i] in ks;
    }
  }

  /** k's record rewritten as e and k moved to the front of the list e belongs to. */
  function Touch(s: State, k: Key, e: Record): State {
    s.(entries := s.entries[k := e],
       counting := (if e.locked then [] else [k]) + Without(s.counting, k),
       locks := (if e.locked then [k] else []) + Without(s.locks, k))
  }

  lemma OrderedTouch(s: State, k: Key, e: Record)
    requires Ordered(s)
    requires forall l :: l in s.entries ==> s.entries[l].lastActivity <= e.lastActivity
    ensures Ordered(Touch(s, k, e))
  {
    RecencyDrop(s.entries, s.counting, false, k);
    RecencyDrop(s.entries, s.locks, true, k);
    if e.locked {
      RecencyElse(s.entries, Without(s.counting, k), false, k, e);
      assert [] + Without(s.counting, k) == Without(s.counting, k);
      RecencyFront(s.entries, Without(s.locks, k), true, k, e);
    } else {
      RecencyElse(s.entries, Without(s.locks, k), true, k, e);
      assert [] + Without(s.locks, k) == Without(s.locks, k);
      RecencyFront(s.entries, Without(s.counting, k), false, k, e);
    }
  }

  lemma OrderedRemove(s: State, k: Key)
    requires Ordered(s)
    ensures Ordered(Remove(s, k))
  {
    RecencyDrop(s.entries, s.counting, false, k);
    RecencyDrop(s.entries, s.locks, true, k);
  }

  lemma RemoveKeeps(p: Policy, s: State, k: Key)
    requires Inv(p, s)
    ensures Inv(p, Remove(s, k))
  {
    OrderedRemove(s, k);
    SubsetSize((s.entries - {k}).Keys, s.entries.Keys);
  }

  lemma MakeRoomKeeps(p: Policy, s: State)
    requires Inv(p, s) && !Saturated(p, s)
    ensures Inv(p, MakeRoom(p, s)) && |MakeRoom(p, s).entries| < p.maxKeys
    ensures MakeRoom(p, s).latest == s.latest && MakeRoom(p, s).nextEpoch == s.nextEpoch
  {
    if |s.entries| >= p.maxKeys {
      var k := s.counting[|s.counting| - 1];
      assert k in s.counting;
      RemoveKeeps(p, s, k);
      assert (s.entries - {k}).Keys == s.entries.Keys - {k};
    }
  }

  lemma SoundTouch(p: Policy, s: State, k: Key, e: Record, n: nat)
    requires Sound(p, s) && n >= s.nextEpoch && RecordOk(p, s.(nextEpoch := n), e)
    requires k in s.entries || |s.entries| < p.maxKeys
    requires forall l :: l in s.entries && l != k ==> s.entries[l].epoch != e.epoch
    ensures Sound(p, Touch(s, k, e).(nextEpoch := n))
  {
    assert s.entries[k := e].Keys == s.entries.Keys + {k};
  }

  /** Touching k with one good record keeps the invariant. */
  lemma TouchKeeps(p: Policy, s: State, k: Key, e: Record, n: nat)
    requires Inv(p, s) && n >= s.nextEpoch
    requires e.lastActivity == s.latest && RecordOk(p, s.(nextEpoch := n), e)
    requires k in s.entries || |s.entries| < p.maxKeys
    requires forall l :: l in s.entries && l != k ==> s.entries[l].epoch != e.epoch
    ensures Inv(p, Touch(s, k, e).(nextEpoch := n))
  {
    OrderedTouch(s, k, e);
    SoundTouch(p, s, k, e, n);
  }

  /** The record Count leaves at k. */
  function Counted(p: Policy, e: Record, now: Time): Record {
    var f := e.(attempts := e.attempts + 1, lastActivity := now);
    if f.attempts < p.threshold then f else f.(locked := true, lockedUntil := now + p.window)
  }

  lemma CountIsTouch(p: Policy, s: State, k: Key, now: Time)
    requires k in s.entries && !s.entries[k].locked && k !in s.locks
    ensures Count(p, s, k, now).0 == Touch(s, k, Counted(p, s.entries[k], now))
  {
    WithoutAbsent(s.locks, k);
    var e := Counted(p, s.entries[k], now);
    var t := Touch(s, k, e);
    if s.entries[k].attempts + 1 < p.threshold {
      assert t.locks == s.locks;
    } else {
      assert t.counting == Without(s.counting, k);
    }
  }

  lemma CountKeeps(p: Policy, s: State, k: Key)
    requires Inv(p, s) && k in s.entries && !s.entries[k].locked
    ensures Inv(p, Count(p, s, k, s.latest).0)
  {
    CountIsTouch(p, s, k, s.latest);
    TouchKeeps(p, s, k, Counted(p, s.entries[k], s.latest), s.nextEpoch);
  }

  lemma AdmitThenCount(p: Policy, s: State, k: Key, now: Time)
    requires k !in s.entries && k !in s.locks
    ensures var e := Counted(p, Record(s.nextEpoch + 1, 0, false, 0, 0), now);
            Count(p, Admit(s, k), k, now).0 == Touch(s, k, e).(nextEpoch := s.nextEpoch + 1)
  {
    var a := Admit(s, k);
    var e := Counted(p, a.entries[k], now);
    CountIsTouch(p, a, k, now);
    assert a.counting[1..] == s.counting;
    assert a.entries[k := e] == s.entries[k := e];
  }

  /** A new key stands at zero attempts only until the attempt that admitted it is counted. */
  lemma AdmitThenCountKeeps(p: Policy, s: State, k: Key)
    requires Inv(p, s) && k !in s.entries && |s.entries| < p.maxKeys
    ensures Inv(p, Count(p, Admit(s, k), k, s.latest).0)
  {
    AdmitThenCount(p, s, k, s.latest);
    TouchKeeps(p, s, k, Counted(p, Record(s.nextEpoch + 1, 0, false, 0, 0), s.latest), s.nextEpoch + 1);
  }

  lemma TryCountKeeps(p: Policy, t: State, k: Key)
    requires Inv(p, t)
    ensures Inv(p, TryCount(p, t, k, t.latest).0) && TryCount(p, t, k, t.latest).0.latest == t.latest
  {
    if k !in t.entries {
      if !Saturated(p, t) {
        MakeRoomKeeps(p, t);
        AdmitThenCountKeeps(p, MakeRoom(p, t), k);
      }
    } else if !t.entries[k].locked {
      CountKeeps(p, t, k);
    }
  }

  lemma ReserveKeeps(p: Policy, s: State, k: Key, now: Time)
    requires Inv(p, s) && s.latest <= now
    ensures Inv(p, Reserve(p, s, k, now).0) && Reserve(p, s, k, now).0.latest == now
  {
    ObserveKeeps(p, s, now);
    TryCountKeeps(p, Observe(p, s, now), k);
  }

  lemma RecencyRecount(m: map<Key, Record>, ks: seq<Key>, locked: bool, k: Key, n: int)
    requires Recency(m, ks, locked) && k in m
    ensures Recency(m[k := m[k].(attempts := n)], ks, locked)
  {
    var r := m[k := m[k].(attempts := n)];
    forall i | 0 <= i < |ks| ensures ks[i] in m && r[ks[i]].lastActivity == m[ks[i]].lastActivity {
      assert ks[i] in ks;
    }
  }

  lemma SoundRecount(p: Policy, s: State, k: Key, n: int)
    requires Sound(p, s) && k in s.entries && n <= s.entries[k].attempts
    ensures Sound(p, Recount(s, k, n))
  {
    var m := Recount(s, k, n).entries;
    assert m.Keys == s.entries.Keys;
    forall l | l in m ensures m[l].epoch == s.entries[l].epoch && RecordOk(p, Recount(s, k, n), m[l]) {
      if l != k {
        assert m[l] == s.entries[l];
      }
    }
  }

  /** Lowering an attempt count keeps the invariant. */
  lemma RecountKeeps(p: Policy, s: State, k: Key, n: int)
    requires Inv(p, s) && k in s.entries && n <= s.entries[k].attempts
    ensures Inv(p, Recount(s, k, n))
  {
    RecencyRecount(s.entries, s.counting, false, k, n);
    RecencyRecount(s.entries, s.locks, true, k, n);
    SoundRecount(p, s, k, n);
  }

  lemma UnlockKeeps(p: Policy, s: State, k: Key)
    requires Inv(p, s) && k in s.entries && s.entries[k].locked && s.entries[k].attempts < p.threshold
    ensures Inv(p, Unlock(s, k))
  {
    WithoutAbsent(s.counting, k);
    var e := Unlock(s, k).entries[k];
    assert Unlock(s, k) == Touch(s, k, e).(nextEpoch := s.nextEpoch) by {
      assert [] + Without(s.locks, k) == Without(s.locks, k);
    }
    TouchKeeps(p, s, k, e, s.nextEpoch);
  }

  lemma LowerKeeps(p: Policy, s: State, r: Reservation)
    requires Inv(p, s) && Current(s, r)
    requires if s.entries[r.key].locked then !r.engaged else s.entries[r.key].attempts != 1
    ensures TakeBack(s, r) == Recount(s, r.key, s.entries[r.key].attempts - 1)
    ensures Inv(p, TakeBack(s, r))
  {
    var u := Recount(s, r.key, s.entries[r.key].attempts - 1);
    assert TakeBack(s, r) == u;
    RecountKeeps(p, s, r.key, s.entries[r.key].attempts - 1);
    assert Inv(p, u);
  }

  lemma ForgetKeeps(p: Policy, s: State, r: Reservation)
    requires Inv(p, s) && Current(s, r) && s.entries[r.key].attempts == 1
    requires !s.entries[r.key].locked || r.engaged
    ensures Inv(p, TakeBack(s, r))
  {
    var u := Recount(s, r.key, 0);
    RecountKeeps(p, s, r.key, 0);
    RemoveKeeps(p, u, r.key);
    assert TakeBack(s, r) == Remove(u, r.key);
  }

  lemma LiftKeeps(p: Policy, s: State, r: Reservation)
    requires Inv(p, s) && Current(s, r) && s.entries[r.key].attempts != 1
    requires s.entries[r.key].locked && r.engaged
    ensures Inv(p, TakeBack(s, r))
  {
    var n := s.entries[r.key].attempts - 1;
    var u := Recount(s, r.key, n);
    RecountKeeps(p, s, r.key, n);
    assert u.entries[r.key].locked && u.entries[r.key].attempts == n < p.threshold;
    UnlockKeeps(p, u, r.key);
    assert TakeBack(s, r) == Unlock(u, r.key);
  }

  lemma TakeBackKeeps(p: Policy, s: State, r: Reservation)
    requires Inv(p, s) && Current(s, r)
    ensures Inv(p, TakeBack(s, r))
  {
    var e := s.entries[r.key];
    if e.attempts == 1 && (!e.locked || r.engaged) {
      ForgetKeeps(p, s, r);
    } else if e.locked && r.engaged {
      LiftKeeps(p, s, r);
    } else {
      LowerKeeps(p, s, r);
    }
  }

  lemma CancelKeeps(p: Policy, s: State, r: Reservation)
    requires Inv(p, s)
    ensures Inv(p, Cancel(p, s, r)) && Cancel(p, s, r).latest == s.latest
  {
    ExpireIdle(p, s);
    if Current(s, r) {
      TakeBackKeeps(p, s, r);
    }
  }

  lemma InOneList(p: Policy, s: State, k: Key)
    requires Inv(p, s) && k in s.entries && !s.entries[k].locked
    ensures k !in s.locks
  {
  }

  /** Refund takes one attempt off an unlocked key, forgets the key when none is left, and does nothing else. */
  lemma RefundExactly(p: Policy, s: State, k: Key)
    requires Inv(p, s)
    ensures var t := Refund(s, k);
            && (k !in s.entries || s.entries[k].locked || s.entries[k].attempts == 0 ==> t == s)
            && (k in s.entries && !s.entries[k].locked && s.entries[k].attempts == 1 ==>
                  k !in t.entries && t.entries == s.entries - {k} && k !in t.counting && t.locks == s.locks)
            && (k in s.entries && !s.entries[k].locked && s.entries[k].attempts !in {0, 1} ==>
                  && t.entries == s.entries[k := t.entries[k]]
                  && t.entries[k] == s.entries[k].(attempts := s.entries[k].attempts - 1)
                  && t.counting == s.counting && t.locks == s.locks)
            && t.latest == s.latest && t.nextEpoch == s.nextEpoch
  {
    hide Inv, Without;
    if k in s.entries && !s.entries[k].locked {
      InOneList(p, s, k);
      WithoutAbsent(s.locks, k);
      WithoutMembers(s.counting, k);
    }
  }

  lemma RefundKeeps(p: Policy, s: State, k: Key)
    requires Inv(p, s)
    ensures Inv(p, Refund(s, k)) && Refund(s, k).latest == s.latest
  {
    if k in s.entries && !s.entries[k].locked && s.entries[k].attempts != 0 {
      RecountKeeps(p, s, k, s.entries[k].attempts - 1);
      RemoveKeeps(p, Recount(s, k, s.entries[k].attempts - 1), k);
    }
  }

  lemma ResetKeeps(p: Policy, s: State, k: Key)
    requires Inv(p, s)
    ensures Inv(p, Reset(s, k)) && k !in Reset(s, k).entries && Reset(s, k).latest == s.latest
  {
    RemoveKeeps(p, s, k);
  }
}
