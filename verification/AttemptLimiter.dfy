/**
 The limiter itself: a table of mutable entries and two recency lists that are expired from
 their backs. The ghost field `state` is the limiter's meaning in LimiterModel's terms, and
 every public method changes it exactly as LimiterModel says.
 */
module AttemptLimiter {
  import opened Seqs
  import M = LimiterModel

  /** What the limiter remembers of a key; the `locked` flag says which list it is on. */
  class Entry {
    const key: M.Key
    const epoch: nat
    var attempts: int
    var locked: bool
    var lockedUntil: M.Time
    var lastActivity: M.Time

    constructor (key: M.Key, epoch: nat)
      ensures this.key == key && Value() == M.Record(epoch, 0, false, 0, 0)
    {
      this.key, this.epoch := key, epoch;
      attempts, locked, lockedUntil, lastActivity := 0, false, 0, 0;
    }

    ghost function Value(): M.Record
      reads this
    {
      M.Record(epoch, attempts, locked, lockedUntil, lastActivity)
    }
  }

  /** l lists the entries of the keys ks, in order. */
  ghost predicate Lists(m: map<M.Key, Entry>, l: seq<Entry>, ks: seq<M.Key>) {
    && |l| == |ks|
    && (forall i :: 0 <= i < |l| ==> ks[i] in m && l[i] == m[ks[i]])
  }

  /** The distinct keys of m name distinct entries. */
  ghost predicate Keyed(m: map<M.Key, Entry>) {
    forall k :: k in m ==> m[k].key == k
  }

  /** The entries hold what the records say. */
  ghost predicate Shows(m: map<M.Key, Entry>, records: map<M.Key, M.Record>)
    reads m.Values
  {
    m.Keys == records.Keys && forall k :: k in m ==> m[k].Value() == records[k]
  }

  /** The entries other than e hold what the records say: writing to e cannot change that. */
  ghost predicate OthersShow(m: map<M.Key, Entry>, records: map<M.Key, M.Record>, e: Entry)
    reads m.Values - {e}
  {
    m.Keys == records.Keys && forall k :: k in m && m[k] != e ==> m[k].Value() == records[k]
  }

  lemma Before(m: map<M.Key, Entry>, records: map<M.Key, M.Record>, e: Entry)
    requires Shows(m, records)
    ensures OthersShow(m, records, e)
    ensures e.key in m && m[e.key] == e ==> e.key in records && records[e.key] == e.Value()
  {
  }

  /** Once e was rewritten, its record follows it. */
  lemma After(m: map<M.Key, Entry>, records: map<M.Key, M.Record>, e: Entry)
    requires Keyed(m) && OthersShow(m, records, e) && e.key in m && m[e.key] == e
    ensures Shows(m, records[e.key := e.Value()])
  {
  }

  lemma ShowsNew(m: map<M.Key, Entry>, records: map<M.Key, M.Record>, e: Entry)
    requires Keyed(m) && Shows(m, records) && e.key !in m
    ensures Keyed(m[e.key := e]) && Shows(m[e.key := e], records[e.key := e.Value()])
  {
  }

  /** Taking k's entry out of a list takes k out of its keys. */
  lemma {:induction false} ListsWithout(m: map<M.Key, Entry>, l: seq<Entry>, ks: seq<M.Key>, k: M.Key)
    requires Keyed(m) && Lists(m, l, ks) && k in m
    ensures Lists(m - {k}, Without(l, m[k]), Without(ks, k))
    ensures Lists(m, Without(l, m[k]), Without(ks, k))
  {
    if l != [] {
      ListsWithout(m, l[1..], ks[1..], k);
    }
  }

  /** Unlisting k from the one list that holds it gives both lists of the table without k. */
  lemma ListsRemove(m: map<M.Key, Entry>, counting: seq<Entry>, locks: seq<Entry>, s: M.State, k: M.Key)
    requires Keyed(m) && k in m && k in s.entries
    requires if s.entries[k].locked then k !in s.counting else k !in s.locks
    requires Lists(m, counting, s.counting) && Lists(m, locks, s.locks)
    ensures var t := M.Remove(s, k);
            if s.entries[k].locked then Lists(m - {k}, counting, t.counting) && Lists(m - {k}, Without(locks, m[k]), t.locks)
            else Lists(m - {k}, Without(counting, m[k]), t.counting) && Lists(m - {k}, locks, t.locks)
  {
    ListsWithout(m, counting, s.counting, k);
    ListsWithout(m, locks, s.locks, k);
    if s.entries[k].locked {
      WithoutAbsent(s.counting, k);
      ListsStay(m, counting, s.counting, k);
    } else {
      WithoutAbsent(s.locks, k);
      ListsStay(m, locks, s.locks, k);
    }
  }

  lemma ListsFront(m: map<M.Key, Entry>, l: seq<Entry>, ks: seq<M.Key>, k: M.Key)
    requires Lists(m, l, ks) && k in m
    ensures Lists(m, [m[k]] + l, [k] + ks)
  {
  }

  lemma ListsNew(m: map<M.Key, Entry>, l: seq<Entry>, ks: seq<M.Key>, k: M.Key, e: Entry)
    requires Lists(m, l, ks) && k !in m
    ensures Lists(m[k := e], l, ks)
  {
  }

  lemma ListsStay(m: map<M.Key, Entry>, l: seq<Entry>, ks: seq<M.Key>, k: M.Key)
    requires Lists(m, l, ks) && k !in ks
    ensures Lists(m - {k}, l, ks)
  {
  }

  /** What both expiry loops keep: the full scan still lies ahead, and each look dropped one entry. */
  ghost predicate Expiring(p: M.Policy, s: M.State, now: M.Time, goal: M.State, looked: int, total: int) {
    && M.Ordered(s)
    && (forall k :: k in s.entries && s.entries[k].locked ==>
          s.entries[k].lockedUntil == s.entries[k].lastActivity + p.window)
    && M.Expire(p, s, now) == goal
    && looked + |s.entries| == total
  }

  lemma ExpiringStep(p: M.Policy, s: M.State, now: M.Time, goal: M.State, looked: int, total: int, k: M.Key)
    requires Expiring(p, s, now, goal, looked, total) && k in s.entries && M.Expired(p, s.entries[k], now)
    ensures Expiring(p, M.Remove(s, k), now, goal, looked + 1, total)
  {
    M.ExpireRemove(p, s, k, now);
    M.OrderedRemove(s, k);
    assert M.Remove(s, k).entries.Keys == s.entries.Keys - {k};
  }

  /** No key of the list is overdue. */
  ghost predicate Fresh(p: M.Policy, s: M.State, ks: seq<M.Key>, now: M.Time) {
    forall i :: 0 <= i < |ks| ==> ks[i] in s.entries && !M.Expired(p, s.entries[ks[i]], now)
  }

  lemma ExpiringLeft(p: M.Policy, s: M.State, now: M.Time, goal: M.State, looked: int, total: int)
    requires Expiring(p, s, now, goal, looked, total)
    ensures M.Ordered(s) && forall k :: k in s.entries ==> looked < total
  {
  }

  /** An entry newer than one that is not overdue is not overdue. */
  lemma NewerIsFresh(p: M.Policy, older: M.Record, newer: M.Record, now: M.Time)
    requires older.locked == newer.locked && older.lastActivity <= newer.lastActivity && !M.Expired(p, older, now)
    requires older.locked ==> older.lockedUntil == older.lastActivity + p.window
    requires newer.locked ==> newer.lockedUntil == newer.lastActivity + p.window
    ensures !M.Expired(p, newer, now)
  {
  }

  /** Two of a list's entries, the later of them no newer. */
  lemma ListedInOrder(s: M.State, locked: bool, i: nat, j: nat)
    requires M.Ordered(s) && i <= j < |if locked then s.locks else s.counting|
    ensures var ks := if locked then s.locks else s.counting;
            && ks[i] in s.entries && ks[j] in s.entries
            && s.entries[ks[i]].locked == s.entries[ks[j]].locked == locked
            && s.entries[ks[j]].lastActivity <= s.entries[ks[i]].lastActivity
  {
    hide NoDups;
    var ks := if locked then s.locks else s.counting;
    assert M.Recency(s.entries, ks, locked);
    assert ks[i] in ks && ks[j] in ks;
  }

  /** The back of an ordered list is its oldest entry, so a fresh back means a fresh list. */
  lemma BackDecides(p: M.Policy, s: M.State, now: M.Time, goal: M.State, looked: int, total: int, locked: bool)
    requires Expiring(p, s, now, goal, looked, total)
    requires var ks := if locked then s.locks else s.counting;
             ks != [] ==> ks[|ks| - 1] in s.entries && !M.Expired(p, s.entries[ks[|ks| - 1]], now)
    ensures Fresh(p, s, if locked then s.locks else s.counting, now)
  {
    hide M.Expire, M.Ordered, M.Expired;
    var ks := if locked then s.locks else s.counting;
    forall i | 0 <= i < |ks| ensures ks[i] in s.entries && !M.Expired(p, s.entries[ks[i]], now) {
      ListedInOrder(s, locked, i, |ks| - 1);
      NewerIsFresh(p, s.entries[ks[|ks| - 1]], s.entries[ks[i]], now);
    }
  }

  /** Dropping a lockout leaves the counting list fresh. */
  lemma FreshStays(p: M.Policy, s: M.State, k: M.Key, now: M.Time)
    requires Fresh(p, s, s.counting, now) && k !in s.counting
    ensures M.Remove(s, k).counting == s.counting
    ensures Fresh(p, M.Remove(s, k), s.counting, now)
  {
    WithoutAbsent(s.counting, k);
  }

  lemma WithinValues(m: map<M.Key, Entry>, n: map<M.Key, Entry>)
    requires Within(m, n)
    ensures m.Values <= n.Values
  {
  }

  lemma WithinChain(a: map<M.Key, Entry>, b: map<M.Key, Entry>, c: map<M.Key, Entry>)
    requires Within(a, b) && Within(b, c)
    ensures Within(a, c)
  {
  }

  lemma WithinLess(a: map<M.Key, Entry>, k: M.Key)
    ensures Within(a - {k}, a)
  {
  }

  lemma WithinSelf(a: map<M.Key, Entry>)
    ensures Within(a, a)
  {
  }

  /** m holds some of n's entries. */
  ghost predicate Within(m: map<M.Key, Entry>, n: map<M.Key, Entry>) {
    forall k :: k in m ==> k in n && m[k] == n[k]
  }

  /** Once both lists are fresh the loops have reached the full scan's result. */
  lemma ExpiringDone(p: M.Policy, s: M.State, now: M.Time, goal: M.State, looked: int, total: int)
    requires Expiring(p, s, now, goal, looked, total)
    requires Fresh(p, s, s.counting, now) && Fresh(p, s, s.locks, now)
    ensures s == goal && looked + |s.entries| == total
  {
    M.ExpireNone(p, s, now);
  }

  lemma ExpiringStart(p: M.Policy, s: M.State, now: M.Time)
    requires M.Inv(p, s)
    ensures var u := s.(latest := now);
            Expiring(p, u, now, M.Expire(p, u, now), 0, |u.entries|)
  {
  }

  /** No key is on both lists. */
  lemma NotInBoth(p: M.Policy, s: M.State, k: M.Key)
    requires M.Inv(p, s) && k in s.entries
    ensures if s.entries[k].locked then k !in s.counting else k !in s.locks
  {
  }

  class AttemptLimiter {
    const policy: M.Policy
    var entries: map<M.Key, Entry>
    var nextEpoch: nat
    var latest: M.Time
    var counting: seq<Entry>
    var locks: seq<Entry>
    ghost var state: M.State
    /** How many list elements the expiry loops have looked at. */
    ghost var looked: int

    /** The fields hold what `state` says. */
    ghost predicate Tied()
      reads `entries, `nextEpoch, `latest, `counting, `locks, `state, entries.Values
    {
      && Keyed(entries)
      && Shows(entries, state.entries)
      && Lists(entries, counting, state.counting)
      && Lists(entries, locks, state.locks)
      && nextEpoch == state.nextEpoch
      && latest == state.latest
    }

    ghost predicate Valid()
      reads `entries, `nextEpoch, `latest, `counting, `locks, `state, entries.Values
    {
      Tied() && M.Inv(policy, state) && latest == state.latest
    }

    /** An empty limiter enforcing p. */
    constructor (p: M.Policy)
      requires p.Valid()
      ensures Valid() && policy == p && state == M.EMPTY && looked == 0 && entries == map[]
    {
      policy := p;
      entries, counting, locks := map[], [], [];
      nextEpoch, latest, looked := 0, 0, 0;
      state := M.EMPTY;
    }

    predicate IdleForAWindow(e: Entry, now: M.Time)
      reads e
    {
      e.lastActivity <= now - policy.window
    }

    /** Delete e from the table and from whichever list holds it. */
    method RemoveLocked(e: Entry)
      requires Tied() && e.key in entries && entries[e.key] == e
      requires if e.locked then e.key !in state.counting else e.key !in state.locks
      modifies this`entries, this`counting, this`locks, this`state
      ensures Tied()
      ensures entries == old(entries) - {e.key} && state == M.Remove(old(state), e.key)
    {
      hide Without, Lists;
      ListsRemove(entries, counting, locks, state, e.key);
      if e.locked {
        locks := Without(locks, e);
      } else {
        counting := Without(counting, e);
      }
      entries := entries - {e.key};
      state := M.Remove(state, e.key);
    }

    /** The entry at the back of a list, in `state`'s terms. */
    lemma Back(locked: bool)
      requires Tied() && M.Ordered(state) && (if locked then locks != [] else counting != [])
      ensures var l := if locked then locks else counting;
              var ks := if locked then state.locks else state.counting;
              var e := l[|l| - 1];
              && |ks| == |l| && ks[|ks| - 1] == e.key
              && e.key in entries && entries[e.key] == e && e.key in state.entries
              && e.Value() == state.entries[e.key]
              && e.locked == locked
              && (if locked then e.key !in state.counting else e.key !in state.locks)
    {
      var ks := if locked then state.locks else state.counting;
      assert ks[|ks| - 1] in ks;
    }

    lemma Lengths()
      requires Tied()
      ensures |counting| == |state.counting| && |locks| == |state.locks| && |entries| == |state.entries|
    {
      assert |entries.Keys| == |state.entries.Keys|;
    }

    /** Drop the overdue entry e that a loop found at the back of its list, after n others. */
    method DropOverdue(e: Entry, now: M.Time, ghost goal: M.State, ghost n: int, ghost total: int)
      requires Tied() && Expiring(policy, state, now, goal, n, total)
      requires e.key in entries && entries[e.key] == e
      requires e.key in state.entries && M.Expired(policy, state.entries[e.key], now)
      requires if e.locked then e.key !in state.counting else e.key !in state.locks
      modifies this`entries, this`counting, this`locks, this`state
      ensures Tied() && Expiring(policy, state, now, goal, n + 1, total)
      ensures entries == old(entries) - {e.key} && state == M.Remove(old(state), e.key)
    {
      hide *;
      ExpiringStep(policy, state, now, goal, n, total, e.key);
      RemoveLocked(e);
    }

    /** Drop an overdue lockout: the counting list is none the staler. */
    method DropLockout(e: Entry, now: M.Time, ghost goal: M.State, ghost n: int, ghost total: int)
      requires Tied() && Expiring(policy, state, now, goal, n, total) && Fresh(policy, state, state.counting, now)
      requires e.key in entries && entries[e.key] == e && e.locked
      requires e.key in state.entries && M.Expired(policy, state.entries[e.key], now)
      requires e.key !in state.counting
      modifies this`entries, this`counting, this`locks, this`state
      ensures Tied() && Expiring(policy, state, now, goal, n + 1, total) && Fresh(policy, state, state.counting, now)
      ensures Within(entries, old(entries)) && state.counting == old(state.counting)
    {
      hide Tied, Expiring, Fresh, M.Remove, M.Expired;
      FreshStays(policy, state, e.key, now);
      DropOverdue(e, now, goal, n, total);
    }

    /** Drop overdue unlocked entries, oldest first: n of them, after `looks` looks at the back. */
    method ExpireCounting(now: M.Time, ghost goal: M.State, ghost total: int)
      returns (ghost n: int, ghost looks: int)
      requires Tied() && Expiring(policy, state, now, goal, 0, total)
      modifies this`entries, this`counting, this`locks, this`state
      ensures Tied() && Within(entries, old(entries))
      ensures Fresh(policy, state, state.counting, now)
      ensures Expiring(policy, state, now, goal, n, total)
      ensures looks == n + (if state.counting != [] then 1 else 0)
    {
      hide Expiring, Fresh, Tied, Within, M.Ordered;
      n, looks := 0, 0;
      ghost var all := entries;
      WithinSelf(all);
      while |counting| > 0
        invariant Tied() && Within(entries, all)
        invariant Expiring(policy, state, now, goal, n, total) && looks == n
        decreases total - n
      {
        var e := counting[|counting| - 1];
        looks := looks + 1;
        ExpiringLeft(policy, state, now, goal, n, total);
        Back(false);
        if !IdleForAWindow(e, now) {
          BackDecides(policy, state, now, goal, n, total, false);
          return;
        }
        WithinLess(entries, e.key);
        WithinChain(entries - {e.key}, entries, all);
        DropOverdue(e, now, goal, n, total);
        n := n + 1;
      }
      Lengths();
      BackDecides(policy, state, now, goal, n, total, false);
    }

    /** Drop overdue lockouts, oldest first, until n entries are gone in all. */
    method ExpireLocks(now: M.Time, ghost goal: M.State, ghost m: int, ghost total: int)
      returns (ghost n: int, ghost looks: int)
      requires Tied() && Expiring(policy, state, now, goal, m, total)
      requires Fresh(policy, state, state.counting, now)
      modifies this`entries, this`counting, this`locks, this`state
      ensures Tied() && Within(entries, old(entries))
      ensures state == goal && n + |goal.entries| == total && goal.counting == old(state.counting)
      ensures looks == n - m + (if goal.locks != [] then 1 else 0)
    {
      hide Expiring, Fresh, Tied, Within, M.Ordered, M.Remove;
      n, looks := m, 0;
      ghost var all := entries;
      WithinSelf(all);
      while |locks| > 0
        invariant Tied() && Within(entries, all)
        invariant Fresh(policy, state, state.counting, now) && state.counting == old(state.counting)
        invariant Expiring(policy, state, now, goal, n, total) && looks == n - m
        decreases total - n
      {
        var e := locks[|locks| - 1];
        looks := looks + 1;
        ExpiringLeft(policy, state, now, goal, n, total);
        Back(true);
        if now < e.lockedUntil {
          break;
        }
        ghost var before := entries;
        DropLockout(e, now, goal, n, total);
        WithinChain(entries, before, all);
        n := n + 1;
      }
      Lengths();
      BackDecides(policy, state, now, goal, n, total, true);
      ExpiringDone(policy, state, now, goal, n, total);
    }

    /** Drop overdue entries from the back of each list: the same ones a full scan would drop. */
    method ExpireLocked(now: M.Time) returns (ghost looks: int)
      requires Tied() && Expiring(policy, state, now, M.Expire(policy, state, now), 0, |state.entries|)
      modifies this`entries, this`counting, this`locks, this`state
      ensures Tied() && Within(entries, old(entries))
      ensures state == M.Expire(policy, old(state), now)
      ensures looks == M.Looks(policy, old(state), now)
    {
      hide M.Expire, Expiring, Fresh, Tied;
      ghost var goal, total := M.Expire(policy, state, now), |state.entries|;
      ghost var m, first := ExpireCounting(now, goal, total);
      ghost var n, second := ExpireLocks(now, goal, m, total);
      looks := first + second;
    }

    /** Record now as the newest time and expire what it has aged out. */
    method ObserveLocked(now: M.Time) returns (ghost looks: int)
      requires Valid() && latest <= now
      modifies this`entries, this`counting, this`locks, this`latest, this`state
      ensures Valid() && Within(entries, old(entries))
      ensures state == M.Observe(policy, old(state), now) && state.latest == now
      ensures looks == M.Looks(policy, old(state).(latest := now), now)
    {
      hide M.Inv, M.Expire, M.Looks, Expiring, Lists, Keyed;
      M.ObserveKeeps(policy, state, now);
      ExpiringStart(policy, state, now);
      if now > latest {
        latest := now;
      }
      state := state.(latest := now);
      looks := ExpireLocked(now);
    }

    /** The expiry Cancel runs: it has no clock of its own. */
    method ExpireLatest() returns (ghost looks: int)
      requires Valid()
      modifies this`entries, this`counting, this`locks, this`state
      ensures Valid() && Within(entries, old(entries))
      ensures state == M.Expire(policy, old(state), latest)
      ensures looks == M.Looks(policy, old(state), latest)
    {
      hide M.Inv, M.Expire, M.Looks, Expiring, Lists, Keyed;
      M.ExpireIdle(policy, state);
      ExpiringStart(policy, state, latest);
      looks := ExpireLocked(latest);
    }

    predicate SaturatedLocked()
      requires Tied()
      reads `entries, `nextEpoch, `latest, `counting, `locks, `state, entries.Values
      ensures SaturatedLocked() == M.Saturated(policy, state)
    {
      Lengths();
      |entries| >= policy.maxKeys && |counting| == 0
    }

    /** A full table gives up its oldest unlocked key, if it has one. */
    method MakeRoomLocked() returns (ok: bool)
      requires Valid()
      modifies this`entries, this`counting, this`locks, this`state
      ensures Valid() && Within(entries, old(entries))
      ensures ok == !M.Saturated(policy, old(state))
      ensures state == if ok then M.MakeRoom(policy, old(state)) else old(state)
    {
      hide M.Recency, M.Sound, M.Remove, Keyed, Shows, Lists;
      Lengths();
      if |entries| < policy.maxKeys {
        return true;
      }
      if |counting| == 0 {
        return false;
      }
      var back := counting[|counting| - 1];
      Back(false);
      M.MakeRoomKeeps(policy, state);
      RemoveLocked(back);
      return true;
    }

    /** Reports, without counting anything, whether an attempt would be denied. */
    method Locked(key: M.Key, now: M.Time) returns (denied: bool)
      requires Valid() && latest <= now
      modifies this
      ensures Valid() && Within(entries, old(entries))
      ensures (state, denied) == M.Locked(policy, old(state), key, now)
      ensures looked == old(looked) + M.Looks(policy, old(state).(latest := now), now)
    {
      hide M.Inv, M.Observe, M.Looks, M.Saturated, Lists, Keyed;
      ghost var looks := ObserveLocked(now);
      looked := looked + looks;
      if key !in entries {
        return SaturatedLocked();
      }
      return entries[key].locked && now < entries[key].lockedUntil;
    }

    /** Start tracking key with a new epoch. */
    method Admit(key: M.Key) returns (e: Entry)
      requires Tied() && key !in entries
      modifies this`entries, this`counting, this`nextEpoch, this`state
      ensures Tied() && state == M.Admit(old(state), key)
      ensures fresh(e) && entries == old(entries)[key := e]
    {
      hide Lists, Shows, Keyed;
      nextEpoch := nextEpoch + 1;
      e := new Entry(key, nextEpoch);
      ListsNew(entries, counting, state.counting, key, e);
      ListsNew(entries, locks, state.locks, key, e);
      ShowsNew(entries, state.entries, e);
      ListsFront(entries[key := e], counting, state.counting, key);
      counting := [e] + counting;
      entries := entries[key := e];
      state := M.Admit(state, key);
    }

    /** Move e to the front of the counting list. */
    method MoveToFront(e: Entry)
      requires Tied() && e.key in entries && entries[e.key] == e
      modifies this`counting, this`state
      ensures Tied() && state == old(state).(counting := [e.key] + Without(old(state).counting, e.key))
    {
      hide Without, Lists;
      ListsWithout(entries, counting, state.counting, e.key);
      ListsFront(entries, Without(counting, e), Without(state.counting, e.key), e.key);
      counting := [e] + Without(counting, e);
      state := state.(counting := [e.key] + Without(state.counting, e.key));
    }

    /** Move e to the lockout list until one window after now. */
    method LockLocked(e: Entry, now: M.Time)
      requires Tied() && e.key in entries && entries[e.key] == e
      modifies this`counting, this`locks, this`state, e
      ensures Tied() && state == M.Lock(policy, old(state), e.key, now)
    {
      hide Without, Lists, Shows, OthersShow, Keyed;
      Before(entries, state.entries, e);
      ListsWithout(entries, counting, state.counting, e.key);
      ListsFront(entries, locks, state.locks, e.key);
      counting := Without(counting, e);
      e.locked := true;
      e.lockedUntil := now + policy.window;
      After(entries, state.entries, e);
      locks := [e] + locks;
      state := M.Lock(policy, state, e.key, now);
    }

    /** Count one attempt on a tracked entry, locking it when it used its budget. */
    method CountAttempt(e: Entry, now: M.Time) returns (outcome: M.Outcome, r: M.Reservation)
      requires Tied() && e.key in entries && entries[e.key] == e
      modifies this`counting, this`locks, this`state, e
      ensures Tied() && (state, outcome, r) == M.Count(policy, old(state), e.key, now)
    {
      e.attempts := e.attempts + 1;
      e.lastActivity := now;
      state := M.Stamp(state, e.key, now);
      hide Lists, Keyed, M.Lock;
      if e.attempts < policy.threshold {
        MoveToFront(e);
        outcome, r := M.Allowed, M.Reservation(e.key, e.epoch, false);
      } else {
        LockLocked(e, now);
        outcome, r := M.AllowedLastAttempt, M.Reservation(e.key, e.epoch, true);
      }
    }

    /** Track a new key, displacing another if the table is full; null when it may not. */
    method Track(key: M.Key) returns (e: Entry?)
      requires Valid() && key !in entries
      modifies this`entries, this`counting, this`locks, this`nextEpoch, this`state
      ensures Tied() && (e == null <==> M.Saturated(policy, old(state)))
      ensures state == if e == null then old(state) else M.Admit(M.MakeRoom(policy, old(state)), key)
      ensures e != null ==> fresh(e) && key in entries && entries[key] == e
      ensures forall k :: k in entries && k != key ==> k in old(entries) && entries[k] == old(entries)[k]
    {
      hide M.MakeRoom, M.Saturated, M.Admit, Lists;
      var ok := MakeRoomLocked();
      if !ok {
        return null;
      }
      e := Admit(key);
    }

    /** Reserve after the clock is observed. */
    method TryCount(key: M.Key, now: M.Time) returns (outcome: M.Outcome, r: M.Reservation)
      requires Valid()
      modifies this`entries, this`counting, this`locks, this`nextEpoch, this`state, entries.Values
      ensures Tied() && fresh(entries.Values - old(entries.Values))
      ensures (state, outcome, r) == M.TryCount(policy, old(state), key, now)
    {
      hide M.Inv, M.MakeRoom, M.Saturated, M.Admit, M.Count, Lists;
      var e: Entry;
      if key !in entries {
        var tracked := Track(key);
        if tracked == null {
          return M.Denied, M.NO_RESERVATION;
        }
        e := tracked;
      } else {
        e := entries[key];
        if e.locked && now < e.lockedUntil {
          return M.Denied, M.NO_RESERVATION;
        }
      }
      outcome, r := CountAttempt(e, now);
    }

    method Reserve(key: M.Key, now: M.Time) returns (outcome: M.Outcome, r: M.Reservation)
      requires Valid() && latest <= now
      modifies this, entries.Values
      ensures Valid() && fresh(entries.Values - old(entries.Values))
      ensures (state, outcome, r) == M.Reserve(policy, old(state), key, now)
      ensures looked == old(looked) + M.Looks(policy, old(state).(latest := now), now)
    {
      hide M.Inv, M.Observe, M.Looks, M.TryCount, Tied, Within;
      M.ReserveKeeps(policy, state, key, now);
      ghost var before := entries;
      ghost var looks := ObserveLocked(now);
      WithinValues(entries, before);
      assert entries.Values <= before.Values;
      outcome, r := TryCount(key, now);
      looked := looked + looks;
    }

    /** Return e to the counting list, stamped with the newest time seen. */
    method UnlockLocked(e: Entry)
      requires Tied() && e.key in entries && entries[e.key] == e
      modifies this`counting, this`locks, this`state, e
      ensures Tied() && state == M.Unlock(old(state), e.key)
    {
      hide Without, Lists, Shows, OthersShow, Keyed;
      Before(entries, state.entries, e);
      ListsWithout(entries, locks, state.locks, e.key);
      ListsFront(entries, counting, state.counting, e.key);
      locks := Without(locks, e);
      e.locked := false;
      e.lockedUntil := 0;
      e.lastActivity := latest;
      After(entries, state.entries, e);
      counting := [e] + counting;
      state := M.Unlock(state, e.key);
    }

    /** Take one off e's count. */
    method Uncount(e: Entry)
      requires Tied() && e.key in entries && entries[e.key] == e
      modifies this`state, e
      ensures Tied() && state == M.Recount(old(state), e.key, old(state).entries[e.key].attempts - 1)
      ensures e.Value() == old(e.Value()).(attempts := old(e.attempts) - 1)
    {
      hide Lists, Shows, OthersShow, Keyed;
      Before(entries, state.entries, e);
      M.RecountShape(state, e.key, e.attempts - 1);
      e.attempts := e.attempts - 1;
      After(entries, state.entries, e);
      state := M.Recount(state, e.key, e.attempts);
    }

    /** What Cancel does with the entry its reservation names. */
    method TakeBack(e: Entry, r: M.Reservation)
      requires Valid() && M.Current(state, r) && e.key == r.key && e.key in entries && entries[e.key] == e
      modifies this`entries, this`counting, this`locks, this`state, e
      ensures Tied() && Within(entries, old(entries)) && latest == old(latest)
      ensures state == M.TakeBack(old(state), r)
    {
      hide M.Inv, Lists, Keyed, M.Recount, M.Remove, M.Unlock;
      NotInBoth(policy, state, e.key);
      Uncount(e);
      M.RecountShape(old(state), e.key, e.attempts);
      if e.locked && !r.engaged {
        return;
      }
      if e.attempts == 0 {
        RemoveLocked(e);
      } else if e.locked {
        UnlockLocked(e);
      }
    }

    /** Whether r still names a tracked entry. */
    predicate Names(r: M.Reservation)
      requires Tied()
      reads `entries, `nextEpoch, `latest, `counting, `locks, `state, entries.Values
      ensures Names(r) == M.Current(state, r)
      ensures Names(r) ==> r.key in entries && entries[r.key].key == r.key
    {
      r.key in entries && r.epoch != 0 && entries[r.key].epoch == r.epoch
    }

    method Cancel(r: M.Reservation)
      requires Valid()
      modifies this, entries.Values
      ensures Valid() && Within(entries, old(entries))
      ensures state == M.Cancel(policy, old(state), r)
      ensures looked == old(looked) + M.Looks(policy, old(state), latest)
    {
      hide M.Inv, M.Expire, M.Looks, M.TakeBack, M.Current, Tied, Names;
      M.CancelKeeps(policy, state, r);
      ghost var looks := ExpireLatest();
      if Names(r) {
        TakeBack(entries[r.key], r);
      }
      looked := looked + looks;
    }

    /** Reserve without the reservation. */
    method Attempt(key: M.Key, now: M.Time) returns (outcome: M.Outcome)
      requires Valid() && latest <= now
      modifies this, entries.Values
      ensures Valid() && fresh(entries.Values - old(entries.Values))
      ensures state == M.Reserve(policy, old(state), key, now).0
      ensures outcome == M.Reserve(policy, old(state), key, now).1
    {
      hide *;
      ghost var r;
      outcome, r := Reserve(key, now);
    }

    /** Give back one anonymous attempt of a key that is still counting. */
    method Refund(key: M.Key)
      requires Valid()
      modifies this, entries.Values
      ensures Valid() && Within(entries, old(entries))
      ensures state == M.Refund(old(state), key) && looked == old(looked)
    {
      hide M.Inv, M.Recount, M.Remove, Lists;
      M.RefundKeeps(policy, state, key);
      if key !in entries || entries[key].locked || entries[key].attempts == 0 {
        return;
      }
      NotInBoth(policy, state, key);
      var e := entries[key];
      Uncount(e);
      M.RecountShape(old(state), key, e.attempts);
      if e.attempts == 0 {
        RemoveLocked(e);
      }
    }

    /** Forget key entirely, lockout included. */
    method Reset(key: M.Key)
      requires Valid()
      modifies this
      ensures Valid() && Within(entries, old(entries)) && key !in entries
      ensures state == M.Reset(old(state), key) && looked == old(looked)
    {
      hide M.Inv, M.Remove, Lists;
      M.ResetKeeps(policy, state, key);
      if key in entries {
        NotInBoth(policy, state, key);
        RemoveLocked(entries[key]);
      }
    }
  }
}
