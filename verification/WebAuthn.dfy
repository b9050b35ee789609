/**
 The counter a passkey leaves behind, identity/adapter/webauthn_postgres.go: a guarded update whose
 outcome must not depend on the order concurrent assertions reach the row.
 */
module WebAuthn {
  import opened Seqs

  datatype Assertion = Assertion(usedAt: int, signCount: nat)

  /** A stored credential; it has no last use until its first assertion. */
  datatype Credential = Credential(signCount: nat, lastUsed: Option<int>)

  /** First by time, then by counter. */
  predicate AtMost(a: Assertion, b: Assertion) {
    a.usedAt < b.usedAt || (a.usedAt == b.usedAt && a.signCount <= b.signCount)
  }

  /** The WHERE clause of the update. */
  predicate Takes(c: Credential, a: Assertion) {
    c.lastUsed.None? || c.lastUsed.value < a.usedAt || (c.lastUsed.value == a.usedAt && c.signCount <= a.signCount)
  }

  function After(c: Credential, a: Assertion): Credential {
    if Takes(c, a) then Credential(a.signCount, Some(a.usedAt)) else c
  }

  /** The assertions in the order they reach the row. */
  function AfterAll(c: Credential, run: seq<Assertion>): Credential
    decreases |run|
  {
    if run == [] then c else AfterAll(After(c, run[0]), run[1..])
  }

  datatype Reply = Recorded | NotFound

  class Credentials {
    var rows: map<string, Credential>

    constructor ()
      ensures rows == map[]
    {
      rows := map[];
    }

    /** Create's unique credential id. */
    method Create(id: string, signCount: nat) returns (fresh_: bool)
      modifies this
      ensures fresh_ == (id !in old(rows))
      ensures rows == if fresh_ then old(rows)[id := Credential(signCount, None)] else old(rows)
    {
      fresh_ := id !in rows;
      if fresh_ {
        rows := rows[id := Credential(signCount, None)];
      }
    }

    /** A skipped write is not an error; only a missing row is. */
    method UpdateAfterAssertion(id: string, a: Assertion) returns (r: Reply)
      modifies this
      ensures r == NotFound <==> id !in old(rows)
      ensures rows == if id in old(rows) then old(rows)[id := After(old(rows)[id], a)] else old(rows)
    {
      if id in rows && Takes(rows[id], a) {
        rows := rows[id := Credential(a.signCount, Some(a.usedAt))];
        return Recorded;
      }
      var exists_ := id in rows;
      r := if exists_ then Recorded else NotFound;
      assert id in rows ==> rows == rows[id := rows[id]];
    }
  }

  /** The greatest of some assertions, and one of them. */
  predicate Greatest(a: Assertion, run: seq<Assertion>) {
    a in run && forall i :: 0 <= i < |run| ==> AtMost(run[i], a)
  }

  function Shows(a: Assertion): Credential {
    Credential(a.signCount, Some(a.usedAt))
  }

  lemma {:induction false} FromUsed(a: Assertion, run: seq<Assertion>) returns (top: Assertion)
    ensures Greatest(top, [a] + run) && AfterAll(Shows(a), run) == Shows(top)
    decreases |run|
  {
    if run == [] {
      top := a;
    } else {
      var next := if AtMost(a, run[0]) then run[0] else a;
      top := FromUsed(next, run[1..]);
      assert ([a] + run)[0] == a && ([a] + run)[1] == run[0];
      assert top in [next] + run[1..];
      assert AtMost(([next] + run[1..])[0], top);
      forall i | 0 <= i < |[a] + run| ensures AtMost(([a] + run)[i], top) {
        if i >= 2 {
          assert ([a] + run)[i] == ([next] + run[1..])[i - 1];
        }
      }
    }
  }

  /**
   After any assertions on a fresh credential, in any order, the row shows the lexicographic maximum
   of the submitted (time, counter) pairs.
   */
  lemma FreshShowsGreatest(signCount: nat, run: seq<Assertion>) returns (top: Assertion)
    requires run != []
    ensures Greatest(top, run) && AfterAll(Credential(signCount, None), run) == Shows(top)
  {
    top := FromUsed(run[0], run[1..]);
    assert [run[0]] + run[1..] == run;
  }

  /** Two orders of the same assertions leave the same row. */
  lemma OrderDoesNotMatter(signCount: nat, run: seq<Assertion>, other: seq<Assertion>)
    requires run != [] && multiset(run) == multiset(other)
    ensures AfterAll(Credential(signCount, None), run) == AfterAll(Credential(signCount, None), other)
  {
    assert run[0] in multiset(run);
    var top := FreshShowsGreatest(signCount, run);
    var last := FreshShowsGreatest(signCount, other);
    assert top in multiset(run) && last in multiset(other);
    var i :| 0 <= i < |other| && other[i] == top;
    var j :| 0 <= j < |run| && run[j] == last;
    assert AtMost(other[i], last) && AtMost(run[j], top);
  }

  /** The stored pair never goes back. */
  predicate NotBefore(c: Credential, d: Credential) {
    c.lastUsed.Some? ==> d.lastUsed.Some? && AtMost(Assertion(c.lastUsed.value, c.signCount), Assertion(d.lastUsed.value, d.signCount))
  }

  lemma {:induction false} NeverDecreases(c: Credential, run: seq<Assertion>, more: seq<Assertion>)
    ensures NotBefore(AfterAll(c, run), AfterAll(c, run + more))
    decreases |run| + |more|
  {
    if run != [] {
      NeverDecreases(After(c, run[0]), run[1..], more);
      assert (run + more)[1..] == run[1..] + more;
    } else if more != [] {
      assert run + more == more;
      var next := After(c, more[0]);
      NeverDecreases(next, [], more[1..]);
      assert [] + more[1..] == more[1..];
      assert NotBefore(c, next);
    }
  }
}
