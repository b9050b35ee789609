/**
 Edits of a keyword/value string that must survive being read again: the splice of a new database
 name (db/dbtest/dbtest.go) and the appended certificate path (db/db.go).
 */
module ConninfoEdit {
  import opened Chars
  import opened Seqs
  import opened Conninfo

  // ----- What a scanner's stop depends on -----

  /** Both continue, and alike. */
  predicate SameHead(r: string, r': string) {
    r != "" && r' != "" && r[0] == r'[0]
  }

  lemma {:induction false} SpaceStable(u: string, r: string, r': string)
    requires SpaceLen(u + r) == |u| && SameHead(r, r')
    ensures SpaceLen(u + r') == |u|
  {
    if u == "" {
      assert u + r == r && u + r' == r';
    } else {
      DropJoin(u, r, 1);
      DropJoin(u, r', 1);
      SpaceStable(u[1..], r, r');
    }
  }

  lemma {:induction false} KeyStable(u: string, r: string, r': string)
    requires KeyLen(u + r) == |u| && SameHead(r, r')
    ensures KeyLen(u + r') == |u|
  {
    if u == "" {
      assert u + r == r && u + r' == r';
    } else {
      DropJoin(u, r, 1);
      DropJoin(u, r', 1);
      KeyStable(u[1..], r, r');
    }
  }

  lemma {:induction false} QuotedStable(u: string, r: string, r': string)
    requires QuotedLen(u + r) == |u| && SameHead(r, r')
    ensures QuotedLen(u + r') == |u|
    decreases |u|
  {
    if u != "" && u[0] == '\\' {
      assert |u| >= 2;
      DropJoin(u, r, 2);
      DropJoin(u, r', 2);
      QuotedStable(u[2..], r, r');
    } else if u != "" && u[0] != '\'' {
      DropJoin(u, r, 1);
      DropJoin(u, r', 1);
      QuotedStable(u[1..], r, r');
    }
  }

  lemma {:induction false} BareStable(u: string, r: string, r': string)
    requires BareLen(u + r) == |u| && SameHead(r, r')
    ensures BareLen(u + r') == |u|
    decreases |u|
  {
    if u == "" {
      assert u + r == r && u + r' == r';
    } else if u[0] == '\\' {
      assert |u| >= 2;
      DropJoin(u, r, 2);
      DropJoin(u, r', 2);
      BareStable(u[2..], r, r');
    } else {
      DropJoin(u, r, 1);
      DropJoin(u, r', 1);
      BareStable(u[1..], r, r');
    }
  }

  lemma ValueStable(u: string, r: string, r': string)
    requires ValueLen(u + r) == |u| && SameHead(r, r')
    ensures ValueLen(u + r') == |u|
  {
    hide QuotedLen, BareLen;
    if u == "" {
      assert u + r == r && u + r' == r';
      BareStable("", r, r');
    } else if u[0] == '\'' {
      DropJoin(u, r, 1);
      DropJoin(u, r', 1);
      QuotedStable(u[1..], r, r');
    } else {
      BareStable(u, r, r');
    }
  }

  // ----- Reading a piece back -----

  predicate Reads(p: Piece, rest: string) {
    ReadPiece(Text(p) + rest) == p
  }

  function Valued(p: Piece): string {
    if p.value.Some? then "=" + p.value.value else ""
  }

  /** A piece is read back exactly when each of its scanners stops where the part ends. */
  predicate Stops(p: Piece, rest: string) {
    && SpaceLen(p.space + (p.key + (Valued(p) + rest))) == |p.space|
    && KeyLen(p.key + (Valued(p) + rest)) == |p.key|
    && (if p.value.Some? then ValueLen(p.value.value + rest) == |p.value.value| else (rest == "" || rest[0] != '='))
  }

  /** Where the parts of a printed piece lie. */
  lemma PartsAt(p: Piece, rest: string)
    ensures var t := Text(p) + rest;
            var a, b := |p.space|, |p.space| + |p.key|;
            && b <= |t| && t[..a] == p.space && t[a..b] == p.key
            && t == p.space + (p.key + (Valued(p) + rest)) && t[a..] == p.key + (Valued(p) + rest)
            && (p.value.Some? ==> b < |t| && t[b] == '=' && t[b + 1..] == p.value.value + rest)
            && (p.value.None? ==> t[b..] == rest)
  {
    hide Text, Valued;
    var inner := Valued(p) + rest;
    TextParts(p, rest);
    StringParts(p.space, p.key, inner);
    if p.value.Some? {
      ValuedHead(p, rest);
      DropTwice(p.space + (p.key + inner), |p.space| + |p.key|, inner);
    } else {
      ValuedHead(p, rest);
    }
  }

  lemma StringParts(u: string, v: string, w: string)
    ensures var t := u + (v + w);
            t[..|u|] == u && t[|u|..] == v + w && t[|u|..|u| + |v|] == v && t[|u| + |v|..] == w
  {
  }

  lemma ValuedHead(p: Piece, rest: string)
    ensures var inner := Valued(p) + rest;
            if p.value.Some? then inner != "" && inner[0] == '=' && inner[1..] == p.value.value + rest else inner == rest
  {
  }

  lemma TextParts(p: Piece, rest: string)
    ensures Text(p) + rest == p.space + (p.key + (Valued(p) + rest))
  {
    assert Text(p) == p.space + (p.key + Valued(p));
  }

  lemma DropTwice(t: string, b: nat, inner: string)
    requires b <= |t| && t[b..] == inner && inner != ""
    ensures b < |t| && t[b] == inner[0] && t[b + 1..] == inner[1..]
  {
  }

  lemma ReadsIfStops(p: Piece, rest: string)
    ensures Reads(p, rest) <==> Stops(p, rest)
  {
    hide Reads, Stops;
    if Reads(p, rest) {
      ReadStops(p, rest);
    }
    if Stops(p, rest) {
      StopsRead(p, rest);
    }
  }

  lemma ReadStops(p: Piece, rest: string)
    requires Reads(p, rest)
    ensures Stops(p, rest)
  {
    hide SpaceLen, KeyLen, ValueLen, Text, ReadPiece;
    var t := Text(p) + rest;
    PartsAt(p, rest);
    var a := SpaceLen(t);
    assert t[0..] == t;
    PieceAt(t, 0, a, a + KeyLen(t[a..]));
    PieceLength(p);
    if p.value.None? && rest != "" {
      assert t[|p.space| + |p.key|] == t[|p.space| + |p.key|..][0];
    }
  }

  lemma StopsRead(p: Piece, rest: string)
    requires Stops(p, rest)
    ensures Reads(p, rest)
  {
    hide SpaceLen, KeyLen, ValueLen, Text, ReadPiece;
    var t := Text(p) + rest;
    PartsAt(p, rest);
    var a, b := |p.space|, |p.space| + |p.key|;
    if p.value.None? && rest != "" {
      assert t[b] == t[b..][0];
    }
    assert t[0..] == t;
    PieceAt(t, 0, a, b);
    PieceLength(p);
    SameText(p, ReadPiece(t), rest);
  }

  lemma SameText(p: Piece, q: Piece, rest: string)
    requires p.space == q.space && p.key == q.key && (p.value.Some? <==> q.value.Some?)
    requires |Text(p)| == |Text(q)| <= |Text(p) + rest| && (Text(p) + rest)[..|Text(q)|] == Text(q)
    ensures p == q
  {
    assert Text(p) == Text(q);
    if p.value.Some? {
      var head := p.space + p.key + "=";
      assert Text(p)[|head|..] == p.value.value && Text(q)[|head|..] == q.value.value;
    }
  }

  lemma StopsStable(p: Piece, r: string, r': string)
    requires Stops(p, r) && SameHead(r, r')
    ensures Stops(p, r')
  {
    hide SpaceLen, KeyLen, ValueLen;
    assert SameHead(p.key + (Valued(p) + r), p.key + (Valued(p) + r'));
    SpaceStable(p.space, p.key + (Valued(p) + r), p.key + (Valued(p) + r'));
    assert SameHead(Valued(p) + r, Valued(p) + r');
    KeyStable(p.key, Valued(p) + r, Valued(p) + r');
    if p.value.Some? {
      ValueStable(p.value.value, r, r');
    }
  }

  lemma ReadsStable(p: Piece, r: string, r': string)
    requires Reads(p, r) && SameHead(r, r')
    ensures Reads(p, r')
  {
    hide Stops, Reads;
    ReadsIfStops(p, r);
    StopsStable(p, r, r');
    ReadsIfStops(p, r');
  }

  /** Every piece is read back, with `rest` behind the last. */
  predicate ReadsAll(ps: seq<Piece>, rest: string) {
    ps == [] || (Text(ps[0]) != "" && Reads(ps[0], TextOf(ps[1..]) + rest) && ReadsAll(ps[1..], rest))
  }

  lemma ScanFirst(p: Piece, later: string)
    requires Reads(p, later) && Text(p) != ""
    ensures Scan(Text(p) + later) == [p] + Scan(later)
  {
    hide ReadPiece, Text;
    assert (Text(p) + later)[|Text(p)|..] == later;
  }

  lemma {:induction false} ScanReads(ps: seq<Piece>, rest: string)
    requires ReadsAll(ps, rest)
    ensures Scan(TextOf(ps) + rest) == ps + Scan(rest)
  {
    hide Reads, Text, Scan;
    if ps == [] {
      assert TextOf(ps) + rest == rest && ps + Scan(rest) == Scan(rest);
    } else {
      var later := TextOf(ps[1..]) + rest;
      assert TextOf(ps) + rest == Text(ps[0]) + later;
      ScanFirst(ps[0], later);
      ScanReads(ps[1..], rest);
      assert [ps[0]] + (ps[1..] + Scan(rest)) == ps + Scan(rest);
    }
  }

  lemma {:induction false} ScanIsRead(t: string)
    ensures ReadsAll(Scan(t), "")
    decreases |t|
  {
    hide ReadPiece, Text;
    if t != "" {
      var p := ReadPiece(t);
      var later := t[|Text(p)|..];
      ScanIsRead(later);
      ScanIsText(later);
      assert Scan(t)[1..] == Scan(later);
      assert Text(p) + (later + "") == t;
    }
  }

  lemma {:induction false} ReadsAllStable(ps: seq<Piece>, r: string, r': string)
    requires ReadsAll(ps, r) && SameHead(r, r')
    ensures ReadsAll(ps, r')
  {
    hide Reads, Text;
    if ps != [] {
      var t := TextOf(ps[1..]);
      assert SameHead(t + r, t + r');
      ReadsStable(ps[0], t + r, t + r');
      ReadsAllStable(ps[1..], r, r');
    }
  }

  lemma {:induction false} ReadsAllSplit(a: seq<Piece>, b: seq<Piece>, rest: string)
    ensures ReadsAll(a + b, rest) <==> ReadsAll(a, TextOf(b) + rest) && ReadsAll(b, rest)
  {
    hide Reads, Text;
    if a == [] {
      assert a + b == b;
    } else {
      ReadsAllSplit(a[1..], b, rest);
      assert (a + b)[1..] == a[1..] + b;
      TextOfJoins(a[1..], b);
      assert TextOf(a[1..]) + (TextOf(b) + rest) == (TextOf(a[1..]) + TextOf(b)) + rest;
    }
  }

  // ----- Replacing the database name -----

  /** The keyword/value branch of rewriteDatabase; None is the error for a missing key. */
  function RewriteDatabase(base: string, newName: string): Option<string> {
    var span := SpanOf(base, "dbname");
    if span.None? then None
    else
      SpanFits(base, "dbname");
      Some(base[..span.value.start] + newName + base[span.value.end..])
  }

  lemma SpanFits(conninfo: string, key: string)
    ensures SpanOf(conninfo, key).Some? ==>
              SpanOf(conninfo, key).value.start <= SpanOf(conninfo, key).value.end <= |conninfo|
  {
    if SpanOf(conninfo, key).Some? {
      var k := LastNamed(Scan(conninfo), key);
      SpanIsAt(conninfo, k);
    }
  }

  /** The index of the last piece with this key. */
  lemma {:induction false} LastNamed(ps: seq<Piece>, key: string) returns (k: nat)
    requires LastSpan(ps, key).Some?
    ensures k < |ps| && Names(ps[k], key) && LastSpan(ps, key) == Some(ValueSpan(ps[..k + 1]))
    ensures forall i :: k < i < |ps| ==> !Names(ps[i], key)
  {
    hide ValueSpan;
    var n := |ps| - 1;
    if Names(ps[n], key) {
      k := n;
      assert ps[..n + 1] == ps;
    } else {
      k := LastNamed(ps[..n], key);
      assert ps[..n][..k + 1] == ps[..k + 1];
    }
  }

  lemma {:induction false} LastSpanAt(ps: seq<Piece>, key: string, k: nat)
    requires k < |ps| && Names(ps[k], key) && forall i :: k < i < |ps| ==> !Names(ps[i], key)
    ensures LastSpan(ps, key) == Some(ValueSpan(ps[..k + 1]))
    decreases |ps|
  {
    hide ValueSpan;
    var n := |ps| - 1;
    if k == n {
      assert ps[..n + 1] == ps;
    } else {
      LastSpanAt(ps[..n], key, k);
      assert ps[..n][..k + 1] == ps[..k + 1];
    }
  }

  /** A value's span cuts the string into what is before it, the value, and what is after. */
  lemma SpanIsAt(conninfo: string, k: nat)
    requires k < |Scan(conninfo)| && Scan(conninfo)[k].value.Some?
    ensures var ps := Scan(conninfo);
            var at := ValueSpan(ps[..k + 1]);
            && at.start <= at.end <= |conninfo|
            && conninfo[..at.start] == TextOf(ps[..k]) + (ps[k].space + ps[k].key + "=")
            && conninfo[at.start..at.end] == ps[k].value.value
            && conninfo[at.end..] == TextOf(ps[k + 1..])
  {
    hide Scan;
    var ps := Scan(conninfo);
    ScanIsText(conninfo);
    CutAt(ps, k);
    var before, after := TextOf(ps[..k]), TextOf(ps[k + 1..]);
    assert ps[..k + 1][..k] == ps[..k];
    var head := ps[k].space + ps[k].key + "=";
    assert conninfo == before + head + ps[k].value.value + after;
  }

  lemma CutAt(ps: seq<Piece>, k: nat)
    requires k < |ps|
    ensures TextOf(ps) == TextOf(ps[..k]) + Text(ps[k]) + TextOf(ps[k + 1..])
  {
    hide Text;
    TextOfJoins(ps[..k], ps[k..]);
    assert ps == ps[..k] + ps[k..] && ps[k..][1..] == ps[k + 1..];
  }

  /** The spliced string, by its pieces. */
  lemma SpliceText(base: string, n: string, k: nat)
    requires k < |Scan(base)| && Names(Scan(base)[k], "dbname") && forall i :: k < i < |Scan(base)| ==> !Names(Scan(base)[i], "dbname")
    ensures var ps := Scan(base);
            RewriteDatabase(base, n) == Some(TextOf(ps[..k]) + (Text(ps[k].(value := Some(n))) + TextOf(ps[k + 1..])))
  {
    hide Scan;
    var ps := Scan(base);
    LastSpanAt(ps, "dbname", k);
    SpanIsAt(base, k);
    var q := ps[k].(value := Some(n));
    var head := ps[k].space + ps[k].key + "=";
    assert Text(q) == head + n;
    var a, z := TextOf(ps[..k]), TextOf(ps[k + 1..]);
    assert (a + head) + n + z == a + ((head + n) + z);
  }

  /** The pieces around the name are read as before; so is the new name, exactly when it ends where it should. */
  lemma SpliceReads(ps: seq<Piece>, k: nat, n: string)
    requires ReadsAll(ps, "") && k < |ps| && Names(ps[k], "dbname")
    ensures var q := ps[k].(value := Some(n));
            var rest := TextOf(ps[k + 1..]);
            && ReadsAll(ps[k + 1..], "")
            && ReadsAll(ps[..k], Text(q) + rest)
            && (Reads(q, rest) <==> ValueLen(n + rest) == |n|)
            && Stops(q.(value := Some("")), " ") && |Text(q)| > 0
  {
    hide ReadPiece, SpaceLen, KeyLen, ValueLen, Text;
    var p, q := ps[k], ps[k].(value := Some(n));
    var rest := TextOf(ps[k + 1..]);
    assert ps == ps[..k] + ps[k..];
    ReadsAllSplit(ps[..k], ps[k..], "");
    assert ps[k..][1..] == ps[k + 1..];
    assert TextOf(ps[k..]) + "" == Text(p) + rest && rest + "" == rest;
    NamedHeads(p, n, rest);
    ReadsAllStable(ps[..k], Text(p) + rest, Text(q) + rest);
    ReadsIfStops(p, rest);
    ReadsIfStops(q, rest);
    NamedStops(p, n, rest);
    NamedStops(p, "", " ");
    EmptyValueStops();
  }

  lemma EmptyValueStops()
    ensures ValueLen("" + " ") == 0
  {
  }

  lemma NamedHeads(p: Piece, n: string, rest: string)
    requires Names(p, "dbname")
    ensures SameHead(Text(p) + rest, Text(p.(value := Some(n))) + rest) && |Text(p.(value := Some(n)))| > 0
  {
  }

  /** Only the value's own stop depends on the value. */
  lemma NamedStops(p: Piece, n: string, rest: string)
    requires Names(p, "dbname") && exists r :: Stops(p, r)
    ensures Stops(p.(value := Some(n)), rest) <==> ValueLen(n + rest) == |n|
  {
    hide SpaceLen, KeyLen, ValueLen;
    var r :| Stops(p, r);
    var q := p.(value := Some(n));
    SpaceStable(p.space, p.key + (Valued(p) + r), q.key + (Valued(q) + rest));
    KeyStable(p.key, Valued(p) + r, Valued(q) + rest);
  }

  /** Where a value starts is where its piece says, and values of different pieces start apart. */
  lemma SpanInside(ps: seq<Piece>, i: nat, k: nat)
    requires i < k < |ps| && ps[i].value.Some? && ps[k].value.Some?
    ensures ValueSpan(ps[..i + 1]).end <= |TextOf(ps[..k])| < ValueSpan(ps[..k + 1]).start
  {
    hide Text;
    assert ps[..k][..i + 1] == ps[..i + 1] && ps[..i + 1][..i] == ps[..i] && ps[..k + 1][..k] == ps[..k];
    CutAt(ps[..k], i);
    assert ps[..k][..i] == ps[..i];
    PieceLength(ps[k]);
  }

  /** Two spans that coincide are of one piece. */
  lemma SpansDiffer(ps: seq<Piece>, i: nat, k: nat)
    requires i < |ps| && k < |ps| && ps[i].value.Some? && ps[k].value.Some?
    requires ValueSpan(ps[..i + 1]).start == ValueSpan(ps[..k + 1]).start
    ensures i == k
  {
    hide TextOf, Text;
    StartBeforeEnd(ps, i);
    StartBeforeEnd(ps, k);
    if i < k {
      SpanInside(ps, i, k);
    } else if k < i {
      SpanInside(ps, k, i);
    }
  }

  lemma StartBeforeEnd(ps: seq<Piece>, i: nat)
    requires i < |ps| && ps[i].value.Some?
    ensures ValueSpan(ps[..i + 1]).start + |ps[i].value.value| == ValueSpan(ps[..i + 1]).end
  {
    hide TextOf;
    PieceLength(ps[i]);
  }

  /** The pieces of the spliced string, when the new name ends where it should. */
  lemma SplicedPieces(base: string, n: string, k: nat)
    requires k < |Scan(base)| && Names(Scan(base)[k], "dbname") && forall i :: k < i < |Scan(base)| ==> !Names(Scan(base)[i], "dbname")
    requires ValueLen(n + TextOf(Scan(base)[k + 1..])) == |n|
    ensures var ps := Scan(base);
            RewriteDatabase(base, n).Some? && Scan(RewriteDatabase(base, n).value) == ps[k := ps[k].(value := Some(n))]
  {
    hide Scan, ReadPiece, ValueLen, Text, Reads, Stops, TextOf, ReadsAll, RewriteDatabase, Names;
    var ps := Scan(base);
    var q := ps[k].(value := Some(n));
    SpliceText(base, n, k);
    ScanIsRead(base);
    SpliceReads(ps, k, n);
    PiecesAround(ps[..k], q, ps[k + 1..]);
    assert ps[..k] + ([q] + ps[k + 1..]) == ps[k := q];
  }

  /** Pieces that are each read back in their place are what the whole is read as. */
  lemma PiecesAround(before: seq<Piece>, q: Piece, after: seq<Piece>)
    requires ReadsAll(before, Text(q) + TextOf(after)) && Text(q) != "" && Reads(q, TextOf(after)) && ReadsAll(after, "")
    ensures Scan(TextOf(before) + (Text(q) + TextOf(after))) == before + ([q] + after)
  {
    hide Scan, Text, Reads;
    var tail := TextOf(after);
    ScanReads(before, Text(q) + tail);
    ScanFirst(q, tail);
    ScanReads(after, "");
    ScanOfNothing();
    assert tail + "" == tail && after + [] == after;
  }

  lemma ScanOfNothing()
    ensures Scan("") == []
  {
  }

  /** Whatever the value, the new piece starts out as it should. */
  lemma NewValueRead(q: Piece, rest: string)
    requires q.value.Some?
    requires SpaceLen(q.space + (q.key + (Valued(q) + rest))) == |q.space|
    requires KeyLen(q.key + (Valued(q) + rest)) == |q.key|
    ensures var r := ReadPiece(Text(q) + rest);
            r.space == q.space && r.key == q.key && r.value.Some? && |r.value.value| == ValueLen(q.value.value + rest)
  {
    hide SpaceLen, KeyLen, ValueLen, Text, ReadPiece;
    var t := Text(q) + rest;
    PartsAt(q, rest);
    assert t[0..] == t;
    PieceAt(t, 0, |q.space|, |q.space| + |q.key|);
    PieceLength(ReadPiece(t));
  }

  /** The start and length of the value read where the new name was put. */
  lemma SplicedAt(base: string, n: string, k: nat)
    requires k < |Scan(base)| && Names(Scan(base)[k], "dbname") && forall i :: k < i < |Scan(base)| ==> !Names(Scan(base)[i], "dbname")
    ensures RewriteDatabase(base, n).Some?
    ensures var ps, out := Scan(base), Scan(RewriteDatabase(base, n).value);
            && k < |out| && out[..k] == ps[..k] && out[k].value.Some?
            && out[k].space == ps[k].space && out[k].key == ps[k].key
            && |out[k].value.value| == ValueLen(n + TextOf(ps[k + 1..]))
  {
    hide ReadPiece, SpaceLen, KeyLen, ValueLen, Text, Reads;
    var ps := Scan(base);
    var q := ps[k].(value := Some(n));
    var rest := TextOf(ps[k + 1..]);
    SpliceText(base, n, k);
    ScanIsRead(base);
    hide Scan;
    SpliceReads(ps, k, n);
    ScanReads(ps[..k], Text(q) + rest);
    var bare := q.(value := Some(""));
    SpaceStable(q.space, bare.key + (Valued(bare) + " "), q.key + (Valued(q) + rest));
    KeyStable(q.key, Valued(bare) + " ", Valued(q) + rest);
    NewValueRead(q, rest);
    FirstPiece(Text(q) + rest);
  }

  lemma FirstPiece(t: string)
    requires t != ""
    ensures Scan(t) != [] && Scan(t)[0] == ReadPiece(t)
  {
    hide ReadPiece;
  }

  /**
   Read again, the rewritten string selects exactly the new name if and only if the value scanner,
   started on the name and what follows it, stops where the name ends. Then nothing else has moved:
   every other piece is the same, in the same order.
   */
  lemma RewriteSelects(base: string, n: string) returns (k: nat)
    requires SpanOf(base, "dbname").Some?
    ensures RewriteDatabase(base, n).Some?
    ensures var at, out := SpanOf(base, "dbname").value, RewriteDatabase(base, n).value;
            && at.end <= |base|
            && (SpanOf(out, "dbname") == Some(Span(at.start, at.start + |n|)) <==> ValueLen(n + base[at.end..]) == |n|)
            && (ValueLen(n + base[at.end..]) == |n| ==>
                  k < |Scan(base)| && Scan(out) == Scan(base)[k := Scan(base)[k].(value := Some(n))])
  {
    hide Scan, ReadPiece, ValueLen, LastSpan, ValueSpan;
    var ps := Scan(base);
    k := LastNamed(ps, "dbname");
    SpanIsAt(base, k);
    SplicedAt(base, n, k);
    var out := Scan(RewriteDatabase(base, n).value);
    SameStart(ps, out, k);
    StartBeforeEnd(out, k);
    if ValueLen(n + TextOf(ps[k + 1..])) == |n| {
      SplicedPieces(base, n, k);
      LastSpanAt(out, "dbname", k);
    } else if LastSpan(out, "dbname").Some? {
      var i := LastNamed(out, "dbname");
      if ValueSpan(out[..i + 1]).start == ValueSpan(out[..k + 1]).start {
        SpansDiffer(out, i, k);
      }
    }
  }

  lemma SameStart(ps: seq<Piece>, out: seq<Piece>, k: nat)
    requires k < |ps| && k < |out| && out[..k] == ps[..k] && ps[k].value.Some? && out[k].value.Some?
    requires out[k].space == ps[k].space && out[k].key == ps[k].key
    ensures ValueSpan(ps[..k + 1]).start == ValueSpan(out[..k + 1]).start
  {
    assert ps[..k + 1][..k] == ps[..k] && out[..k + 1][..k] == out[..k];
  }

  /** A name that cannot carry conninfo syntax. */
  predicate Plain(n: string) {
    forall i :: 0 <= i < |n| ==> !IsSpace(n[i]) && n[i] != '\'' && n[i] != '\\'
  }

  /** No character ends a bare value or escapes another. */
  predicate Literal(n: string) {
    forall i :: 0 <= i < |n| ==> !IsSpace(n[i]) && n[i] != '\\'
  }

  lemma {:induction false} LiteralStops(n: string, rest: string)
    requires Literal(n)
    ensures BareLen(n + rest) == |n| + BareLen(rest)
  {
    if n == "" {
      assert n + rest == rest;
    } else {
      DropJoin(n, rest, 1);
      LiteralStops(n[1..], rest);
    }
  }

  /** A plain name is selected exactly when white space or the end follows the old value. */
  lemma PlainNameSelected(base: string, n: string)
    requires SpanOf(base, "dbname").Some? && Plain(n)
    ensures RewriteDatabase(base, n).Some? && SpanOf(base, "dbname").value.end <= |base|
    ensures var at, out := SpanOf(base, "dbname").value, RewriteDatabase(base, n).value;
            SpanOf(out, "dbname") == Some(Span(at.start, at.start + |n|)) <==> Breaks(base[at.end..])
  {
    hide Scan, LastSpan, ReadPiece, ValueSpan, SpanOf, RewriteDatabase;
    var k := RewriteSelects(base, n);
    var rest := base[SpanOf(base, "dbname").value.end..];
    LiteralStops(n, rest);
    PlainValue(n, rest);
  }

  lemma PlainValue(n: string, rest: string)
    requires Plain(n) && BareLen(n + rest) == |n| + BareLen(rest)
    ensures ValueLen(n + rest) == |n| <==> Breaks(rest)
  {
    if n == "" {
      assert n + rest == rest;
    } else {
      assert (n + rest)[0] == n[0];
    }
  }

  /** A name with white space in it, but no quote or backslash ahead of it, is never the one selected. */
  lemma SpacedNameMissed(base: string, u: string, c: char, v: string)
    requires SpanOf(base, "dbname").Some? && Plain(u) && IsSpace(c)
    ensures var n := u + ([c] + v);
            && RewriteDatabase(base, n).Some?
            && SpanOf(RewriteDatabase(base, n).value, "dbname") !=
               Some(Span(SpanOf(base, "dbname").value.start, SpanOf(base, "dbname").value.start + |n|))
  {
    hide Scan, LastSpan, ReadPiece, ValueSpan, SpanOf, RewriteDatabase;
    var n := u + ([c] + v);
    var k := RewriteSelects(base, n);
    var rest := base[SpanOf(base, "dbname").value.end..];
    var behind := [c] + v + rest;
    assert n + rest == u + behind;
    LiteralStops(u, behind);
    PlainValue(u, behind);
  }

  // ----- Deriving a package's own database name -----

  predicate PackageIdentifier(s: string) {
    forall i :: 0 <= i < |s| ==> 'a' <= s[i] <= 'z' || 'A' <= s[i] <= 'Z' || '0' <= s[i] <= '9' || s[i] == '_'
  }

  function Lower(s: string): (r: string)
    ensures |r| == |s| && forall i :: 0 <= i < |s| ==> r[i] == if 'A' <= s[i] <= 'Z' then s[i] - 'A' + 'a' else s[i]
  {
    seq(|s|, i requires 0 <= i < |s| => if 'A' <= s[i] <= 'Z' then s[i] - 'A' + 'a' else s[i])
  }

  /** ASCII capitals become the small letters they are; nothing else changes. */
  lemma LowersCapitals(s: string, i: nat, k: nat)
    requires i < |s| && k < 26
    ensures s[i] == CAPITALS[k] ==> Lower(s)[i] == SMALL_LETTERS[k]
    ensures s[i] !in CAPITALS ==> Lower(s)[i] == s[i]
  {
    Capital(s[i]);
    LetterAt(k);
  }

  predicate EndsWith(s: string, end: string) {
    |end| <= |s| && s[|s| - |end|..] == end
  }

  datatype Derived = Derived(dsn: string, name: string) | BadSuffix | RefusedBase | TooLong | NoDatabaseKey

  /** `base` is the database the DSN was parsed to name, in lower case. */
  function Derive(dsn: string, base: string, suffix: string): Derived {
    if suffix == "" || !PackageIdentifier(suffix) then BadSuffix
    else if base != "test" && !EndsWith(base, "_test") then RefusedBase
    else
      var name := base + "_" + Lower(suffix);
      if |name| > 63 then TooLong
      else
        var rewritten := RewriteDatabase(dsn, name);
        if rewritten.None? then NoDatabaseKey else Derived(rewritten.value, name)
  }

  /** The suffix is non-empty and of nothing but ASCII letters, digits and underscores. */
  predicate FitSuffix(suffix: string) {
    suffix != "" && forall i :: 0 <= i < |suffix| ==> (suffix[i] in SMALL_LETTERS || suffix[i] in CAPITALS || suffix[i] in DIGITS || suffix[i] == '_')
  }

  /** The name of a test database: "test", or anything that ends in "_test". */
  ghost predicate TestName(base: string) {
    base == "test" || exists p :: base == p + "_test"
  }

  /**
   Derive answers exactly when the suffix fits, the base is a test database's name, the new name is
   short enough and the string has a dbname value; otherwise the first of these that fails is the error.
   */
  lemma DeriveDecides(dsn: string, base: string, suffix: string)
    ensures var d, short, named := Derive(dsn, base, suffix), |base| + 1 + |suffix| <= 63, SpanOf(dsn, "dbname").Some?;
            && (d == BadSuffix <==> !FitSuffix(suffix))
            && (d == RefusedBase <==> FitSuffix(suffix) && !TestName(base))
            && (d == TooLong <==> FitSuffix(suffix) && TestName(base) && !short)
            && (d == NoDatabaseKey <==> FitSuffix(suffix) && TestName(base) && short && !named)
            && (d.Derived? <==> FitSuffix(suffix) && TestName(base) && short && named)
            && (d.Derived? ==> d.name == base + "_" + Lower(suffix) && RewriteDatabase(dsn, d.name) == Some(d.dsn))
  {
    hide SpanOf;
    forall i | 0 <= i < |suffix|
      ensures ('a' <= suffix[i] <= 'z' || 'A' <= suffix[i] <= 'Z' || '0' <= suffix[i] <= '9' || suffix[i] == '_')
              <==> suffix[i] in SMALL_LETTERS || suffix[i] in CAPITALS || suffix[i] in DIGITS || suffix[i] == '_'
    {
      SmallLetter(suffix[i]);
      Capital(suffix[i]);
      Digit(suffix[i]);
    }
    if EndsWith(base, "_test") {
      assert base == base[..|base| - 5] + "_test";
    }
  }

  lemma LowerIsPlain(suffix: string)
    requires PackageIdentifier(suffix)
    ensures Plain(Lower(suffix))
  {
  }

  lemma PlainParts(base: string, suffix: string)
    requires PackageIdentifier(suffix)
    ensures Plain(base + "_" + Lower(suffix)) <==> Plain(base)
  {
    var name := base + "_" + Lower(suffix);
    LowerIsPlain(suffix);
    if Plain(name) {
      forall i | 0 <= i < |base| ensures base[i] == name[i] {
      }
    }
  }

  /**
   Whatever the base name and the suffix, the derived string selects exactly the derived name if and
   only if the value scanner, started on it, stops where it ends; no suffix decides that on a plain
   base name, only what follows the old value does.
   */
  lemma DerivedIsSelected(dsn: string, base: string, suffix: string)
    requires Derive(dsn, base, suffix).Derived?
    ensures SpanOf(dsn, "dbname").Some? && SpanOf(dsn, "dbname").value.end <= |dsn|
    ensures var d, at := Derive(dsn, base, suffix), SpanOf(dsn, "dbname").value;
            && d.name != base && d.name[..|base|] == base && |d.name| <= 63
            && (SpanOf(d.dsn, "dbname") == Some(Span(at.start, at.start + |d.name|)) <==>
                  ValueLen(d.name + dsn[at.end..]) == |d.name|)
            && (Plain(base) ==> (ValueLen(d.name + dsn[at.end..]) == |d.name| <==> Breaks(dsn[at.end..])))
  {
    hide Scan, LastSpan, ReadPiece, ValueSpan, SpanOf, ValueLen, Plain;
    var name := base + "_" + Lower(suffix);
    PlainParts(base, suffix);
    var k := RewriteSelects(dsn, name);
    if Plain(base) {
      PlainNameSelected(dsn, name);
    }
  }

  /** A quoted old name with text right behind its closing quote is on the failing side, whatever the new name. */
  lemma TextBehindQuoteFails(v: string, n: string)
    requires Plain(v) && Plain(n)
    ensures var base := "dbname='" + v + "'x=1";
            && SpanOf(base, "dbname") == Some(Span(7, 7 + |v| + 2))
            && RewriteDatabase(base, n).Some? && SpanOf(RewriteDatabase(base, n).value, "dbname") != Some(Span(7, 7 + |n|))
  {
    hide Scan, ReadPiece, ValueLen, Text, SpaceLen, KeyLen;
    var p, q := Piece("", "dbname", Some("'" + v + "'")), Piece("", "x", Some("1"));
    var base := "dbname='" + v + "'x=1";
    TwoPieces(v);
    QuotedPlain(v, "x=1");
    OneStops();
    ReadsHere(p, "x=1");
    ReadsHere(q, "");
    ScanFirst(p, "x=1");
    ScanFirst(q, "");
    ScanOfNothing();
    assert "x=1" + "" == "x=1";
    assert Scan(base) == [p, q];
    LastSpanAt([p, q], "dbname", 0);
    SpanFits(base, "dbname");
    assert base[7 + |v| + 2..] == "x=1";
    PlainNameSelected(base, n);
  }

  lemma OneStops()
    ensures ValueLen("1" + "") == 1
  {
    LiteralStops("1", "");
    assert "1" + "" == "1" && BareLen("") == 0;
  }

  lemma TwoPieces(v: string)
    ensures Text(Piece("", "dbname", Some("'" + v + "'"))) + "x=1" == "dbname='" + v + "'x=1"
    ensures |Text(Piece("", "dbname", Some("'" + v + "'")))| == |v| + 9
    ensures Text(Piece("", "x", Some("1"))) == "x=1"
    ensures ValueSpan([Piece("", "dbname", Some("'" + v + "'"))]) == Span(7, |v| + 9)
  {
    var p := Piece("", "dbname", Some("'" + v + "'"));
    assert Text(p) == "dbname" + ("=" + ("'" + v + "'"));
    assert [p][..0] == [];
  }

  /** Between quotes, no character ends the value or escapes another. */
  predicate Quotable(v: string) {
    forall i :: 0 <= i < |v| ==> v[i] != '\'' && v[i] != '\\'
  }

  lemma QuotedPlain(v: string, rest: string)
    requires Quotable(v)
    ensures ValueLen("'" + v + "'" + rest) == |v| + 2
  {
    QuotedPlainLen(v, rest);
    assert ("'" + v + "'" + rest)[1..] == v + ("'" + rest);
  }

  lemma {:induction false} QuotedPlainLen(v: string, rest: string)
    requires Quotable(v)
    ensures QuotedLen(v + ("'" + rest)) == |v| + 1
  {
    if v == "" {
      assert v + ("'" + rest) == "'" + rest;
    } else {
      QuotedPlainLen(v[1..], rest);
      assert (v + ("'" + rest))[1..] == v[1..] + ("'" + rest);
    }
  }

  lemma OpenQuote(v: string, rest: string)
    requires Plain(v) && (rest == "" || rest == " ")
    ensures ValueLen("'" + v + rest) == 1 + |v| + |rest|
  {
    OpenLen(v, rest);
    assert ("'" + v + rest)[1..] == v + rest;
  }

  lemma {:induction false} OpenLen(v: string, rest: string)
    requires Plain(v) && (rest == "" || rest == " ")
    ensures QuotedLen(v + rest) == |v| + |rest|
  {
    if v == "" {
      assert v + rest == rest;
    } else {
      OpenLen(v[1..], rest);
      assert (v + rest)[1..] == v[1..] + rest;
    }
  }

  lemma SpaceOf(t: string)
    requires t != "" && !IsSpace(t[0])
    ensures SpaceLen(" " + t) == 1
  {
    assert (" " + t)[1..] == t;
  }

  /** A piece with a key of letters, at most a blank ahead of it, is read back when its value ends where it should. */
  lemma ReadsHere(p: Piece, rest: string)
    requires p.space in {"", " "} && p.key != "" && (forall i :: 0 <= i < |p.key| ==> 'a' <= p.key[i] <= 'z') && p.value.Some?
    requires ValueLen(p.value.value + rest) == |p.value.value|
    ensures Reads(p, rest) && Text(p) != ""
  {
    hide ReadPiece, ValueLen;
    LettersEnd(p.key, Valued(p) + rest);
    assert "" + (p.key + (Valued(p) + rest)) == p.key + (Valued(p) + rest);
    SpaceOf(p.key + (Valued(p) + rest));
    ReadsIfStops(p, rest);
  }

  lemma {:induction false} LettersEnd(key: string, rest: string)
    requires (forall i :: 0 <= i < |key| ==> 'a' <= key[i] <= 'z') && rest != "" && rest[0] == '='
    ensures KeyLen(key + rest) == |key|
  {
    if key == "" {
      assert key + rest == rest;
    } else {
      LettersEnd(key[1..], rest);
      assert (key + rest)[1..] == key[1..] + rest;
    }
  }

  /** Packages whose identifiers differ by more than case never share a database. */
  lemma SuffixesSeparate(dsn: string, base: string, s: string, t: string)
    requires Derive(dsn, base, s).Derived? && Derive(dsn, base, t).Derived?
    ensures Derive(dsn, base, s).name == Derive(dsn, base, t).name <==> Lower(s) == Lower(t)
  {
    hide RewriteDatabase;
    var a, b := base + "_" + Lower(s), base + "_" + Lower(t);
    assert a[|base| + 1..] == Lower(s) && b[|base| + 1..] == Lower(t);
  }
}
