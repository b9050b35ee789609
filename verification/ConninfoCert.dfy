/**
 ApplySSLRootCert's keyword/value branch (db/db.go): two replacement passes escape the certificate
 path, and the parameters are appended so that they win.
 */
module ConninfoCert {
  import opened Seqs
  import opened Conninfo
  import opened ConninfoEdit
  import opened ConninfoNames

  // ----- The escape -----

  /** strings.ReplaceAll for a pattern of one character. */
  function ReplaceAll(s: string, c: char, with: string): string {
    if s == "" then ""
    else (if s[0] == c then with else [s[0]]) + ReplaceAll(s[1..], c, with)
  }

  function Escape(path: string): string {
    ReplaceAll(ReplaceAll(path, '\\', "\\\\"), '\'', "\\'")
  }

  /** What the escape makes of one character. */
  function Escaping(c: char): string {
    if c == '\\' || c == '\'' then ['\\', c] else [c]
  }

  /** A backslash ahead of every backslash and every quote, in one pass. */
  function EscapeAtOnce(path: string): string {
    if path == "" then ""
    else Escaping(path[0]) + EscapeAtOnce(path[1..])
  }

  lemma ReplaceFirst(d: char, s: string, c: char, with: string)
    ensures ReplaceAll([d] + s, c, with) == (if d == c then with else [d]) + ReplaceAll(s, c, with)
  {
    assert ([d] + s)[1..] == s;
  }

  lemma {:induction false} ReplaceJoins(s: string, t: string, c: char, with: string)
    ensures ReplaceAll(s + t, c, with) == ReplaceAll(s, c, with) + ReplaceAll(t, c, with)
  {
    if s == "" {
      assert s + t == t;
    } else {
      hide ReplaceAll;
      var d, rest := s[0], s[1..];
      Uncons(s);
      Associate([d], rest, t);
      ReplaceFirst(d, rest, c, with);
      ReplaceFirst(d, rest + t, c, with);
      ReplaceJoins(rest, t, c, with);
      Associate(if d == c then with else [d], ReplaceAll(rest, c, with), ReplaceAll(t, c, with));
    }
  }

  lemma ReplaceShort(c: char, d: char)
    ensures ReplaceAll([d], c, "\\'") == if d == c then "\\'" else [d]
    ensures d != c ==> ReplaceAll([d, d], c, "\\'") == [d, d]
  {
    assert [d][1..] == "" && [d, d][1..] == [d];
  }

  /** The second pass leaves the first one's backslashes alone. */
  lemma {:induction false} TwoPassesAreOne(path: string)
    ensures Escape(path) == EscapeAtOnce(path)
  {
    if path != "" {
      TwoPassesAreOne(path[1..]);
      var head := if path[0] == '\\' then "\\\\" else [path[0]];
      ReplaceJoins(head, ReplaceAll(path[1..], '\\', "\\\\"), '\'', "\\'");
      ReplaceShort('\'', path[0]);
    }
  }

  lemma {:induction false} UnescapeEscape(path: string)
    ensures Unescape(Escape(path)) == path
  {
    TwoPassesAreOne(path);
    if path != "" {
      TwoPassesAreOne(path[1..]);
      UnescapeEscape(path[1..]);
      var tail := EscapeAtOnce(path[1..]);
      if path[0] == '\\' || path[0] == '\'' {
        assert EscapeAtOnce(path)[2..] == tail;
      } else {
        assert EscapeAtOnce(path)[1..] == tail;
      }
    }
  }

  /** The quoted scanner stops exactly at the appended closing quote, whatever the path. */
  lemma {:induction false} StopsAtClosingQuote(path: string, rest: string)
    ensures QuotedLen(Escape(path) + ("'" + rest)) == |Escape(path)| + 1
  {
    hide QuotedLen, Escape;
    TwoPassesAreOne(path);
    if path == "" {
      assert "" + ("'" + rest) == "'" + rest;
      QuoteEnds(rest);
    } else {
      StopsAtClosingQuote(path[1..], rest);
      TwoPassesAreOne(path[1..]);
      var tail := EscapeAtOnce(path[1..]);
      Associate(Escaping(path[0]), tail, "'" + rest);
      QuotedPasses(path[0], tail + ("'" + rest));
    }
  }

  lemma QuoteEnds(rest: string)
    ensures QuotedLen("'" + rest) == 1
  {
  }

  /** The quoted scanner passes over one escaped character. */
  lemma QuotedPasses(c: char, t: string)
    ensures QuotedLen(Escaping(c) + t) == |Escaping(c)| + QuotedLen(t)
  {
    assert (Escaping(c) + t)[|Escaping(c)|..] == t;
  }

  // ----- The appended parameters -----

  function CertValue(path: string): string {
    "'" + Escape(path) + "'"
  }

  function Added(path: string): seq<Piece> {
    [Piece(" ", "sslrootcert", Some(CertValue(path))), Piece(" ", "sslmode", Some("verify-full"))]
  }

  function ApplySslRootCert(dsn: string, path: string): string {
    dsn + " sslrootcert='" + Escape(path) + "' sslmode=verify-full"
  }

  lemma TextOfTwo(p: Piece, q: Piece)
    ensures TextOf([p, q]) == Text(p) + Text(q)
  {
    hide Text;
    assert [p, q][1..] == [q] && [q][1..] == [];
    assert TextOf([q]) == Text(q) + "";
  }

  lemma CertText(path: string)
    ensures Text(Piece(" ", "sslrootcert", Some(CertValue(path)))) == " sslrootcert='" + Escape(path) + "'"
  {
    hide Escape;
    var e := Escape(path);
    assert " " + "sslrootcert" + "=" + "'" == " sslrootcert='";
    assert " " + "sslrootcert" + ("=" + ("'" + e + "'")) == (" " + "sslrootcert" + "=" + "'") + e + "'";
  }

  lemma ModeText()
    ensures Text(Piece(" ", "sslmode", Some("verify-full"))) == " sslmode=verify-full"
  {
  }

  lemma AddedText(dsn: string, path: string)
    ensures ApplySslRootCert(dsn, path) == dsn + TextOf(Added(path))
  {
    hide Text, Escape, TextOf;
    TextOfTwo(Added(path)[0], Added(path)[1]);
    CertText(path);
    ModeText();
    var cert, quoted := " sslrootcert='", Escape(path);
    assert "'" + " sslmode=verify-full" == "' sslmode=verify-full";
    Associate(dsn + cert + quoted, "'", " sslmode=verify-full");
    Regroup(dsn, cert, quoted, "'", " sslmode=verify-full");
  }

  lemma Regroup(a: string, b: string, c: string, d: string, e: string)
    ensures a + b + c + (d + e) == a + (b + c + d + e)
  {
  }

  lemma CertValueStops(path: string, rest: string)
    ensures ValueLen(CertValue(path) + rest) == |CertValue(path)|
  {
    hide QuotedLen, BareLen, Escape;
    var t := CertValue(path) + rest;
    assert t[1..] == Escape(path) + ("'" + rest);
    StopsAtClosingQuote(path, rest);
  }

  /** The appended value denotes exactly the path, whatever characters are in it. */
  lemma CertDenotes(path: string)
    ensures Denoted(CertValue(path)) == Some(path)
  {
    hide Escape, QuotedLen, Closed, Unescape;
    var t := Escape(path) + "'";
    StopsAtClosingQuote(path, " ");
    Associate(Escape(path), "'", " ");
    ScannedIsClosed(t, " ");
    UnescapeEscape(path);
    assert CertValue(path)[1..] == t && CertValue(path)[1..|CertValue(path)| - 1] == Escape(path);
  }

  lemma CertReads(path: string, rest: string)
    ensures Reads(Piece(" ", "sslrootcert", Some(CertValue(path))), rest)
  {
    hide ReadPiece, ValueLen, CertValue, SpaceLen, KeyLen;
    var p := Piece(" ", "sslrootcert", Some(CertValue(path)));
    CertValueStops(path, rest);
    SpaceOf("sslrootcert" + (Valued(p) + rest));
    LettersEnd("sslrootcert", Valued(p) + rest);
    ReadsIfStops(p, rest);
  }

  lemma ModeReads()
    ensures Reads(Piece(" ", "sslmode", Some("verify-full")), "")
  {
    hide ReadPiece, ValueLen, SpaceLen, KeyLen;
    var p := Piece(" ", "sslmode", Some("verify-full"));
    LiteralStops("verify-full", "");
    BarePlain("verify-full");
    SpaceOf("sslmode" + (Valued(p) + ""));
    LettersEnd("sslmode", Valued(p) + "");
    ReadsIfStops(p, "");
  }

  lemma BarePlain(n: string)
    requires n != "" && n[0] != '\'' && BareLen(n + "") == |n| + BareLen("")
    ensures ValueLen(n + "") == |n|
  {
    assert n + "" == n;
  }

  lemma AddedReads(path: string)
    ensures ReadsAll(Added(path), "") && TextOf(Added(path)) != "" && TextOf(Added(path))[0] == ' '
  {
    hide Reads, CertValue, Text;
    var cert, mode := Added(path)[0], Added(path)[1];
    StartsWithSpace(cert);
    StartsWithSpace(mode);
    ModeReads();
    assert ReadsAll([mode], "") by {
      assert [mode][1..] == [] && TextOf([]) + "" == "";
    }
    CertReads(path, TextOf([mode]) + "");
    assert Added(path)[1..] == [mode];
  }

  lemma StartsWithSpace(p: Piece)
    requires p.space == " "
    ensures Text(p) != "" && Text(p)[0] == ' '
  {
  }

  /** The keys and values, in order. */
  function Pairs(ps: seq<Piece>): seq<(string, string)> {
    if ps == [] then []
    else
      var p := ps[|ps| - 1];
      Pairs(ps[..|ps| - 1]) + if p.value.Some? then [(p.key, p.value.value)] else []
  }

  /** White space would end the last value: no quote is left open and no backslash dangles. */
  predicate EndsClean(dsn: string) {
    var ps := Scan(dsn);
    ps == [] || ps[|ps| - 1].value.None? || ValueLen(ps[|ps| - 1].value.value + " ") == |ps[|ps| - 1].value.value|
  }

  lemma {:induction false} PairsJoin(a: seq<Piece>, b: seq<Piece>)
    ensures Pairs(a + b) == Pairs(a) + Pairs(b)
  {
    if b == [] {
      assert a + b == a;
    } else {
      var n := |b| - 1;
      PairsJoin(a, b[..n]);
      assert (a + b)[..|a| + n] == a + b[..n];
      var last := if b[n].value.Some? then [(b[n].key, b[n].value.value)] else [];
      Associate(Pairs(a), Pairs(b[..n]), last);
    }
  }

  lemma PairsOfOne(p: Piece)
    ensures Pairs([p]) == if p.value.Some? then [(p.key, p.value.value)] else []
  {
    assert [p][..0] == [];
  }

  lemma PairsOfAdded(path: string)
    ensures Pairs(Added(path)) == [("sslrootcert", CertValue(path)), ("sslmode", "verify-full")]
  {
    hide CertValue;
    var cert, mode := Added(path)[0], Added(path)[1];
    PairsJoin([cert], [mode]);
    PairsOfOne(cert);
    PairsOfOne(mode);
    assert [cert] + [mode] == Added(path);
  }

  lemma OnePiece(p: Piece)
    ensures TextOf([p]) == TextOf([p]) + "" == Text(p)
    ensures ReadsAll([p], "") ==> Reads(p, "") && Text(p) != ""
  {
    hide Reads, Text;
    assert [p][1..] == [] && TextOf([]) + "" == "";
  }

  /** Everything but the last piece is read as before, whatever is appended; so is the last, if white space ends it. */
  lemma LastPieceKeeps(dsn: string, more: string)
    requires Scan(dsn) != [] && more != ""
    ensures var ps := Scan(dsn);
            var last := ps[|ps| - 1];
            && ReadsAll(ps[..|ps| - 1], Text(last) + more) && Text(last) != "" && Reads(last, "")
            && dsn + more == TextOf(ps[..|ps| - 1]) + (Text(last) + more)
  {
    hide Scan, Text, Reads, ReadsAll, TextOf;
    var ps := Scan(dsn);
    var n := |ps| - 1;
    var last := ps[n];
    ScanIsRead(dsn);
    ScanIsText(dsn);
    assert ps == ps[..n] + [last];
    ReadsAllSplit(ps[..n], [last], "");
    OnePiece(last);
    TextOfJoins(ps[..n], [last]);
    Associate(TextOf(ps[..n]), Text(last), more);
    assert SameHead(Text(last), Text(last) + more);
    ReadsAllStable(ps[..n], Text(last), Text(last) + more);
  }

  /** Appending after a clean end adds exactly the two parameters. */
  lemma CleanAppend(dsn: string, path: string)
    requires EndsClean(dsn)
    ensures Pairs(Scan(ApplySslRootCert(dsn, path))) == Pairs(Scan(dsn)) + Pairs(Added(path))
  {
    hide Text, Reads, Pairs, ApplySslRootCert, Added, ReadPiece;
    var ps, more := Scan(dsn), TextOf(Added(path));
    AddedText(dsn, path);
    AddedReads(path);
    assert more + "" == more;
    ScanReads(Added(path), "");
    ScanOfNothing();
    assert Added(path) + [] == Added(path);
    if ps == [] {
      ScanIsText(dsn);
      assert dsn + more == more;
      PairsJoin([], Added(path));
      assert [] + Added(path) == Added(path);
    } else {
      AppendToLast(dsn, more);
    }
  }

  /** With more text, opening with white space, after a clean end. */
  lemma AppendToLast(dsn: string, more: string)
    requires Scan(dsn) != [] && EndsClean(dsn) && more != "" && more[0] == ' '
    ensures Pairs(Scan(dsn + more)) == Pairs(Scan(dsn)) + Pairs(Scan(more))
  {
    hide Text, Reads, Pairs, ReadPiece, Scan, ValueLen;
    var ps := Scan(dsn);
    var n := |ps| - 1;
    var last := ps[n];
    LastPieceKeeps(dsn, more);
    ScanReads(ps[..n], Text(last) + more);
    PairsJoin(ps[..n], Scan(Text(last) + more));
    PairsJoin(ps[..n], [last]);
    assert ps == ps[..n] + [last];
    if last.value.None? && last.key == "" {
      MoreSpace(last, more);
    } else {
      LastReads(last, more);
      ScanFirst(last, more);
      PairsJoin([last], Scan(more));
    }
    Associate(Pairs(ps[..n]), Pairs([last]), Pairs(Scan(more)));
  }

  lemma LastReads(last: Piece, more: string)
    requires Reads(last, "") && more != "" && more[0] == ' ' && (last.key != "" || last.value.Some?)
    requires last.value.Some? ==> ValueLen(last.value.value + " ") == |last.value.value|
    ensures Reads(last, more)
  {
    hide ReadPiece, SpaceLen, KeyLen, ValueLen;
    ReadsIfStops(last, "");
    var tail := Valued(last) + more;
    if last.value.Some? {
      assert SameHead(last.key + (Valued(last) + ""), last.key + tail);
      SpaceStable(last.space, last.key + (Valued(last) + ""), last.key + tail);
      assert SameHead(Valued(last) + "", tail);
      KeyStable(last.key, Valued(last) + "", tail);
      assert SameHead(" ", more);
      ValueStable(last.value.value, " ", more);
    } else {
      assert SameHead(last.key + (Valued(last) + ""), last.key + tail);
      SpaceStable(last.space, last.key + (Valued(last) + ""), last.key + tail);
      assert last.key + (Valued(last) + "") == last.key && tail == more;
      KeyEndsAtSpace(last.key, more);
    }
    ReadsIfStops(last, more);
  }

  lemma {:induction false} KeyEndsAtSpace(key: string, more: string)
    requires KeyLen(key) == |key| && more != "" && more[0] == ' '
    ensures KeyLen(key + more) == |key|
  {
    if key == "" {
      assert key + more == more;
    } else {
      KeyEndsAtSpace(key[1..], more);
      assert (key + more)[1..] == key[1..] + more;
    }
  }

  /** White space at the end joins the white space appended. */
  lemma MoreSpace(last: Piece, more: string)
    requires Reads(last, "") && last.value.None? && last.key == "" && more != "" && more[0] == ' '
    ensures Pairs(Scan(Text(last) + more)) == Pairs([last]) + Pairs(Scan(more))
  {
    hide Pairs, Scan, Text, Reads, ReadPiece;
    PairsOfOne(last);
    var first := ReadPiece(more);
    NextPieces(more);
    var later := more[|Text(first)|..];
    var joined := Piece(last.space + first.space, first.key, first.value);
    JoinedReads(last, first, later);
    ScanFirst(joined, later);
    ScanFirst(first, later);
    PairsJoin([joined], Scan(later));
    PairsJoin([first], Scan(later));
    PairsOfOne(joined);
    PairsOfOne(first);
    assert [] + Pairs(Scan(more)) == Pairs(Scan(more));
  }

  lemma JoinedReads(last: Piece, first: Piece, later: string)
    requires Reads(last, "") && last.value.None? && last.key == "" && Reads(first, later) && Text(first) != ""
    ensures var joined := Piece(last.space + first.space, first.key, first.value);
            Reads(joined, later) && Text(last) + (Text(first) + later) == Text(joined) + later && Text(joined) != ""
  {
    hide ReadPiece, SpaceLen, KeyLen, ValueLen, Reads;
    var joined := Piece(last.space + first.space, first.key, first.value);
    ReadsIfStops(last, "");
    ReadsIfStops(first, later);
    AllSpace(last.space, first.space, first.key + (Valued(first) + later));
    assert Valued(joined) == Valued(first);
    ReadsIfStops(joined, later);
    JoinedText(last.space, first, later);
  }

  lemma JoinedText(space: string, first: Piece, later: string)
    ensures Text(Piece(space, "", None)) + (Text(first) + later) == Text(Piece(space + first.space, first.key, first.value)) + later
    ensures |Text(Piece(space + first.space, first.key, first.value))| == |space| + |Text(first)|
  {
    var tail := Valued(first);
    assert Text(first) == first.space + (first.key + tail);
    assert Text(Piece(space + first.space, first.key, first.value)) == space + (first.space + (first.key + tail));
    assert Text(Piece(space, "", None)) == space;
  }

  lemma NextPieces(t: string)
    requires t != ""
    ensures Reads(ReadPiece(t), t[|Text(ReadPiece(t))|..]) && Text(ReadPiece(t)) != ""
    ensures t == Text(ReadPiece(t)) + t[|Text(ReadPiece(t))|..]
  {
    hide ReadPiece, Text;
    var p := ReadPiece(t);
    assert t == Text(p) + t[|Text(p)|..];
  }

  lemma {:induction false} AllSpace(u: string, v: string, rest: string)
    requires SpaceLen(u + ("" + ("" + ""))) == |u| && SpaceLen(v + rest) == |v|
    ensures SpaceLen((u + v) + rest) == |u + v|
  {
    assert u + ("" + ("" + "")) == u;
    if u == "" {
      assert u + v == v;
    } else {
      assert u[1..] + ("" + ("" + "")) == u[1..];
      AllSpace(u[1..], v, rest);
      assert ((u + v) + rest)[1..] == (u[1..] + v) + rest;
    }
  }

  /** An open quote or a dangling backslash takes in what is appended. */
  lemma LastValueGrows(dsn: string, more: string)
    requires !EndsClean(dsn) && more != "" && more[0] == ' '
    ensures var ps, out := Scan(dsn), Scan(dsn + more);
            var n := |ps| - 1;
            && 0 <= n < |out| && out[..n] == ps[..n] && ps[n].value.Some?
            && out[n].key == ps[n].key && out[n].value.Some? && out[n].value != ps[n].value
  {
    hide Text, Reads, ReadPiece, Scan, ValueLen, SpaceLen, KeyLen;
    var ps := Scan(dsn);
    var n := |ps| - 1;
    var last := ps[n];
    LastPieceKeeps(dsn, more);
    ScanReads(ps[..n], Text(last) + more);
    FirstPiece(Text(last) + more);
    ReadsIfStops(last, "");
    SpaceStable(last.space, last.key + (Valued(last) + ""), last.key + (Valued(last) + more));
    KeyStable(last.key, Valued(last) + "", Valued(last) + more);
    NewValueRead(last, more);
    if ValueLen(last.value.value + more) == |last.value.value| {
      ValueStable(last.value.value, more, " ");
    }
  }

  /**
   The two parameters come out as the last two, and nothing else changes, if and only if white space
   would have ended the DSN's last value.
   */
  lemma AppendsExactlyIfClean(dsn: string, path: string)
    ensures EndsClean(dsn) <==>
            Pairs(Scan(ApplySslRootCert(dsn, path))) ==
            Pairs(Scan(dsn)) + [("sslrootcert", CertValue(path)), ("sslmode", "verify-full")]
  {
    hide Text, Reads, Pairs, ApplySslRootCert, Added, ReadPiece, EndsClean, Scan, CertValue;
    PairsOfAdded(path);
    if EndsClean(dsn) {
      CleanAppend(dsn, path);
    } else {
      var more := TextOf(Added(path));
      AddedText(dsn, path);
      AddedReads(path);
      LastValueGrows(dsn, more);
      DifferentPair(Scan(dsn), Scan(dsn + more), [("sslrootcert", CertValue(path)), ("sslmode", "verify-full")]);
    }
  }

  /** A DSN that leaves a quote open is on the failing side, whatever it has in it. */
  lemma OpenQuoteIsUnclean(v: string)
    requires Plain(v)
    ensures !EndsClean("password='" + v)
  {
    hide ReadPiece, Text, ValueLen;
    var p := Piece("", "password", Some("'" + v));
    OpenQuote(v, "");
    OpenQuote(v, " ");
    assert ("'" + v) + "" == "'" + v;
    ReadsHere(p, "");
    ScanFirst(p, "");
    ScanOfNothing();
    OpenText(v);
  }

  lemma OpenText(v: string)
    ensures Text(Piece("", "password", Some("'" + v))) + "" == "password='" + v
  {
    assert Text(Piece("", "password", Some("'" + v))) == "password" + ("=" + ("'" + v));
  }

  /** Pieces that differ in one value, with the same pieces ahead of it, have different pairs. */
  lemma DifferentPair(ps: seq<Piece>, out: seq<Piece>, added: seq<(string, string)>)
    requires ps != []
    requires var n := |ps| - 1;
             n < |out| && out[..n] == ps[..n] && ps[n].value.Some? && out[n].value.Some? && out[n].value != ps[n].value
    ensures Pairs(out) != Pairs(ps) + added
  {
    hide Pairs;
    var n := |ps| - 1;
    var m := |Pairs(ps[..n])|;
    PairAt(ps, n);
    PairAt(out, n);
    assert (Pairs(ps) + added)[m] == Pairs(ps)[m];
  }

  lemma PairAt(ps: seq<Piece>, n: nat)
    requires n < |ps| && ps[n].value.Some?
    ensures var m := |Pairs(ps[..n])|;
            m < |Pairs(ps)| && Pairs(ps)[m] == (ps[n].key, ps[n].value.value)
  {
    hide Pairs;
    PairsJoin(ps[..n], ps[n..]);
    PairsJoin([ps[n]], ps[n + 1..]);
    PairsOfOne(ps[n]);
    assert ps == ps[..n] + ps[n..] && ps[n..] == [ps[n]] + ps[n + 1..];
  }
}
