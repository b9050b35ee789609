/**
 The libpq keyword/value strings of db/dbtest/dbtest.go and db/db.go: a quote-aware scanner, the
 splice that replaces the database name, and the escape that appends a certificate path. The
 scanner's loops are proved against a reading of the string as a list of pieces.
 */
module Conninfo {
  import opened Seqs

  predicate IsSpace(c: char) {
    c == ' ' || c == '\t' || c == '\n' || c == '\r'
  }

  /** White space is a blank, a tab, a line feed or a carriage return. */
  lemma SpacesAre(c: char)
    ensures IsSpace(c) <==> c in " \t\n\r"
  {
  }

  /** Nothing follows, or white space does. */
  predicate Breaks(rest: string) {
    rest == "" || IsSpace(rest[0])
  }

  // ----- Reading one piece -----

  function SpaceLen(t: string): (n: nat)
    ensures n <= |t| && (n < |t| ==> !IsSpace(t[n])) && forall i :: 0 <= i < n ==> IsSpace(t[i])
  {
    if t == "" || !IsSpace(t[0]) then 0 else 1 + SpaceLen(t[1..])
  }

  predicate EndsKey(c: char) {
    c == '=' || IsSpace(c)
  }

  /** A key runs to the first '=' or white space. */
  lemma {:induction false} KeyStops(t: string)
    ensures var n := KeyLen(t); (n < |t| ==> EndsKey(t[n])) && forall i :: 0 <= i < n ==> !EndsKey(t[i])
    decreases |t|
  {
    if t != "" && !EndsKey(t[0]) {
      KeyStops(t[1..]);
      assert forall i :: 1 <= i < |t| ==> t[i] == t[1..][i - 1];
    }
  }

  function KeyLen(t: string): (n: nat)
    ensures n <= |t|
  {
    if t == "" || t[0] == '=' || IsSpace(t[0]) then 0 else 1 + KeyLen(t[1..])
  }

  /** From after the opening quote to after the closing one, or to the end. */
  function QuotedLen(t: string): (n: nat)
    ensures n <= |t|
  {
    if t == "" then 0
    else if t[0] == '\\' && |t| > 1 then 2 + QuotedLen(t[2..])
    else if t[0] == '\'' then 1
    else 1 + QuotedLen(t[1..])
  }

  function BareLen(t: string): (n: nat)
    ensures n <= |t|
  {
    if t == "" || IsSpace(t[0]) then 0
    else if t[0] == '\\' && |t| > 1 then 2 + BareLen(t[2..])
    else 1 + BareLen(t[1..])
  }

  function ValueLen(t: string): (n: nat)
    ensures n <= |t|
  {
    if t != "" && t[0] == '\'' then 1 + QuotedLen(t[1..]) else BareLen(t)
  }

  // ----- Escapes -----

  /** libpq's reading of an escaped text: a backslash gives the character after it. */
  function Unescape(s: string): string {
    if s == "" then ""
    else if s[0] == '\\' && |s| > 1 then [s[1]] + Unescape(s[2..])
    else [s[0]] + Unescape(s[1..])
  }

  /** The number of backslashes right before position `i`. */
  function Slashes(t: string, i: nat): nat
    requires i <= |t|
  {
    if i == 0 || t[i - 1] != '\\' then 0 else 1 + Slashes(t, i - 1)
  }

  /** A character is escaped by an odd number of backslashes before it. */
  predicate Escaped(t: string, i: nat)
    requires i <= |t|
  {
    Slashes(t, i) % 2 == 1
  }

  /** `n` is the first position of an unescaped white space, or the end. */
  predicate FirstBareSpace(t: string, n: nat) {
    && n <= |t| && (n < |t| ==> IsSpace(t[n]) && !Escaped(t, n))
    && forall i :: 0 <= i < n ==> IsSpace(t[i]) ==> Escaped(t, i)
  }

  predicate IsQuote(c: char) {
    c == '\''
  }

  /** `n` is just after the first unescaped quote, or the end if there is none. */
  predicate AfterClosingQuote(t: string, n: nat) {
    && n <= |t|
    && ((n > 0 && IsQuote(t[n - 1]) && !Escaped(t, n - 1) && forall i :: 0 <= i < n - 1 ==> IsQuote(t[i]) ==> Escaped(t, i))
        || (n == |t| && forall i :: 0 <= i < n ==> IsQuote(t[i]) ==> Escaped(t, i)))
  }

  /** Dropping a plain character changes no escape. */
  lemma {:induction false} SlashesDropOne(t: string, i: nat)
    requires 1 <= i <= |t| && t[0] != '\\'
    ensures Slashes(t, i) == Slashes(t[1..], i - 1)
    decreases i
  {
    if i > 1 {
      SlashesDropOne(t, i - 1);
    }
  }

  /** Dropping a backslash with what it escapes changes no escape either. */
  lemma {:induction false} SlashesDropTwo(t: string, i: nat)
    requires 2 <= i <= |t| && t[0] == '\\'
    ensures Slashes(t, i) % 2 == Slashes(t[2..], i - 2) % 2
    ensures i == 2 ==> Slashes(t, i) % 2 == 0
    decreases i
  {
    if i == 2 {
      assert Slashes(t, 1) == 1 && Slashes(t, 2) == if t[1] == '\\' then 2 else 0;
    } else {
      SlashesDropTwo(t, i - 1);
      assert t[i - 1] == t[2..][i - 3];
    }
  }

  lemma {:induction false} BareStopsAtSpace(t: string)
    ensures FirstBareSpace(t, BareLen(t))
    decreases |t|
  {
    var n := BareLen(t);
    if t != "" && !IsSpace(t[0]) {
      var k := if t[0] == '\\' && |t| > 1 then 2 else 1;
      BareStopsAtSpace(t[k..]);
      forall i | k <= i < |t| ensures Escaped(t, i) <==> Escaped(t[k..], i - k) {
        if k == 2 {
          SlashesDropTwo(t, i);
        } else if t[0] != '\\' {
          SlashesDropOne(t, i);
        }
      }
      EscapedStart(t);
      assert forall i :: k <= i < |t| ==> t[i] == t[k..][i - k];
    } else {
      EscapedStart(t);
    }
  }

  /** The first character is not escaped, and the second exactly if the first is a backslash. */
  lemma EscapedStart(t: string)
    ensures !Escaped(t, 0) && (|t| > 0 ==> (Escaped(t, 1) <==> t[0] == '\\'))
  {
  }

  lemma {:induction false} QuotedStopsAfterQuote(t: string)
    ensures AfterClosingQuote(t, QuotedLen(t))
    decreases |t|
  {
    if t != "" && (t[0] != '\'' || (t[0] == '\\' && |t| > 1)) {
      var k := if t[0] == '\\' && |t| > 1 then 2 else 1;
      QuotedStopsAfterQuote(t[k..]);
      forall i | k <= i < |t| ensures Escaped(t, i) <==> Escaped(t[k..], i - k) {
        if k == 2 {
          SlashesDropTwo(t, i);
        } else if t[0] != '\\' {
          SlashesDropOne(t, i);
        }
      }
      EscapedStart(t);
      assert forall i :: k <= i < |t| ==> t[i] == t[k..][i - k];
    } else {
      EscapedStart(t);
    }
  }

  /** White space, a key, and a value if '=' follows the key. */
  datatype Piece = Piece(space: string, key: string, value: Option<string>)

  function Text(p: Piece): string {
    p.space + p.key + if p.value.Some? then "=" + p.value.value else ""
  }

  lemma CutTwice(t: string, a: nat, b: nat, c: nat)
    requires a <= b <= c <= |t|
    ensures t[..c] == t[..a] + t[a..b] + t[b..c]
  {
  }

  lemma AfterEquals(t: string, b: nat, c: nat)
    requires b < c <= |t| && t[b] == '='
    ensures t[b..c] == "=" + t[b + 1..c]
  {
    Uncons(t[b..c]);
    assert t[b..c][1..] == t[b + 1..c] && [t[b]] == "=";
  }

  function ReadPiece(t: string): (p: Piece)
    ensures |Text(p)| <= |t| && t[..|Text(p)|] == Text(p)
    ensures t != "" ==> Text(p) != ""
  {
    var a := SpaceLen(t);
    var b := a + KeyLen(t[a..]);
    if b < |t| && t[b] == '=' then
      var c := b + 1 + ValueLen(t[b + 1..]);
      CutTwice(t, a, b, c);
      AfterEquals(t, b, c);
      Piece(t[..a], t[a..b], Some(t[b + 1..c]))
    else
      KeyIsNotEmpty(t[a..]);
      CutTwice(t, a, b, b);
      Piece(t[..a], t[a..b], None)
  }

  lemma KeyIsNotEmpty(t: string)
    ensures t == "" || IsSpace(t[0]) || t[0] == '=' || KeyLen(t) > 0
  {
  }

  function Scan(t: string): seq<Piece>
    decreases |t|
  {
    if t == "" then [] else [ReadPiece(t)] + Scan(t[|Text(ReadPiece(t))|..])
  }

  function TextOf(ps: seq<Piece>): string {
    if ps == [] then "" else Text(ps[0]) + TextOf(ps[1..])
  }

  lemma {:induction false} ScanIsText(t: string)
    ensures TextOf(Scan(t)) == t
    decreases |t|
  {
    hide ReadPiece, Text;
    if t != "" {
      var n := |Text(ReadPiece(t))|;
      ScanIsText(t[n..]);
      assert t == t[..n] + t[n..];
    }
  }

  // ----- The effective database name -----

  predicate Names(p: Piece, key: string) {
    p.key == key && p.value.Some?
  }

  datatype Span = Span(start: nat, end: nat)

  /** Where the last piece's value lies in the text of `ps`. */
  function ValueSpan(ps: seq<Piece>): Span
    requires ps != [] && ps[|ps| - 1].value.Some?
  {
    var before := TextOf(ps[..|ps| - 1]);
    var p := ps[|ps| - 1];
    Span(|before| + |p.space| + |p.key| + 1, |before| + |Text(p)|)
  }

  /** The value of the last piece with this key: later keys win. */
  function LastSpan(ps: seq<Piece>, key: string): Option<Span> {
    if ps == [] then None
    else if Names(ps[|ps| - 1], key) then Some(ValueSpan(ps))
    else LastSpan(ps[..|ps| - 1], key)
  }

  /** The specification of dbnameValueSpan. */
  function SpanOf(conninfo: string, key: string): Option<Span> {
    LastSpan(Scan(conninfo), key)
  }

  method SkipConninfoSpace(s: string, from: nat) returns (i: nat)
    requires from <= |s|
    ensures i == from + SpaceLen(s[from..])
  {
    i := from;
    while i < |s| && IsSpace(s[i])
      invariant from <= i <= |s| && from + SpaceLen(s[from..]) == i + SpaceLen(s[i..])
    {
      assert s[i..][1..] == s[i + 1..];
      i := i + 1;
    }
  }

  method ScanConninfoKey(s: string, from: nat) returns (key: string, next: nat)
    requires from <= |s|
    ensures next == from + KeyLen(s[from..]) && key == s[from..next]
    ensures (forall i :: 0 <= i < |key| ==> !EndsKey(key[i])) && (next < |s| ==> EndsKey(s[next]))
  {
    hide EndsKey;
    var i := from;
    while i < |s| && s[i] != '=' && !IsSpace(s[i])
      invariant from <= i <= |s| && from + KeyLen(s[from..]) == i + KeyLen(s[i..])
    {
      assert s[i..][1..] == s[i + 1..];
      i := i + 1;
    }
    KeyStops(s[from..]);
    assert forall k :: 0 <= k < i - from ==> s[from..i][k] == s[from..][k];
    return s[from..i], i;
  }

  /** What stands at i decides where the reading from i ends. */
  lemma QuotedLenAt(s: string, i: nat)
    requires i <= |s|
    ensures QuotedLen(s[i..]) ==
            if i == |s| then 0
            else if s[i] == '\\' && i + 1 < |s| then 2 + QuotedLen(s[i + 2..])
            else if s[i] == '\'' then 1
            else 1 + QuotedLen(s[i + 1..])
  {
    if i < |s| {
      assert s[i..][1..] == s[i + 1..];
      if i + 1 < |s| {
        assert s[i..][2..] == s[i + 2..];
      }
    }
  }

  method ScanQuotedConninfoValue(s: string, from: nat) returns (i: nat)
    requires from < |s| && s[from] == '\''
    ensures i == from + 1 + QuotedLen(s[from + 1..]) && AfterClosingQuote(s[from + 1..], i - from - 1)
  {
    hide AfterClosingQuote, QuotedLen;
    QuotedStopsAfterQuote(s[from + 1..]);
    i := from + 1;
    while i < |s|
      invariant from < i <= |s| && from + 1 + QuotedLen(s[from + 1..]) == i + QuotedLen(s[i..])
    {
      QuotedLenAt(s, i);
      if s[i] == '\\' && i + 1 < |s| {
        i := i + 2;
        continue;
      }
      if s[i] == '\'' {
        return i + 1;
      }
      i := i + 1;
    }
    QuotedLenAt(s, |s|);
  }

  method ScanBareConninfoValue(s: string, from: nat) returns (i: nat)
    requires from <= |s|
    ensures i == from + BareLen(s[from..]) && FirstBareSpace(s[from..], i - from)
  {
    BareStopsAtSpace(s[from..]);
    hide FirstBareSpace;
    i := from;
    while i < |s| && !IsSpace(s[i])
      invariant from <= i <= |s| && from + BareLen(s[from..]) == i + BareLen(s[i..])
    {
      assert s[i..][1..] == s[i + 1..] && (i + 1 < |s| ==> s[i..][2..] == s[i + 2..]);
      if s[i] == '\\' && i + 1 < |s| {
        i := i + 1;
      }
      i := i + 1;
    }
  }

  method ScanConninfoValue(s: string, from: nat) returns (i: nat)
    requires from <= |s|
    ensures i == from + ValueLen(s[from..])
    ensures if from < |s| && s[from] == '\'' then i > from && AfterClosingQuote(s[from + 1..], i - from - 1)
            else FirstBareSpace(s[from..], i - from)
  {
    if from < |s| && s[from] == '\'' {
      i := ScanQuotedConninfoValue(s, from);
      assert s[from..][1..] == s[from + 1..];
    } else {
      i := ScanBareConninfoValue(s, from);
    }
  }

  /** The walk so far read the pieces `done`, and the rest is still to be read. */
  ghost predicate Scanned(s: string, i: nat, done: seq<Piece>) {
    i <= |s| && TextOf(done) == s[..i] && Scan(s) == done + Scan(s[i..])
  }

  lemma {:induction false} TextOfJoins(a: seq<Piece>, b: seq<Piece>)
    ensures TextOf(a + b) == TextOf(a) + TextOf(b)
  {
    hide Text;
    if a == [] {
      assert a + b == b;
    } else {
      TextOfJoins(a[1..], b);
      assert (a + b)[1..] == a[1..] + b;
      Associate(Text(a[0]), TextOf(a[1..]), TextOf(b));
    }
  }

  lemma ScanOn(s: string, i: nat, done: seq<Piece>)
    requires Scanned(s, i, done) && i < |s|
    ensures var p := ReadPiece(s[i..]);
            Scanned(s, i + |Text(p)|, done + [p]) && |Text(p)| > 0 && s[i..i + |Text(p)|] == Text(p)
  {
    hide ReadPiece, Text;
    var p := ReadPiece(s[i..]);
    var n := |Text(p)|;
    TextOfJoins(done, [p]);
    assert TextOf([p]) == Text(p) + TextOf([]);
    assert s[i..][..n] == s[i..i + n] && s[i..][n..] == s[i + n..];
    assert s[..i + n] == s[..i] + s[i..i + n];
    assert done + ([p] + Scan(s[i + n..])) == (done + [p]) + Scan(s[i + n..]);
  }

  lemma LastSpanSnoc(done: seq<Piece>, p: Piece, key: string)
    ensures LastSpan(done + [p], key) ==
            if Names(p, key)
            then Some(Span(|TextOf(done)| + |p.space| + |p.key| + 1, |TextOf(done)| + |Text(p)|))
            else LastSpan(done, key)
  {
    assert (done + [p])[..|done|] == done;
  }

  /** A cut of a suffix, as a cut of the whole. */
  lemma CutShift(s: string, from: nat, a: nat, b: nat)
    requires from <= a <= b <= |s|
    ensures s[from..][..a - from] == s[from..a] && s[from..][a - from..] == s[a..]
    ensures s[from..][a - from..b - from] == s[a..b]
    ensures b < |s| ==> s[from..][b - from] == s[b]
  {
  }

  /** What a piece is read from, by the positions its scanners stop at. */
  lemma PieceParts(t: string, a: nat, b: nat)
    requires a == SpaceLen(t) && b == a + KeyLen(t[a..])
    ensures var p := ReadPiece(t);
            var named := b < |t| && t[b] == '=';
            && b <= |t| && p.space == t[..a] && p.key == t[a..b] && (p.value.Some? <==> named)
            && |Text(p)| == if named then b + 1 + ValueLen(t[b + 1..]) else b
  {
    hide SpaceLen, KeyLen, ValueLen, Text;
    PieceLength(ReadPiece(t));
  }

  /** The piece read at `from`. */
  lemma PieceAt(s: string, from: nat, a: nat, b: nat)
    requires from <= |s| && a == from + SpaceLen(s[from..]) && b == a + KeyLen(s[a..])
    ensures var p := ReadPiece(s[from..]);
            var named := b < |s| && s[b] == '=';
            && p.space == s[from..a] && p.key == s[a..b] && (p.value.Some? <==> named)
            && (named ==> from + |Text(p)| == b + 1 + ValueLen(s[b + 1..]))
            && (!named ==> from + |Text(p)| == b)
  {
    hide SpaceLen, KeyLen, ValueLen, ReadPiece, Text;
    CutShift(s, from, a, b);
    PieceParts(s[from..], a - from, b - from);
    if b < |s| {
      CutShift(s, from, b + 1, |s|);
    }
  }

  /** One turn of the loop: one more piece, and the span of the last match with it. */
  lemma Turn(s: string, from: nat, done: seq<Piece>, a: nat, b: nat, end: nat, key: string) returns (p: Piece)
    requires from < |s| && Scanned(s, from, done)
    requires a == from + SpaceLen(s[from..]) && b == a + KeyLen(s[a..])
    requires end == if b < |s| && s[b] == '=' then b + 1 + ValueLen(s[b + 1..]) else b
    ensures Scanned(s, end, done + [p]) && from < end
    ensures LastSpan(done + [p], key) ==
            if b < |s| && s[b] == '=' && s[a..b] == key then Some(Span(b + 1, end)) else LastSpan(done, key)
  {
    hide ReadPiece, Text, LastSpan, SpaceLen, KeyLen, ValueLen;
    p := ReadPiece(s[from..]);
    PieceAt(s, from, a, b);
    ScanOn(s, from, done);
    LastSpanSnoc(done, p, key);
    LengthSoFar(s, from, done);
  }

  /** The span of the effective dbname value, keeping the last one seen. */
  method DbnameValueSpan(conninfo: string) returns (start: nat, end: nat, ok: bool)
    ensures SpanOf(conninfo, "dbname") == if ok then Some(Span(start, end)) else None
  {
    hide ReadPiece, Scan, Scanned, LastSpan, SpaceLen, KeyLen, ValueLen;
    start, end, ok := 0, 0, false;
    var i := 0;
    ghost var done: seq<Piece> := [];
    ghost var p;
    ScanStarts(conninfo);
    while i < |conninfo|
      invariant i <= |conninfo| && Scanned(conninfo, i, done)
      invariant LastSpan(done, "dbname") == if ok then Some(Span(start, end)) else None
    {
      ghost var from := i;
      i := SkipConninfoSpace(conninfo, i);
      ghost var keyStart := i;
      if i >= |conninfo| {
        NoKeyAtEnd(conninfo);
        p := Turn(conninfo, from, done, i, i, i, "dbname");
        done := done + [p];
        break;
      }
      var key, next := ScanConninfoKey(conninfo, i);
      i := next;
      if i >= |conninfo| || conninfo[i] != '=' {
        p := Turn(conninfo, from, done, keyStart, i, i, "dbname");
        done := done + [p];
        continue;
      }
      i := i + 1;
      var valStart := i;
      i := ScanConninfoValue(conninfo, i);
      p := Turn(conninfo, from, done, keyStart, next, i, "dbname");
      done := done + [p];
      if key == "dbname" {
        start, end, ok := valStart, i, true;
      }
    }
    ScanEnds(conninfo, i, done);
  }

  lemma NoKeyAtEnd(s: string)
    ensures KeyLen(s[|s|..]) == 0
  {
  }

  lemma ScanStarts(s: string)
    ensures Scanned(s, 0, []) && LastSpan([], "dbname") == None
  {
    assert s[0..] == s && [] + Scan(s) == Scan(s);
  }

  lemma ScanEnds(s: string, i: nat, done: seq<Piece>)
    requires Scanned(s, i, done) && i == |s|
    ensures Scan(s) == done
  {
    assert s[i..] == "";
  }

  lemma LengthSoFar(s: string, i: nat, done: seq<Piece>)
    requires Scanned(s, i, done)
    ensures |TextOf(done)| == i
  {
  }

  lemma PieceLength(p: Piece)
    ensures |Text(p)| == |p.space| + |p.key| + if p.value.Some? then 1 + |p.value.value| else 0
  {
  }
}
