/**
 Which database a keyword/value string names, and when the one derive splices in
 (db/dbtest/dbtest.go) is the one the result names. The splice escapes nothing, so what the name's
 own quotes, backslashes and white space mean to the next reader decides.
 */
module ConninfoNames {
  import opened Seqs
  import opened Conninfo
  import opened ConninfoEdit

  // ----- What a value denotes -----

  predicate EndsInSlash(v: string) {
    v != "" && v[|v| - 1] == '\\' && !Escaped(v, |v| - 1)
  }

  /** The text after an opening quote ends with the closing one. */
  predicate Closed(t: string) {
    t != "" && IsQuote(t[|t| - 1]) && !Escaped(t, |t| - 1)
  }

  /** What a scanned value stands for: nothing, if it ends inside a quote or an escape. */
  function Denoted(v: string): Option<string> {
    if v != "" && v[0] == '\'' then
      if Closed(v[1..]) then Some(Unescape(v[1..|v| - 1])) else None
    else if EndsInSlash(v) then None
    else Some(Unescape(v))
  }

  /** The database a keyword/value string names. */
  function Database(conninfo: string): Option<string> {
    var at := SpanOf(conninfo, "dbname");
    SpanFits(conninfo, "dbname");
    if at.None? then None else Denoted(conninfo[at.value.start..at.value.end])
  }

  /** Written as it is, the name is one bare value and means itself. */
  predicate Bare(n: string) {
    n != "" && n[0] != '\'' && Literal(n)
  }

  predicate EndsPlain(n: string) {
    n != "" && !IsSpace(n[|n| - 1]) && n[|n| - 1] != '\'' && n[|n| - 1] != '\\'
  }

  lemma {:induction false} UnescapeShortens(s: string)
    ensures |Unescape(s)| <= |s| && (s != "" ==> Unescape(s) != "")
    decreases |s|
  {
    if s != "" {
      var k := if s[0] == '\\' && |s| > 1 then 2 else 1;
      UnescapeShortens(s[k..]);
    }
  }

  predicate NoSlash(s: string) {
    forall i :: 0 <= i < |s| ==> s[i] != '\\'
  }

  /** Text without backslashes is read as it is. */
  lemma {:induction false} UnescapeJoins(u: string, v: string)
    requires NoSlash(u)
    ensures Unescape(u + v) == u + Unescape(v)
  {
    if u == "" {
      assert u + v == v;
    } else {
      UnescapeJoins(u[1..], v);
      DropJoin(u, v, 1);
      Uncons(u);
      Associate([u[0]], u[1..], Unescape(v));
    }
  }

  predicate Special(c: char) {
    c == '\\' || c == '\''
  }

  /**
   A text that begins with n and, read from p, gives n from j < p: as every character read was put
   there by an earlier one, n is nothing but quotes and backslashes from i on.
   */
  lemma {:induction false} Runaway(w: string, n: string, i: nat, j: nat, p: nat)
    requires n <= w && i <= j < p <= |w| && j <= |n| && Unescape(w[p..]) == n[j..]
    requires forall x :: i <= x < p ==> Special(w[x])
    ensures forall x :: i <= x < |n| ==> Special(n[x])
    decreases |n| - j
  {
    if p < |n| {
      hide Unescape;
      var k := Glyph(w, p);
      ReadOne(w, p);
      Uncons(n[j..]);
      assert n[j..][1..] == n[j + 1..];
      Runaway(w, n, i, j + 1, p + k);
    }
  }

  /** How many characters of the text one character is read from. */
  function Glyph(w: string, p: nat): (k: nat)
    requires p < |w|
    ensures 1 <= k <= 2 && p + k <= |w|
  {
    if w[p] == '\\' && |w| - p > 1 then 2 else 1
  }

  lemma ReadOne(w: string, p: nat)
    requires p < |w|
    ensures var k := Glyph(w, p); Unescape(w[p..]) == [w[p + k - 1]] + Unescape(w[p + k..])
  {
    var k := Glyph(w, p);
    assert w[p..][k..] == w[p + k..];
  }

  /** With no backslash in it, a name ends at its first white space. */
  lemma StopsEarly(n: string, rest: string, i: nat)
    requires NoSlash(n) && i < |n| && IsSpace(n[i])
    ensures BareLen(n + rest) <= i
  {
    var t := n + rest;
    BareStopsAtSpace(t);
    assert t[i] == n[i] && (i > 0 ==> t[i - 1] == n[i - 1]);
    assert Slashes(t, i) == 0;
  }

  lemma FirstSlash(n: string) returns (i: nat)
    requires !NoSlash(n)
    ensures i < |n| && n[i] == '\\' && NoSlash(n[..i])
  {
    i := 0;
    while n[i] != '\\'
      invariant i < |n| && forall j :: 0 <= j < i ==> n[j] != '\\'
      invariant exists j :: i <= j < |n| && n[j] == '\\'
      decreases |n| - i
    {
      i := i + 1;
    }
  }

  /** A longer value is not the name, when the name opens with a quote ... */
  lemma QuoteMisread(n: string, v: string)
    requires EndsPlain(n) && n[0] == '\'' && n <= v
    ensures Denoted(v) != Some(n)
  {
    assert !Special(n[|n| - 1]);
    if Denoted(v) == Some(n) {
      assert v[1..][|v| - 2] == v[|v| - 1];
      assert |n| < |v|;
      var w := v[..|v| - 1];
      assert w[1..] == v[1..|v| - 1] && n[0..] == n && n <= w;
      Runaway(w, n, 0, 0, 1);
    }
  }

  /** What is read after the first backslash of a text that reads as its own beginning. */
  lemma PastSlash(n: string, v: string, i: nat)
    requires n <= v && i + 1 < |n| && NoSlash(n[..i]) && n[i] == '\\' && Unescape(v) == n
    ensures v[i] == '\\' && v[i + 1] == '\\' && Unescape(v[i + 2..]) == n[i + 1..]
  {
    assert v[..i] == n[..i];
    UnescapeJoins(v[..i], v[i..]);
    assert v == v[..i] + v[i..];
    assert n[i..] == Unescape(v[i..]);
    assert v[i..][2..] == v[i + 2..] && n[i..][1..] == n[i + 1..];
  }

  /** ... and when it has a backslash. */
  lemma SlashMisread(n: string, v: string)
    requires EndsPlain(n) && n[0] != '\'' && !NoSlash(n) && n <= v
    ensures Denoted(v) != Some(n)
  {
    hide Unescape, NoSlash;
    assert !Special(n[|n| - 1]);
    if Denoted(v) == Some(n) {
      var i := FirstSlash(n);
      PastSlash(n, v, i);
      Runaway(v, n, i, i + 1, i + 2);
    }
  }

  lemma BareIsItself(n: string)
    requires Bare(n)
    ensures Denoted(n) == Some(n)
  {
    UnescapeJoins(n, "");
    assert n + "" == n;
  }

  /** A bare name that the scanner runs past denotes more than itself. */
  lemma BareRunsOn(n: string, m: string)
    requires Bare(n) && m != ""
    ensures Denoted(n + m) != Some(n)
  {
    UnescapeJoins(n, m);
    UnescapeShortens(m);
    assert (n + m)[0] == n[0];
    assert |n + Unescape(m)| > |n|;
  }

  lemma ShorterIsNot(n: string, v: string)
    requires |v| < |n|
    ensures Denoted(v) != Some(n)
  {
    UnescapeShortens(v);
    if v != "" && v[0] == '\'' && Closed(v[1..]) {
      UnescapeShortens(v[1..|v| - 1]);
    }
  }

  /** The value read where a name is spliced in denotes the name exactly if the name is bare and ends there. */
  lemma NameDenoted(n: string, rest: string)
    requires EndsPlain(n)
    ensures Denoted((n + rest)[..ValueLen(n + rest)]) == Some(n) <==> Bare(n) && Breaks(rest)
    ensures Bare(n) && Breaks(rest) ==> ValueLen(n + rest) == |n|
  {
    hide Denoted, BareLen, QuotedLen, Unescape;
    var t, len := n + rest, ValueLen(n + rest);
    var v := t[..len];
    assert t[0] == n[0];
    if len < |n| {
      ShorterIsNot(n, v);
    }
    if Bare(n) {
      LiteralStops(n, rest);
      BreaksHere(rest);
      assert v == n + rest[..BareLen(rest)];
      if Breaks(rest) {
        assert v == n;
        BareIsItself(n);
      } else {
        BareRunsOn(n, rest[..BareLen(rest)]);
      }
    } else if len >= |n| {
      assert n <= v;
      if n[0] == '\'' {
        QuoteMisread(n, v);
      } else if !NoSlash(n) {
        SlashMisread(n, v);
      } else {
        var i :| 0 <= i < |n| && IsSpace(n[i]);
        StopsEarly(n, rest, i);
      }
    }
  }

  lemma BreaksHere(rest: string)
    ensures BareLen(rest) == 0 <==> Breaks(rest)
  {
  }

  lemma {:induction false} SlashesOfPrefix(t: string, more: string, i: nat)
    requires i <= |t|
    ensures Slashes(t + more, i) == Slashes(t, i)
    decreases i
  {
    if i > 0 {
      assert (t + more)[i - 1] == t[i - 1];
      SlashesOfPrefix(t, more, i - 1);
    }
  }

  /** A quoted value that the scanner leaves with text still to come is closed. */
  lemma ScannedIsClosed(t: string, more: string)
    requires QuotedLen(t + more) == |t| && more != ""
    ensures Closed(t)
  {
    QuotedStopsAfterQuote(t + more);
    assert (t + more)[|t| - 1] == t[|t| - 1];
    SlashesOfPrefix(t, more, |t| - 1);
  }

  // ----- The spliced string -----

  predicate StandsAt(w: string, t: string, i: nat) {
    i + |w| <= |t| && t[i..i + |w|] == w
  }

  ghost predicate Occurs(w: string, t: string) {
    exists i: nat :: StandsAt(w, t, i)
  }

  lemma {:induction false} LastSpanExists(ps: seq<Piece>, key: string, k: nat)
    requires k < |ps| && Names(ps[k], key)
    ensures LastSpan(ps, key).Some?
  {
    hide ValueSpan;
    if k < |ps| - 1 {
      LastSpanExists(ps[..|ps| - 1], key, k);
    }
  }

  /** The key of a later value stands in what follows an earlier value's start. */
  lemma KeyOccurs(conninfo: string, k: nat, i: nat)
    requires k < i < |Scan(conninfo)| && Scan(conninfo)[k].value.Some? && Names(Scan(conninfo)[i], "dbname")
    ensures var ps := Scan(conninfo);
            var start := ValueSpan(ps[..k + 1]).start;
            start <= |conninfo| && start < ValueSpan(ps[..i + 1]).start && Occurs("dbname", conninfo[start..])
  {
    hide Scan, ValueSpan, TextOf, StandsAt, Occurs;
    var ps := Scan(conninfo);
    SpanIsAt(conninfo, k);
    SpanIsAt(conninfo, i);
    SpanInside(ps, k, i);
    var start, to := ValueSpan(ps[..k + 1]).start, ValueSpan(ps[..i + 1]).start;
    var q := |TextOf(ps[..i])| + |ps[i].space|;
    KeyInFront(conninfo[..to], TextOf(ps[..i]), ps[i].space);
    StandsBehind("dbname", conninfo, to, start, q);
  }

  lemma StandsBehind(w: string, t: string, to: nat, start: nat, q: nat)
    requires start <= q && to <= |t| && StandsAt(w, t[..to], q)
    ensures Occurs(w, t[start..])
  {
    assert t[..to][q..q + |w|] == t[q..q + |w|];
    CutShift(t, start, q, q + |w|);
    assert StandsAt(w, t[start..], q - start);
  }

  lemma KeyInFront(t: string, before: string, space: string)
    requires t == before + (space + "dbname" + "=")
    ensures StandsAt("dbname", t, |before| + |space|)
  {
  }

  /** Where the last dbname value of the spliced string is: where the new name was put, or later. */
  lemma SplicedSpan(base: string, n: string)
    requires SpanOf(base, "dbname").Some?
    ensures RewriteDatabase(base, n).Some?
    ensures var at, out := SpanOf(base, "dbname").value, RewriteDatabase(base, n).value;
            && at.start <= at.end <= |base| && SpanOf(out, "dbname").Some?
            && at.start <= |out| && out[at.start..] == n + base[at.end..]
            && var s := SpanOf(out, "dbname").value;
            && s.start <= s.end <= |out| && at.start <= s.start
            && (s.start == at.start ==> s.end == at.start + ValueLen(n + base[at.end..]))
            && (s.start > at.start ==> Occurs("dbname", n + base[at.end..]))
  {
    hide Scan, ReadPiece, ValueLen, LastSpan, ValueSpan, Occurs;
    var ps := Scan(base);
    var k := LastNamed(ps, "dbname");
    SpanIsAt(base, k);
    SplicedAt(base, n, k);
    var text := RewriteDatabase(base, n).value;
    var out := Scan(text);
    SameStart(ps, out, k);
    StartBeforeEnd(out, k);
    LastSpanExists(out, "dbname", k);
    SpanFits(text, "dbname");
    var i := LastNamed(out, "dbname");
    StringTail(base, n, SpanOf(base, "dbname").value.start, SpanOf(base, "dbname").value.end);
    if i > k {
      KeyOccurs(text, k, i);
    }
  }

  lemma StringTail(base: string, n: string, start: nat, end: nat)
    requires start <= end <= |base|
    ensures (base[..start] + n + base[end..])[start..] == n + base[end..]
  {
  }

  /** The last dbname value is where the new name was put, and denotes it. */
  predicate Renamed(base: string, n: string)
    requires SpanOf(base, "dbname").Some? && RewriteDatabase(base, n).Some?
  {
    var at, s := SpanOf(base, "dbname").value, SpanOf(RewriteDatabase(base, n).value, "dbname");
    s.Some? && s.value.start == at.start && Database(RewriteDatabase(base, n).value) == Some(n)
  }

  /**
   The rewritten string names the new database, by the value put there, if and only if the name is
   bare and white space or the end follows the old value. Otherwise it can only name it by accident,
   with another dbname key that is no key in the old string.
   */
  lemma RewriteNames(base: string, n: string)
    requires SpanOf(base, "dbname").Some? && EndsPlain(n)
    ensures RewriteDatabase(base, n).Some? && SpanOf(base, "dbname").value.end <= |base|
    ensures var out, rest := RewriteDatabase(base, n).value, base[SpanOf(base, "dbname").value.end..];
            && (Renamed(base, n) <==> Bare(n) && Breaks(rest))
            && (!Occurs("dbname", n + rest) ==> (Database(out) == Some(n) <==> Bare(n) && Breaks(rest)))
  {
    hide Scan, ReadPiece, ValueLen, SpanOf, RewriteDatabase, Denoted, Occurs, Breaks, Bare;
    SplicedSpan(base, n);
    var at, out := SpanOf(base, "dbname").value, RewriteDatabase(base, n).value;
    var t := n + base[at.end..];
    NameDenoted(n, base[at.end..]);
    var s := SpanOf(out, "dbname").value;
    if s.start == at.start {
      CutShift(out, at.start, s.end, s.end);
      assert out[s.start..s.end] == t[..ValueLen(t)];
    } else if Bare(n) && Breaks(base[at.end..]) {
      BareSelected(base, n);
    }
  }

  lemma BareSelected(base: string, n: string)
    requires SpanOf(base, "dbname").Some? && Bare(n)
    requires SpanOf(base, "dbname").value.end <= |base| && Breaks(base[SpanOf(base, "dbname").value.end..])
    ensures RewriteDatabase(base, n).Some?
    ensures var at := SpanOf(base, "dbname").value;
            SpanOf(RewriteDatabase(base, n).value, "dbname") == Some(Span(at.start, at.start + |n|))
  {
    hide Scan, LastSpan, ReadPiece, ValueSpan, SpanOf, RewriteDatabase, BareLen, QuotedLen;
    var k := RewriteSelects(base, n);
    var rest := base[SpanOf(base, "dbname").value.end..];
    LiteralStops(n, rest);
    BreaksHere(rest);
    assert (n + rest)[0] == n[0];
  }

  /** The name derive returns is the one its string names exactly if the base name is bare and the old value ends in a break. */
  lemma DerivedNames(dsn: string, base: string, suffix: string)
    requires Derive(dsn, base, suffix).Derived?
    ensures SpanOf(dsn, "dbname").Some? && SpanOf(dsn, "dbname").value.end <= |dsn|
    ensures var d := Derive(dsn, base, suffix);
            var rest := dsn[SpanOf(dsn, "dbname").value.end..];
            && RewriteDatabase(dsn, d.name) == Some(d.dsn)
            && (Renamed(dsn, d.name) <==> Bare(base) && Breaks(rest))
            && (Bare(base) && Breaks(rest) ==> Database(d.dsn) == Some(d.name))
            && (!Occurs("dbname", d.name + rest) ==> (Database(d.dsn) == Some(d.name) <==> Bare(base) && Breaks(rest)))
  {
    hide Scan, ReadPiece, SpanOf, RewriteDatabase, Database, Occurs, Breaks;
    DerivedBare(base, suffix);
    HasKey(dsn, base + "_" + Lower(suffix));
    RewriteNames(dsn, base + "_" + Lower(suffix));
  }

  lemma HasKey(base: string, n: string)
    ensures RewriteDatabase(base, n).Some? <==> SpanOf(base, "dbname").Some?
  {
  }

  /** A suffix adds nothing that matters to how the name is read. */
  lemma DerivedBare(base: string, suffix: string)
    requires base != "" && suffix != "" && PackageIdentifier(suffix)
    ensures var n := base + "_" + Lower(suffix); EndsPlain(n) && (Bare(n) <==> Bare(base))
  {
    var n, low := base + "_" + Lower(suffix), Lower(suffix);
    assert n[0] == base[0] && n[|n| - 1] == low[|low| - 1];
    if Bare(n) {
      assert forall i :: 0 <= i < |base| ==> base[i] == n[i];
    }
    assert forall i :: |base| < i < |n| ==> n[i] == low[i - |base| - 1];
  }

  // ----- Names that miss -----

  /** A name that opens with a quote, spliced in at the end: selected as text, it denotes nothing. */
  lemma LeadingQuoteNamesNothing(base: string, v: string)
    requires SpanOf(base, "dbname").Some? && SpanOf(base, "dbname").value.end == |base| && Plain(v)
    ensures var n, at := "'" + v, SpanOf(base, "dbname").value;
            && RewriteDatabase(base, n).Some?
            && SpanOf(RewriteDatabase(base, n).value, "dbname") == Some(Span(at.start, at.start + |n|))
            && Database(RewriteDatabase(base, n).value) == None
  {
    hide Scan, LastSpan, ReadPiece, ValueSpan, SpanOf, RewriteDatabase, ValueLen, Denoted;
    var n := "'" + v;
    var k := RewriteSelects(base, n);
    OpenQuote(v, "");
    SelectedText(base, n);
    OpenDenotesNothing(v);
  }

  lemma OpenDenotesNothing(v: string)
    requires Plain(v)
    ensures Denoted("'" + v) == None
  {
    assert ("'" + v)[1..] == v;
  }

  /** The text selected is the name, when the span is the name's. */
  lemma SelectedText(base: string, n: string)
    requires SpanOf(base, "dbname").Some?
    ensures RewriteDatabase(base, n).Some?
    ensures var at, out := SpanOf(base, "dbname").value, RewriteDatabase(base, n).value;
            SpanOf(out, "dbname") == Some(Span(at.start, at.start + |n|)) ==> Database(out) == Denoted(n)
  {
    hide Scan, LastSpan, ReadPiece, ValueSpan, SpanOf, Denoted;
    SpanFits(base, "dbname");
    var at := SpanOf(base, "dbname").value;
    assert (base[..at.start] + n + base[at.end..])[at.start..at.start + |n|] == n;
  }

  /** A name with a backslash before its last part: selected as text, it denotes the name without it. */
  lemma BackslashNamesAnother(base: string, u: string, c: char, v: string)
    requires SpanOf(base, "dbname").Some? && SpanOf(base, "dbname").value.end <= |base|
    requires Breaks(base[SpanOf(base, "dbname").value.end..])
    requires Plain(u) && Plain(v) && v != ""
    ensures var n, at := u + ['\\', c] + v, SpanOf(base, "dbname").value;
            && RewriteDatabase(base, n).Some?
            && SpanOf(RewriteDatabase(base, n).value, "dbname") == Some(Span(at.start, at.start + |n|))
            && Database(RewriteDatabase(base, n).value) == Some(u + [c] + v)
  {
    hide Scan, LastSpan, ReadPiece, ValueSpan, SpanOf, RewriteDatabase, ValueLen, Denoted;
    var n := u + ['\\', c] + v;
    var k := RewriteSelects(base, n);
    SlashStops(u, c, v, base[SpanOf(base, "dbname").value.end..]);
    SelectedText(base, n);
    SlashDenotes(u, c, v);
  }

  lemma SlashStops(u: string, c: char, v: string, rest: string)
    requires Plain(u) && Plain(v) && Breaks(rest)
    ensures ValueLen(u + ['\\', c] + v + rest) == |u| + 2 + |v|
  {
    var t := ['\\', c] + (v + rest);
    assert u + ['\\', c] + v + rest == u + t;
    LiteralStops(u, t);
    DropJoin(['\\', c], v + rest, 2);
    LiteralStops(v, rest);
    BreaksHere(rest);
    assert (u + t)[0] == if u == "" then '\\' else u[0];
  }

  lemma SlashDenotes(u: string, c: char, v: string)
    requires Plain(u) && Plain(v) && v != ""
    ensures Denoted(u + ['\\', c] + v) == Some(u + [c] + v)
  {
    var n, t := u + ['\\', c] + v, ['\\', c] + v;
    Associate(u, ['\\', c], v);
    UnescapeJoins(u, t);
    assert t[2..] == v;
    UnescapeJoins(v, "");
    assert v + "" == v;
    Associate(u, [c], v);
    assert n[0] == (if u == "" then '\\' else u[0]) && n[|n| - 1] == v[|v| - 1];
  }

  /** A string of one piece. */
  lemma OneValue(v: string)
    requires ValueLen(v + "") == |v|
    ensures SpanOf("dbname=" + v, "dbname") == Some(Span(7, 7 + |v|)) && Database("dbname=" + v) == Denoted(v)
  {
    hide Scan, ReadPiece, ValueLen, Denoted;
    var p := Piece("", "dbname", Some(v));
    ReadsHere(p, "");
    ScanFirst(p, "");
    ScanOfNothing();
    assert Text(p) + "" == "dbname=" + v;
    assert [p] + [] == [p] && [p][..0] == [] && TextOf([]) == "";
    LastSpanAt([p], "dbname", 0);
    assert ("dbname=" + v)[7..7 + |v|] == v;
  }

  lemma DeriveSplices(dsn: string, base: string, suffix: string)
    requires suffix != "" && PackageIdentifier(suffix) && EndsWith(base, "_test") && |base| + |suffix| <= 62
    requires SpanOf(dsn, "dbname").Some?
    ensures var n := base + "_" + Lower(suffix);
            RewriteDatabase(dsn, n).Some? && Derive(dsn, base, suffix) == Derived(RewriteDatabase(dsn, n).value, n)
  {
  }

  /** Whatever package asks, a base whose name opens with a quote is derived into a string that names nothing. */
  lemma QuotedBaseNamesNothing(v: string, suffix: string)
    requires Plain(v) && EndsWith("'" + v, "_test") && suffix != "" && PackageIdentifier(suffix) && |v| + |suffix| <= 61
    ensures var dsn := "dbname=" + ("'\\'" + v + "'");
            && Database(dsn) == Some("'" + v)
            && Derive(dsn, "'" + v, suffix).Derived? && Database(Derive(dsn, "'" + v, suffix).dsn) == None
  {
    hide Scan, ReadPiece, SpanOf, ValueLen, Denoted, Database, RewriteDatabase, Derive, PackageIdentifier, EndsWith;
    var value := "'\\'" + v + "'";
    var dsn := "dbname=" + value;
    var low := "_" + Lower(suffix);
    LowerIsPlain(suffix);
    EscapedQuoteStops(v);
    EscapedQuoteDenotes(v);
    OneValue(value);
    LeadingQuoteNamesNothing(dsn, v + low);
    assert "'" + (v + low) == "'" + v + "_" + Lower(suffix);
    DeriveSplices(dsn, "'" + v, suffix);
  }

  lemma EscapedQuoteStops(v: string)
    requires Plain(v)
    ensures ValueLen("'\\'" + v + "'" + "") == |v| + 4
  {
    QuotedPlainLen(v, "");
    var t := ("'\\'" + v + "'" + "")[1..];
    assert t[2..] == v + ("'" + "");
  }

  lemma EscapedQuoteDenotes(v: string)
    requires Plain(v)
    ensures Denoted("'\\'" + v + "'") == Some("'" + v)
  {
    var value := "'\\'" + v + "'";
    var t := value[1..];
    assert t[|t| - 2] == if v == "" then '\'' else v[|v| - 1];
    assert Slashes(t, |t| - 1) == 0;
    var inner := value[1..|value| - 1];
    assert inner == "\\'" + v && inner[2..] == v;
    UnescapeJoins(v, "");
    assert v + "" == v;
  }

  /** Whatever package asks, a base with a backslash in its name is derived into a string that names another database. */
  lemma SlashedBaseNamesAnother(u: string, v: string, suffix: string)
    requires Plain(u) && Plain(v) && EndsWith(v, "_test")
    requires suffix != "" && PackageIdentifier(suffix) && |u| + |v| + |suffix| <= 61
    ensures var dsn, base := "dbname=" + (u + "\\\\" + v), u + "\\" + v;
            && Database(dsn) == Some(base) && Derive(dsn, base, suffix).Derived?
            && Database(Derive(dsn, base, suffix).dsn) == Some(u + v + "_" + Lower(suffix))
  {
    hide Scan, ReadPiece, SpanOf, ValueLen, Denoted, Database, RewriteDatabase, Derive, PackageIdentifier;
    var value, base, low := u + "\\\\" + v, u + "\\" + v, "_" + Lower(suffix);
    LowerIsPlain(suffix);
    assert "\\\\" == ['\\', '\\'];
    SlashStops(u, '\\', v, "");
    SlashDenotes(u, '\\', v);
    OneValue(value);
    var dsn := "dbname=" + value;
    assert dsn[|dsn|..] == "";
    assert base == u + ("\\" + v) && base[|base| - 5..] == v[|v| - 5..];
    BackslashNamesAnother(dsn, u, v[0], v[1..] + low);
    assert u + ['\\', v[0]] + (v[1..] + low) == base + "_" + Lower(suffix);
    assert u + [v[0]] + (v[1..] + low) == u + v + "_" + Lower(suffix);
    DeriveSplices(dsn, base, suffix);
  }

  // ----- Another key by accident -----

  /** A quoted value right behind the database's: with the quote before it gone, its text becomes keys. */
  function Behind(n: string): string {
    "y='z dbname=" + n + " x='"
  }

  lemma BehindText(n: string)
    ensures Text(Piece("", "y", Some("'" + ("z dbname=" + n + " x=") + "'"))) + "" == Behind(n)
  {
    var key := "y" + ("=" + ("'" + ("z dbname=" + n + " x=") + "'"));
    assert Text(Piece("", "y", Some("'" + ("z dbname=" + n + " x=") + "'"))) == key;
    assert "y" + "=" + "'" + "z dbname=" == "y='z dbname=" && " x=" + "'" == " x='";
    Rejoin("y" + "=" + "'", "z dbname=", n, " x=", "'");
    assert key == "y" + "=" + "'" + ("z dbname=" + n + " x=") + "'";
  }

  lemma Rejoin(a: string, b: string, n: string, c: string, d: string)
    ensures a + (b + n + c) + d == (a + b) + n + (c + d)
  {
  }

  lemma BehindSplits(n: string)
    ensures n + Behind(n) == (n + "y='z") + ((" dbname=" + n) + " x='")
  {
    assert "y='z" + " dbname=" == "y='z dbname=";
    Regroup(n, "y='z", " dbname=", n, " x='");
  }

  lemma Regroup(a: string, b: string, c: string, d: string, e: string)
    ensures a + (b + c + d + e) == (a + b) + ((c + d) + e)
  {
  }

  lemma KeyTexts(n: string)
    ensures Text(Piece(" ", "dbname", Some(n))) == " dbname=" + n
    ensures Text(Piece(" ", "x", Some("'"))) + "" == " x='"
  {
    assert Text(Piece(" ", "dbname", Some(n))) == " " + "dbname" + ("=" + n);
    assert " " + "dbname" + "=" == " dbname=";
  }

  lemma ValueText(v: string)
    ensures Text(Piece("", "dbname", Some(v))) == "dbname=" + v
  {
    assert "" + "dbname" + ("=" + v) == "dbname=" + v;
  }

  lemma QuotedText(v: string, rest: string)
    ensures Text(Piece("", "dbname", Some("'" + v + "'"))) + rest == "dbname='" + v + "'" + rest
    ensures ValueSpan([Piece("", "dbname", Some("'" + v + "'"))]) == Span(7, |v| + 9)
  {
    var p := Piece("", "dbname", Some("'" + v + "'"));
    assert Text(p) == "dbname" + ("=" + ("'" + v + "'"));
    assert [p][..0] == [];
  }

  lemma OldSpan(v: string, n: string)
    requires Plain(v) && Plain(n)
    ensures SpanOf("dbname='" + v + "'" + Behind(n), "dbname") == Some(Span(7, |v| + 9))
  {
    hide Scan, ReadPiece, ValueLen, Text;
    var w := "z dbname=" + n + " x=";
    var p, q := Piece("", "dbname", Some("'" + v + "'")), Piece("", "y", Some("'" + w + "'"));
    QuotedPlain(v, Behind(n));
    QuotedPlain(w, "");
    BehindText(n);
    QuotedText(v, Behind(n));
    ReadsHere(p, Behind(n));
    ReadsHere(q, "");
    ScanFirst(p, Behind(n));
    ScanFirst(q, "");
    ScanOfNothing();
    assert [p] + ([q] + []) == [p, q] && [p, q][..1] == [p];
    LastSpanAt([p, q], "dbname", 0);
  }

  lemma NewPieces(n: string)
    requires Plain(n) && n != ""
    ensures Scan("dbname=" + (n + Behind(n))) ==
            [Piece("", "dbname", Some(n + "y='z")), Piece(" ", "dbname", Some(n)), Piece(" ", "x", Some("'"))]
  {
    hide Scan, ReadPiece, ValueLen, Text, Behind;
    var a, b, c := Piece("", "dbname", Some(n + "y='z")), Piece(" ", "dbname", Some(n)), Piece(" ", "x", Some("'"));
    BehindSplits(n);
    KeyTexts(n);
    ValueText(n + "y='z");
    Associate("dbname=", n + "y='z", (" dbname=" + n) + " x='");
    LiteralValue(n + "y='z", (" dbname=" + n) + " x='");
    LiteralValue(n, " x='");
    OpenQuote("", "");
    assert "'" + "" + "" == "'" + "" == "'";
    ReadsHere(a, (" dbname=" + n) + " x='");
    ReadsHere(b, " x='");
    ReadsHere(c, "");
    ScanFirst(a, (" dbname=" + n) + " x='");
    ScanFirst(b, " x='");
    ScanFirst(c, "");
    ScanOfNothing();
  }

  lemma LiteralValue(n: string, rest: string)
    requires Literal(n) && n != "" && n[0] != '\'' && rest != "" && rest[0] == ' '
    ensures ValueLen(n + rest) == |n|
  {
    LiteralStops(n, rest);
    assert (n + rest)[0] == n[0];
  }

  lemma NewDatabase(n: string)
    requires Plain(n) && n != ""
    ensures Database("dbname=" + (n + Behind(n))) == Some(n)
  {
    hide Scan, Behind, Denoted, TextOf;
    var out := "dbname=" + (n + Behind(n));
    NewPieces(n);
    LastSpanAt(Scan(out), "dbname", 1);
    SpanIsAt(out, 1);
    BareIsItself(n);
  }

  lemma QuotedDenotes(v: string)
    requires Plain(v)
    ensures Denoted("'" + v + "'") == Some(v)
  {
    var value := "'" + v + "'";
    var t := value[1..];
    assert t == v + "'" && value[1..|value| - 1] == v;
    assert Slashes(t, |v|) == 0;
    UnescapeJoins(v, "");
    assert v + "" == v;
  }

  /**
   The one way the new string can name the new database after all: the old value's closing quote was
   what kept a dbname key inside a later quoted value from being one. This string, which names v, does.
   */
  lemma NamedByAccident(v: string, suffix: string)
    requires Plain(v) && EndsWith(v, "_test") && suffix != "" && PackageIdentifier(suffix) && |v| + |suffix| <= 62
    ensures var n := v + "_" + Lower(suffix);
            var dsn := "dbname='" + v + "'" + Behind(n);
            && Database(dsn) == Some(v)
            && Derive(dsn, v, suffix).Derived? && Derive(dsn, v, suffix).name == n
            && Database(Derive(dsn, v, suffix).dsn) == Some(n) && RewriteDatabase(dsn, n).Some? && !Renamed(dsn, n)
  {
    hide Scan, ReadPiece, SpanOf, ValueLen, Denoted, Derive, PackageIdentifier, Behind, Renamed;
    var n := v + "_" + Lower(suffix);
    var dsn := "dbname='" + v + "'" + Behind(n);
    PlainParts(v, suffix);
    OldSpan(v, n);
    DeriveSplices(dsn, v, suffix);
    CutsOf(v, Behind(n));
    QuotedDenotes(v);
    NewDatabase(n);
    Associate("dbname=", n, Behind(n));
    DerivedBare(v, suffix);
    RewriteNames(dsn, n);
    assert Behind(n)[0] == 'y' by {
      BehindStarts(n);
    }
  }

  lemma BehindStarts(n: string)
    ensures Behind(n) != "" && Behind(n)[0] == 'y'
  {
  }

  lemma CutsOf(v: string, rest: string)
    ensures var dsn := "dbname='" + v + "'" + rest;
            dsn[..7] == "dbname=" && dsn[7..|v| + 9] == "'" + v + "'" && dsn[|v| + 9..] == rest
  {
  }
}
