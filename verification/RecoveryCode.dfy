/**
 Recovery codes of identity/domain/recovery_code_gen.go: eighty random bits in base 32 over
 Crockford's alphabet (RFC 4648, section 6, for the bit layout), dashed into groups of four for
 reading, and folded back when a member types one in.
 */
module RecoveryCode {
  import opened Seqs

  type Byte = b: int | 0 <= b < 256

  const ALPHABET := "0123456789ABCDEFGHJKMNPQRSTVWXYZ"
  const CODE_BYTES := 10
  const GROUP_SIZE := 4

  // ----- Positional numerals -----

  /** Bytes and symbols. */
  predicate Radix(base: nat) {
    base == 256 || base == 32
  }

  function Power(base: nat, k: nat): nat {
    if k == 0 then 1 else base * Power(base, k - 1)
  }

  function Last(n: nat, base: nat): (r: nat)
    requires Radix(base)
    ensures r < base
  {
    if base == 32 then n % 32 else n % 256
  }

  function Front(n: nat, base: nat): nat
    requires Radix(base)
  {
    if base == 32 then n / 32 else n / 256
  }

  /** The last `k` digits of `n` in the given base, most significant first. */
  function Digits(n: nat, base: nat, k: nat): (r: seq<nat>)
    requires Radix(base)
    ensures |r| == k && forall i :: 0 <= i < k ==> r[i] < base
  {
    if k == 0 then [] else Digits(Front(n, base), base, k - 1) + [Last(n, base)]
  }

  function Value(ds: seq<nat>, base: nat): nat {
    if ds == [] then 0 else Value(ds[..|ds| - 1], base) * base + ds[|ds| - 1]
  }

  lemma SplitOff(q: nat, r: nat, base: nat)
    requires Radix(base) && r < base
    ensures Front(q * base + r, base) == q && Last(q * base + r, base) == r
  {
  }

  lemma Joined(n: nat, base: nat)
    requires Radix(base)
    ensures Front(n, base) * base + Last(n, base) == n
  {
  }

  lemma Below(q: nat, r: nat, base: nat, bound: nat)
    requires Radix(base) && r < base
    ensures q * base + r < base * bound <==> q < bound
  {
  }

  /** Taking a number of several digits apart, and comparing it with a bound. */
  lemma ValueParts(ds: seq<nat>, base: nat, bound: nat)
    requires Radix(base) && ds != [] && ds[|ds| - 1] < base
    ensures Front(Value(ds, base), base) == Value(ds[..|ds| - 1], base) && Last(Value(ds, base), base) == ds[|ds| - 1]
    ensures Value(ds, base) < base * bound <==> Value(ds[..|ds| - 1], base) < bound
  {
    hide Front, Last, Radix;
    SplitOff(Value(ds[..|ds| - 1], base), ds[|ds| - 1], base);
    Below(Value(ds[..|ds| - 1], base), ds[|ds| - 1], base, bound);
  }

  lemma {:induction false} DigitsOfValue(ds: seq<nat>, base: nat)
    requires Radix(base) && forall i :: 0 <= i < |ds| ==> ds[i] < base
    ensures Digits(Value(ds, base), base, |ds|) == ds
    ensures Value(ds, base) < Power(base, |ds|)
  {
    hide Front, Last, Radix;
    if ds != [] {
      hide Value;
      DigitsOfValue(ds[..|ds| - 1], base);
      ValueParts(ds, base, Power(base, |ds| - 1));
    }
  }

  lemma {:induction false} ValueOfDigits(n: nat, base: nat, k: nat)
    requires Radix(base) && n < Power(base, k)
    ensures Value(Digits(n, base, k), base) == n
  {
    hide Front, Last, Radix;
    if k > 0 {
      Joined(n, base);
      Below(Front(n, base), Last(n, base), base, Power(base, k - 1));
      ValueOfDigits(Front(n, base), base, k - 1);
      assert Digits(n, base, k)[..k - 1] == Digits(Front(n, base), base, k - 1);
    }
  }

  /** Eight base-32 symbols carry exactly five bytes. */
  lemma SameRange()
    ensures Power(256, 5) == Power(32, 8)
  {
    assert Power(32, 2) == 0x400 && Power(32, 4) == 0x10_0000 && Power(32, 6) == 0x4000_0000;
    assert Power(32, 8) == 0x100_0000_0000;
    assert Power(256, 2) == 0x1_0000 && Power(256, 4) == 0x1_0000_0000;
    assert Power(256, 5) == 0x100_0000_0000;
  }

  // ----- Base 32 -----

  /** Membership in the alphabet, range by range. */
  predicate IsSymbol(c: char) {
    || '0' <= c <= '9' || 'A' <= c <= 'H' || 'J' <= c <= 'K' || 'M' <= c <= 'N' || 'P' <= c <= 'T' || 'V' <= c <= 'Z'
  }

  function Symbol(i: nat): (c: char)
    requires i < 32
    ensures IsSymbol(c)
  {
    if i < 10 then '0' + i as char
    else if i < 18 then 'A' + (i - 10) as char
    else if i < 20 then 'J' + (i - 18) as char
    else if i < 22 then 'M' + (i - 20) as char
    else if i < 27 then 'P' + (i - 22) as char
    else 'V' + (i - 27) as char
  }

  function Index(c: char): (r: nat)
    requires IsSymbol(c)
    ensures r < 32
  {
    if c <= '9' then (c - '0') as nat
    else if c <= 'H' then (c - 'A') as nat + 10
    else if c <= 'K' then (c - 'J') as nat + 18
    else if c <= 'N' then (c - 'M') as nat + 20
    else if c <= 'T' then (c - 'P') as nat + 22
    else (c - 'V') as nat + 27
  }

  lemma AlphabetAt(i: nat)
    requires i < 32
    ensures ALPHABET[i] == Symbol(i)
  {
  }

  lemma IndexOfSymbol(i: nat)
    requires i < 32
    ensures Index(Symbol(i)) == i && ALPHABET[i] == Symbol(i)
  {
    AlphabetAt(i);
  }

  lemma SymbolOfIndex(c: char)
    requires IsSymbol(c)
    ensures Symbol(Index(c)) == c
  {
  }

  lemma SymbolsAreTheAlphabet(c: char)
    ensures IsSymbol(c) <==> c in ALPHABET
  {
    hide IsSymbol, Symbol, Index;
    if IsSymbol(c) {
      SymbolOfIndex(c);
      IndexOfSymbol(Index(c));
    }
    if c in ALPHABET {
      var i :| 0 <= i < |ALPHABET| && ALPHABET[i] == c;
      IndexOfSymbol(i);
    }
  }

  function Symbols(ds: seq<nat>): (r: string)
    requires forall i :: 0 <= i < |ds| ==> ds[i] < 32
    ensures |r| == |ds| && forall i :: 0 <= i < |ds| ==> r[i] == Symbol(ds[i])
  {
    seq(|ds|, i requires 0 <= i < |ds| => Symbol(ds[i]))
  }

  predicate Encoded(s: string) {
    forall i :: 0 <= i < |s| ==> IsSymbol(s[i])
  }

  function Indices(s: string): (r: seq<nat>)
    requires Encoded(s)
    ensures |r| == |s| && forall i :: 0 <= i < |s| ==> r[i] == Index(s[i])
  {
    seq(|s|, i requires 0 <= i < |s| => Index(s[i]))
  }

  function EncodeGroup(b: seq<Byte>): (r: string)
    requires |b| == 5
    ensures |r| == 8 && Encoded(r)
  {
    Symbols(Digits(Value(b, 256), 32, 8))
  }

  /** EncodeToString without padding, on whole five-byte groups. */
  function Encode(b: seq<Byte>): (r: string)
    requires |b| % 5 == 0
    ensures |r| == |b| / 5 * 8 && Encoded(r)
  {
    if b == [] then "" else EncodeGroup(b[..5]) + Encode(b[5..])
  }

  function Bytes(ds: seq<nat>): (r: seq<Byte>)
    requires forall i :: 0 <= i < |ds| ==> ds[i] < 256
    ensures r == ds
  {
    seq(|ds|, i requires 0 <= i < |ds| => ds[i] as Byte)
  }

  function DecodeGroup(s: string): seq<Byte>
    requires |s| == 8 && Encoded(s)
  {
    Bytes(Digits(Value(Indices(s), 32), 256, 5))
  }

  function Decode(s: string): seq<Byte>
    requires |s| % 8 == 0 && Encoded(s)
  {
    if s == "" then [] else DecodeGroup(s[..8]) + Decode(s[8..])
  }

  lemma GroupRoundTrip(b: seq<Byte>)
    requires |b| == 5
    ensures DecodeGroup(EncodeGroup(b)) == b
  {
    hide Digits, Value, Index, Symbol, IsSymbol;
    var n := Value(b, 256);
    var ds := Digits(n, 32, 8);
    DigitsOfValue(b, 256);
    SameRange();
    forall i | 0 <= i < 8 ensures Indices(Symbols(ds))[i] == ds[i] {
      IndexOfSymbol(ds[i]);
    }
    assert Indices(Symbols(ds)) == ds;
    ValueOfDigits(n, 32, 8);
  }

  /** Five digits of base 256 as one number, the first one most significant. */
  lemma ValueOfFive(b: seq<nat>)
    requires |b| == 5
    ensures Value(b, 256) == (((b[0] * 256 + b[1]) * 256 + b[2]) * 256 + b[3]) * 256 + b[4]
  {
    assert b[..4][..3] == b[..3] && b[..3][..2] == b[..2] && b[..2][..1] == b[..1] && b[..1][..0] == [];
    assert Value(b[..1], 256) == b[0] && Value(b[..2], 256) == b[0] * 256 + b[1];
    assert Value(b[..3], 256) == (b[0] * 256 + b[1]) * 256 + b[2];
    assert Value(b[..4], 256) == ((b[0] * 256 + b[1]) * 256 + b[2]) * 256 + b[3];
  }

  /** The eight five-bit pieces of five bytes, from the left. */
  function Pieces(b: seq<nat>): seq<nat>
    requires |b| == 5
  {
    [b[0] / 8, b[0] % 8 * 4 + b[1] / 64, b[1] / 2 % 32, b[1] % 2 * 16 + b[2] / 16,
     b[2] % 16 * 2 + b[3] / 128, b[3] / 4 % 32, b[3] % 4 * 8 + b[4] / 32, b[4] % 32]
  }

  lemma PiecesFit(b: seq<nat>)
    requires |b| == 5 && forall i :: 0 <= i < 5 ==> b[i] < 256
    ensures |Pieces(b)| == 8 && forall i :: 0 <= i < 8 ==> Pieces(b)[i] < 32
  {
  }

  /** The i-th symbol stands for the i-th five bits from the left (RFC 4648, section 6). */
  lemma GroupLayout(b: seq<Byte>)
    requires |b| == 5
    ensures var p := Pieces(b);
            |p| == 8 && forall i :: 0 <= i < 8 ==> p[i] < 32 && EncodeGroup(b)[i] == ALPHABET[p[i]]
  {
    hide Value, Digits, Symbol, Index, IsSymbol, Pieces;
    PiecesFit(b);
    ValueOfFive(b);
    ByFives(b);
    EightDigits(Value(b, 256), Pieces(b));
    forall i | 0 <= i < 8 ensures EncodeGroup(b)[i] == ALPHABET[Pieces(b)[i]] {
      IndexOfSymbol(Pieces(b)[i]);
    }
  }

  lemma ByFives(b: seq<nat>)
    requires |b| == 5 && forall i :: 0 <= i < 5 ==> b[i] < 256
    ensures var d := Pieces(b);
            && |d| == 8
            && (((b[0] * 256 + b[1]) * 256 + b[2]) * 256 + b[3]) * 256 + b[4] ==
               ((((((d[0] * 32 + d[1]) * 32 + d[2]) * 32 + d[3]) * 32 + d[4]) * 32 + d[5]) * 32 + d[6]) * 32 + d[7]
  {
    OneFiveTwo(b[1]);
    OneFiveFour(b[3]);
    FiveBits(b[0] / 8, b[0] % 8, b[1] / 64, b[1] / 2 % 32, b[1] % 2, b[2] / 16, b[2] % 16,
             b[3] / 128, b[3] / 4 % 32, b[3] % 4, b[4] / 32, b[4] % 32);
  }

  /** Bytes cut into three fields. */
  lemma OneFiveTwo(x: nat)
    requires x < 256
    ensures x == x / 64 * 64 + x / 2 % 32 * 2 + x % 2
  {
    var q := x / 2;
    assert x == 2 * q + x % 2;
    assert q == 32 * (q / 32) + q % 32;
    assert 64 * (q / 32) <= x < 64 * (q / 32) + 64;
  }

  lemma OneFiveFour(x: nat)
    requires x < 256
    ensures x == x / 128 * 128 + x / 4 % 32 * 4 + x % 4
  {
    var q := x / 4;
    assert x == 4 * q + x % 4;
    assert q == 32 * (q / 32) + q % 32;
    assert 128 * (q / 32) <= x < 128 * (q / 32) + 128;
  }

  /** Forty bits, read eight at a time and five at a time. */
  lemma FiveBits(
    a1: int, a0: int, b2: int, b1: int, b0: int, c1: int, c0: int, d2: int, d1: int, d0: int, e1: int, e0: int)
    ensures ((((a1 * 8 + a0) * 256 + (b2 * 64 + b1 * 2 + b0)) * 256 + (c1 * 16 + c0)) * 256 + (d2 * 128 + d1 * 4 + d0)) * 256
            + (e1 * 32 + e0) ==
            ((((((a1 * 32 + (a0 * 4 + b2)) * 32 + b1) * 32 + (b0 * 16 + c1)) * 32 + (c0 * 2 + d2)) * 32 + d1) * 32
             + (d0 * 8 + e1)) * 32 + e0
  {
  }

  lemma EightDigits(n: nat, ds: seq<nat>)
    requires |ds| == 8 && forall i :: 0 <= i < 8 ==> ds[i] < 32
    requires n == ((((((ds[0] * 32 + ds[1]) * 32 + ds[2]) * 32 + ds[3]) * 32 + ds[4]) * 32 + ds[5]) * 32 + ds[6]) * 32 + ds[7]
    ensures Digits(n, 32, 8) == ds
  {
    hide Digits;
    ValueOfEight(ds);
    DigitsOfValue(ds, 32);
  }

  lemma ValueOfFour(ds: seq<nat>)
    requires |ds| >= 4
    ensures Value(ds[..4], 32) == ((ds[0] * 32 + ds[1]) * 32 + ds[2]) * 32 + ds[3]
  {
    hide Value;
    ValueOfNothing(ds);
    ValueOfMore(ds, 0);
    ValueOfMore(ds, 1);
    ValueOfMore(ds, 2);
    ValueOfMore(ds, 3);
  }

  lemma ValueOfEight(ds: seq<nat>)
    requires |ds| == 8
    ensures Value(ds, 32) ==
            ((((((ds[0] * 32 + ds[1]) * 32 + ds[2]) * 32 + ds[3]) * 32 + ds[4]) * 32 + ds[5]) * 32 + ds[6]) * 32 + ds[7]
  {
    hide Value;
    ValueOfFour(ds);
    ValueOfMore(ds, 4);
    ValueOfMore(ds, 5);
    ValueOfMore(ds, 6);
    ValueOfMore(ds, 7);
    assert ds[..8] == ds;
  }

  lemma ValueOfNothing(ds: seq<nat>)
    ensures Value(ds[..0], 32) == 0
  {
  }

  lemma ValueOfMore(ds: seq<nat>, k: nat)
    requires k < |ds|
    ensures Value(ds[..k + 1], 32) == Value(ds[..k], 32) * 32 + ds[k]
  {
    assert ds[..k + 1][..k] == ds[..k];
  }

  lemma {:induction false} DecodeEncode(b: seq<Byte>)
    requires |b| % 5 == 0
    ensures Decode(Encode(b)) == b
  {
    hide EncodeGroup, DecodeGroup, IsSymbol;
    if b != [] {
      GroupRoundTrip(b[..5]);
      DecodeEncode(b[5..]);
      assert Encode(b)[..8] == EncodeGroup(b[..5]) && Encode(b)[8..] == Encode(b[5..]);
    }
  }

  // ----- Grouping -----

  function Grouped(s: string): string {
    if |s| <= GROUP_SIZE then s else s[..GROUP_SIZE] + "-" + Grouped(s[GROUP_SIZE..])
  }

  lemma {:induction false} GroupedSnoc(s: string, c: char)
    ensures Grouped(s + [c]) == Grouped(s) + (if |s| > 0 && |s| % GROUP_SIZE == 0 then "-" else "") + [c]
  {
    if |s| > GROUP_SIZE {
      GroupedSnoc(s[GROUP_SIZE..], c);
      assert (s + [c])[GROUP_SIZE..] == s[GROUP_SIZE..] + [c];
    } else if |s| == GROUP_SIZE {
      assert (s + [c])[GROUP_SIZE..] == [c];
    }
  }

  lemma OneGroup(s: string)
    ensures |s| <= GROUP_SIZE ==> Grouped(s) == s
    ensures |s| > GROUP_SIZE ==> Grouped(s) == s[..GROUP_SIZE] + "-" + Grouped(s[GROUP_SIZE..])
  {
  }

  /** Sixteen symbols are printed in four groups of four. */
  lemma FourGroups(s: string)
    requires |s| == 16
    ensures Grouped(s) == s[..4] + "-" + (s[4..8] + "-" + (s[8..12] + "-" + s[12..]))
  {
    hide Grouped;
    var a, b, c := s[4..], s[8..], s[12..];
    assert a[4..] == b && b[4..] == c && a[..4] == s[4..8] && b[..4] == s[8..12];
    OneGroup(s);
    OneGroup(a);
    OneGroup(b);
    OneGroup(c);
  }

  /** One recovery code from ten random bytes. */
  method GenerateRecoveryCode(random: seq<Byte>) returns (code: string)
    requires |random| == CODE_BYTES
    ensures var text := Encode(random);
            |text| == 16 && code == text[..4] + "-" + (text[4..8] + "-" + (text[8..12] + "-" + text[12..]))
    ensures Normalize(code) == Encode(random)
  {
    var encoded := Encode(random);
    code := "";
    for i := 0 to |encoded|
      invariant code == Grouped(encoded[..i])
    {
      GroupedSnoc(encoded[..i], encoded[i]);
      assert encoded[..i + 1] == encoded[..i] + [encoded[i]];
      if i > 0 && i % GROUP_SIZE == 0 {
        code := code + "-";
      }
      code := code + [encoded[i]];
    }
    assert encoded[..|encoded|] == encoded;
    FourGroups(encoded);
    NormalizeGrouped(encoded);
  }

  // ----- Normalizing -----

  /**
   strings.ToUpper on one character, as far as the alphabet can tell: dotless i and long s are the
   two characters outside ASCII whose upper case is an ASCII letter.
   */
  function ToUpper(c: char): char {
    if 'a' <= c <= 'z' then c - 'a' + 'A'
    else if c == '\U{0131}' then 'I'
    else if c == '\U{017F}' then 'S'
    else c
  }

  function Alias(c: char): char {
    if c == 'O' then '0' else if c == 'I' || c == 'L' then '1' else c
  }

  function Fold(c: char): char {
    Alias(ToUpper(c))
  }

  /** What each character is read as: a symbol in either case, a look-alike, or nothing. */
  lemma FoldTable(c: char)
    ensures c in ALPHABET ==> Fold(c) == c
    ensures c in "Oo" ==> Fold(c) == '0'
    ensures c in "IiLl\U{0131}" ==> Fold(c) == '1'
    ensures c == '\U{017F}' ==> Fold(c) == 'S'
    ensures forall k :: 0 <= k < 22 && c == "abcdefghjkmnpqrstvwxyz"[k] ==> Fold(c) == ALPHABET[10 + k]
    ensures c !in ALPHABET && c !in "OoIiLl\U{0131}\U{017F}" && c !in "abcdefghjkmnpqrstvwxyz" ==> Fold(c) !in ALPHABET
  {
    hide Symbol, Index;
    SymbolsAreTheAlphabet(c);
    SymbolsAreTheAlphabet(Fold(c));
    SmallSymbol(c);
  }

  /** The small letters that stand for symbols, in order. */
  lemma SmallSymbol(c: char)
    ensures ('a' <= c <= 'z' && c !in "ilou") <==> c in "abcdefghjkmnpqrstvwxyz"
    ensures forall k :: 0 <= k < 22 && c == "abcdefghjkmnpqrstvwxyz"[k] ==> ALPHABET[10 + k] == c - 'a' + 'A'
  {
    forall k | 0 <= k < 22 && c == "abcdefghjkmnpqrstvwxyz"[k] ensures ALPHABET[10 + k] == c - 'a' + 'A' {
      SmallSymbolAt(k);
    }
  }

  lemma SmallSymbolAt(k: nat)
    requires k < 22
    ensures ALPHABET[10 + k] == "abcdefghjkmnpqrstvwxyz"[k] - 'a' + 'A'
  {
  }

  function Mapped(f: char -> char, s: string): (r: string)
    ensures |r| == |s| && forall i :: 0 <= i < |s| ==> r[i] == f(s[i])
  {
    seq(|s|, i requires 0 <= i < |s| => f(s[i]))
  }

  function Keep(s: string): (r: string)
    ensures Encoded(r)
  {
    if s == "" then "" else (if IsSymbol(s[0]) then [s[0]] else "") + Keep(s[1..])
  }

  function Normalize(s: string): (r: string)
    ensures Encoded(r)
  {
    Keep(Mapped(Alias, Mapped(ToUpper, s)))
  }

  lemma {:induction false} KeepJoins(s: string, t: string)
    ensures Keep(s + t) == Keep(s) + Keep(t)
  {
    hide IsSymbol;
    if s == "" {
      assert s + t == t;
    } else {
      var head := if IsSymbol(s[0]) then [s[0]] else "";
      KeepJoins(s[1..], t);
      assert (s + t)[1..] == s[1..] + t;
      Associate(head, Keep(s[1..]), Keep(t));
    }
  }

  lemma MappedJoins(f: char -> char, s: string, t: string)
    ensures Mapped(f, s + t) == Mapped(f, s) + Mapped(f, t)
  {
  }

  lemma NormalizeJoins(s: string, t: string)
    ensures Normalize(s + t) == Normalize(s) + Normalize(t)
  {
    hide Mapped, Keep, Alias, ToUpper, IsSymbol;
    MappedJoins(ToUpper, s, t);
    MappedJoins(Alias, Mapped(ToUpper, s), Mapped(ToUpper, t));
    KeepJoins(Mapped(Alias, Mapped(ToUpper, s)), Mapped(Alias, Mapped(ToUpper, t)));
  }

  lemma NormalizeOne(c: char)
    ensures Normalize([c]) == if IsSymbol(Fold(c)) then [Fold(c)] else ""
  {
    hide IsSymbol;
    assert Mapped(Alias, Mapped(ToUpper, [c])) == [Fold(c)];
    assert [Fold(c)][1..] == "" && Keep("") == "";
  }

  /** Only what each character folds to matters. */
  lemma NormalizeByFold(s: string, t: string)
    requires |s| == |t| && forall i :: 0 <= i < |s| ==> Fold(s[i]) == Fold(t[i])
    ensures Normalize(s) == Normalize(t)
  {
    assert Mapped(Alias, Mapped(ToUpper, s)) == Mapped(Alias, Mapped(ToUpper, t));
  }

  lemma {:induction false} KeepEncoded(s: string)
    requires Encoded(s)
    ensures Keep(s) == s
  {
    if s != "" {
      KeepEncoded(s[1..]);
    }
  }

  lemma SymbolsFoldToThemselves(c: char)
    requires IsSymbol(c)
    ensures Fold(c) == c
  {
  }

  lemma NormalizeEncoded(s: string)
    requires Encoded(s)
    ensures Normalize(s) == s
  {
    forall i | 0 <= i < |s| ensures Fold(s[i]) == s[i] {
      SymbolsFoldToThemselves(s[i]);
    }
    assert Mapped(Alias, Mapped(ToUpper, s)) == s;
    KeepEncoded(s);
  }

  lemma NormalizeIdempotent(s: string)
    ensures Normalize(Normalize(s)) == Normalize(s)
  {
    NormalizeEncoded(Normalize(s));
  }

  lemma {:induction false} NormalizeGrouped(s: string)
    requires Encoded(s)
    ensures Normalize(Grouped(s)) == s
  {
    if |s| <= GROUP_SIZE {
      NormalizeEncoded(s);
    } else {
      var first, rest := s[..GROUP_SIZE], s[GROUP_SIZE..];
      NormalizeGrouped(rest);
      NormalizeEncoded(first);
      NormalizeJoins(first + "-", Grouped(rest));
      NormalizeJoins(first, "-");
      NormalizeOne('-');
    }
  }

  /** The printed code, typed back, is the sixteen symbols, and they are the ten bytes. */
  lemma CodeRoundTrip(b: seq<Byte>)
    requires |b| == CODE_BYTES
    ensures |Normalize(Grouped(Encode(b)))| == 16
    ensures Decode(Normalize(Grouped(Encode(b)))) == b
  {
    NormalizeGrouped(Encode(b));
    DecodeEncode(b);
  }

  /** Different random bytes give codes that stay different once typed back. */
  lemma CodesDiffer(b: seq<Byte>, c: seq<Byte>)
    requires |b| == CODE_BYTES && |c| == CODE_BYTES && b != c
    ensures Normalize(Grouped(Encode(b))) != Normalize(Grouped(Encode(c)))
  {
    CodeRoundTrip(b);
    CodeRoundTrip(c);
  }

  function ToLower(c: char): char {
    if 'A' <= c <= 'Z' then c - 'A' + 'a' else c
  }

  lemma LowerCaseIsIgnored(s: string)
    ensures Normalize(Mapped(ToLower, s)) == Normalize(s)
  {
    NormalizeByFold(Mapped(ToLower, s), s);
  }

  predicate Confusable(c: char, d: char) {
    {c, d} <= {'0', 'O', 'o'} || {c, d} <= {'1', 'I', 'i', 'L', 'l'}
  }

  /** Typing any look-alike for any 0 or 1 of a code changes nothing. */
  lemma LookAlikesAreIgnored(s: string, typed: string)
    requires |s| == |typed|
    requires forall i :: 0 <= i < |s| ==> typed[i] == s[i] || Confusable(typed[i], s[i])
    ensures Normalize(typed) == Normalize(s)
  {
    forall i | 0 <= i < |s| ensures Fold(typed[i]) == Fold(s[i]) {
      var both := {typed[i], s[i]};
      assert typed[i] in both && s[i] in both;
    }
    NormalizeByFold(typed, s);
  }

  /** A stray character is ignored exactly when it does not fold to a symbol. */
  lemma StrayIsIgnored(before: string, c: char, after: string)
    ensures Normalize(before + [c] + after) == Normalize(before + after) <==> !IsSymbol(Fold(c))
  {
    NormalizeJoins(before + [c], after);
    NormalizeJoins(before, [c]);
    NormalizeJoins(before, after);
    NormalizeOne(c);
    assert |Normalize(before + [c] + after)| == |Normalize(before + after)| + |Normalize([c])|;
  }
}
