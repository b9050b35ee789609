/**
 The EXIF stripper of media/adapter/exif_scrub.go: a bounds-checked walk over a JPEG's marker
 segments (ITU-T T.81, sections B.1.1.2 and B.1.1.4) that drops the EXIF ones. The walk is proved
 equal to printing the segments that remain after parsing and filtering.
 */
module ExifStrip {
  import opened Seqs

  type Byte = b: int | 0 <= b < 256

  const MARKER: Byte := 0xFF
  const SOI: Byte := 0xD8
  const EOI: Byte := 0xD9
  const SOS: Byte := 0xDA
  const TEM: Byte := 0x01
  const RST0: Byte := 0xD0
  const RST7: Byte := 0xD7
  const APP1: Byte := 0xE1

  /** "Exif", NUL, NUL. */
  const SIGNATURE: seq<Byte> := [0x45, 0x78, 0x69, 0x66, 0, 0]

  predicate Ends(marker: Byte) {
    marker == SOS || marker == EOI
  }

  predicate StandsAlone(marker: Byte) {
    marker == TEM || RST0 <= marker <= RST7
  }

  /** `fill` counts the optional 0xFF bytes ahead of the marker's own. */
  datatype Segment =
    | Standalone(fill: nat, marker: Byte)
    | Sized(fill: nat, marker: Byte, payload: seq<Byte>)
  {
    predicate WellFormed() {
      match this
      case Standalone(_, m) => StandsAlone(m)
      case Sized(_, m, payload) => m != MARKER && !Ends(m) && !StandsAlone(m) && |payload| <= 0xFFFF - 2
    }
  }

  predicate IsExif(s: Segment) {
    s.Sized? && IsExifApp1(s.marker, s.payload)
  }

  predicate IsExifApp1(marker: Byte, payload: seq<Byte>) {
    marker == APP1 && |payload| >= |SIGNATURE| && payload[..|SIGNATURE|] == SIGNATURE
  }

  // ----- Printing: what a well-formed file is -----

  function Repeat(b: Byte, n: nat): (r: seq<Byte>)
    ensures |r| == n && forall i :: 0 <= i < n ==> r[i] == b
  {
    seq(n, i => b)
  }

  /** The two length bytes count themselves. */
  function LengthField(payload: seq<Byte>): seq<Byte>
    requires |payload| <= 0xFFFF - 2
  {
    [(|payload| + 2) / 256, (|payload| + 2) % 256]
  }

  function Print(s: Segment): seq<Byte>
    requires s.WellFormed()
  {
    Repeat(MARKER, s.fill + 1) + [s.marker] + if s.Sized? then LengthField(s.payload) + s.payload else []
  }

  predicate AllWellFormed(segments: seq<Segment>) {
    forall i :: 0 <= i < |segments| ==> segments[i].WellFormed()
  }

  function PrintAll(segments: seq<Segment>): seq<Byte>
    requires AllWellFormed(segments)
  {
    if segments == [] then [] else Print(segments[0]) + PrintAll(segments[1..])
  }

  /** Where the segments stop: at the end of the data, or at a marker that ends the headers. */
  predicate IsTail(tail: seq<Byte>) {
    tail == [] || (0 < Fills(tail) < |tail| && Ends(tail[Fills(tail)]))
  }

  // ----- Parsing -----

  /** The number of leading 0xFF bytes. */
  function Fills(b: seq<Byte>): (n: nat)
    ensures n <= |b| && (forall i :: 0 <= i < n ==> b[i] == MARKER) && (n < |b| ==> b[n] != MARKER)
  {
    if b == [] || b[0] != MARKER then 0 else 1 + Fills(b[1..])
  }

  datatype Head = Bad | Stop | One(segment: Segment, size: nat)

  /** What follows `n` 0xFF bytes, from the marker on. */
  function ReadBody(after: seq<Byte>, n: nat): (h: Head)
    requires after != [] && n > 0
    ensures h.One? ==> n < h.size <= n + |after|
  {
    if Ends(after[0]) then Stop
    else if StandsAlone(after[0]) then One(Standalone(n - 1, after[0]), n + 1)
    else if |after| < 3 then Bad
    else
      var length := after[1] as int * 256 + after[2] as int;
      if length < 2 || 1 + length > |after| then Bad
      else One(Sized(n - 1, after[0], after[3..1 + length]), n + 1 + length)
  }

  function ReadHead(b: seq<Byte>): (h: Head)
    requires b != []
    ensures h.One? ==> 0 < h.size <= |b|
  {
    var n := Fills(b);
    if n == 0 || n == |b| then Bad else ReadBody(b[n..], n)
  }

  datatype Headers = Headers(segments: seq<Segment>, tail: seq<Byte>)

  /** Everything after the SOI marker; None when it is malformed. */
  function Parse(b: seq<Byte>): Option<Headers>
    decreases |b|
  {
    if b == [] then Some(Headers([], []))
    else
      match ReadHead(b)
      case Bad => None
      case Stop => Some(Headers([], b))
      case One(s, size) => After([s], Parse(b[size..]))
  }

  /** The headers found from some point on, after the segments ahead of it. */
  function After(done: seq<Segment>, rest: Option<Headers>): Option<Headers> {
    if rest.None? then None else Some(Headers(done + rest.value.segments, rest.value.tail))
  }

  lemma AfterBoth(done: seq<Segment>, s: Segment, rest: Option<Headers>)
    ensures After(done, After([s], rest)) == After(done + [s], rest)
  {
    if rest.Some? {
      assert done + ([s] + rest.value.segments) == (done + [s]) + rest.value.segments;
    }
  }

  lemma AfterNothing(rest: Option<Headers>)
    ensures After([], rest) == rest
  {
    if rest.Some? {
      assert [] + rest.value.segments == rest.value.segments;
    }
  }

  lemma ParseOne(b: seq<Byte>)
    requires b != [] && ReadHead(b).One?
    ensures Parse(b) == After([ReadHead(b).segment], Parse(b[ReadHead(b).size..]))
  {
    hide ReadHead, After;
  }

  // ----- Parsing inverts printing -----

  lemma {:induction false} FillsOf(n: nat, rest: seq<Byte>)
    requires rest != [] && rest[0] != MARKER
    ensures Fills(Repeat(MARKER, n) + rest) == n
  {
    if n > 0 {
      var b := Repeat(MARKER, n) + rest;
      FillsOf(n - 1, rest);
      assert b[1..] == Repeat(MARKER, n - 1) + rest;
    }
  }

  /** What a printed segment looks like from its marker on. */
  function Body(s: Segment): seq<Byte>
    requires s.WellFormed()
  {
    [s.marker] + if s.Sized? then LengthField(s.payload) + s.payload else []
  }

  lemma PrintHasFills(s: Segment, rest: seq<Byte>)
    requires s.WellFormed()
    ensures Fills(Print(s) + rest) == s.fill + 1 && |Print(s)| == s.fill + 1 + |Body(s)|
    ensures (Print(s) + rest)[s.fill + 1..] == Body(s) + rest
  {
    hide Fills;
    assert Print(s) + rest == Repeat(MARKER, s.fill + 1) + (Body(s) + rest);
    FillsOf(s.fill + 1, Body(s) + rest);
  }

  lemma ReadBack(s: Segment, rest: seq<Byte>)
    requires s.WellFormed()
    ensures ReadBody(Body(s) + rest, s.fill + 1) == One(s, s.fill + 1 + |Body(s)|)
  {
    if s.Sized? {
      BodyLayout(s, rest);
      assert (Body(s) + rest)[0] == s.marker;
    }
  }

  lemma BodyLayout(s: Segment, rest: seq<Byte>)
    requires s.WellFormed() && s.Sized?
    ensures var after := Body(s) + rest;
            var k := |s.payload|;
            && |Body(s)| == k + 3 && |after| == k + 3 + |rest|
            && after[1] as int * 256 + after[2] as int == k + 2 && after[3..3 + k] == s.payload
  {
  }

  /** A printed segment is read back, whatever follows it. */
  lemma ReadPrinted(s: Segment, rest: seq<Byte>)
    requires s.WellFormed()
    ensures ReadHead(Print(s) + rest) == One(s, |Print(s)|)
  {
    hide Fills, ReadBody, Print, Body;
    PrintHasFills(s, rest);
    BodyNotEmpty(s);
    ReadBack(s, rest);
  }

  lemma BodyNotEmpty(s: Segment)
    requires s.WellFormed()
    ensures Body(s) != []
  {
  }

  /** What is read is what would be printed. */
  lemma ReadIsPrint(b: seq<Byte>)
    requires b != [] && ReadHead(b).One?
    ensures var h := ReadHead(b);
            h.segment.WellFormed() && 0 < h.size <= |b| && Print(h.segment) == b[..h.size]
  {
    var h := ReadHead(b);
    var n := Fills(b);
    BodyIsPrint(b[n..], n);
    assert Repeat(MARKER, n) == b[..n];
    assert b[..h.size] == b[..n] + b[n..][..h.size - n];
    assert Print(h.segment) == Repeat(MARKER, n) + Body(h.segment);
  }

  lemma BodyIsPrint(after: seq<Byte>, n: nat)
    requires after != [] && n > 0 && after[0] != MARKER && ReadBody(after, n).One?
    ensures var h := ReadBody(after, n);
            h.segment.WellFormed() && h.segment.fill == n - 1 && Body(h.segment) == after[..h.size - n]
  {
    var h := ReadBody(after, n);
    if h.segment.Sized? {
      assert LengthField(h.segment.payload) == [after[1], after[2]];
      assert after[..h.size - n] == [after[0]] + [after[1], after[2]] + after[3..h.size - n];
    }
  }

  lemma {:induction false} ParsePrinted(segments: seq<Segment>, tail: seq<Byte>)
    requires AllWellFormed(segments) && IsTail(tail)
    ensures Parse(PrintAll(segments) + tail) == Some(Headers(segments, tail))
    decreases |segments|
  {
    hide ReadHead, Print, IsTail, Parse;
    if segments == [] {
      assert PrintAll(segments) + tail == tail;
      StopsAtTail(tail);
    } else {
      var rest := PrintAll(segments[1..]) + tail;
      var b := PrintAll(segments) + tail;
      assert b == Print(segments[0]) + rest;
      ReadPrinted(segments[0], rest);
      assert b[|Print(segments[0])|..] == rest;
      ParseOne(b);
      ParsePrinted(segments[1..], tail);
      assert [segments[0]] + segments[1..] == segments;
    }
  }

  lemma StopsAtTail(tail: seq<Byte>)
    requires IsTail(tail)
    ensures Parse(tail) == Some(Headers([], tail))
  {
  }

  lemma {:induction false} ParsedIsPrinted(b: seq<Byte>)
    requires Parse(b).Some?
    ensures var h := Parse(b).value;
            AllWellFormed(h.segments) && IsTail(h.tail) && b == PrintAll(h.segments) + h.tail
    decreases |b|
  {
    hide Print, ReadHead, IsTail, Parse, AllWellFormed;
    if b != [] && ReadHead(b).One? {
      ReadIsPrint(b);
      ParseOne(b);
      var size := ReadHead(b).size;
      ParsedIsPrinted(b[size..]);
      var rest := Parse(b[size..]).value;
      PrintAllOne(ReadHead(b).segment, rest.segments);
      assert b == b[..size] + (PrintAll(rest.segments) + rest.tail);
    } else {
      TailIsTail(b);
      ParseEnds(b);
    }
  }

  lemma PrintAllOne(s: Segment, rest: seq<Segment>)
    requires s.WellFormed() && AllWellFormed(rest)
    ensures AllWellFormed([s] + rest) && PrintAll([s] + rest) == Print(s) + PrintAll(rest)
  {
    hide Print;
    assert ([s] + rest)[1..] == rest;
  }

  /** Anything but a segment ends the parse. */
  lemma ParseEnds(b: seq<Byte>)
    requires b == [] || !ReadHead(b).One?
    ensures Parse(b) == (if b != [] && ReadHead(b).Bad? then None else Some(Headers([], b)))
    ensures AllWellFormed([]) && PrintAll([]) == []
  {
    hide ReadHead;
  }

  lemma TailIsTail(b: seq<Byte>)
    ensures b == [] || ReadHead(b).Stop? ==> IsTail(b)
  {
  }

  /** The data ahead of the scan is a sequence of well-formed segments. */
  ghost predicate Decomposes(b: seq<Byte>, segments: seq<Segment>, tail: seq<Byte>) {
    AllWellFormed(segments) && IsTail(tail) && b == PrintAll(segments) + tail
  }

  /** Parsing finds the one decomposition there is, or there is none. */
  lemma ParseDecides(b: seq<Byte>, segments: seq<Segment>, tail: seq<Byte>)
    ensures Decomposes(b, segments, tail) <==> Parse(b) == Some(Headers(segments, tail))
  {
    hide Parse, PrintAll, IsTail;
    if Decomposes(b, segments, tail) {
      ParsePrinted(segments, tail);
    }
    if Parse(b).Some? {
      ParsedIsPrinted(b);
    }
  }

  // ----- Filtering -----

  function WithoutExif(segments: seq<Segment>): seq<Segment> {
    if segments == [] then []
    else if IsExif(segments[0]) then WithoutExif(segments[1..])
    else [segments[0]] + WithoutExif(segments[1..])
  }

  lemma {:induction false} KeptAreTheOthers(segments: seq<Segment>)
    ensures forall s :: s in WithoutExif(segments) <==> s in segments && !IsExif(s)
  {
    hide IsExif;
    if segments != [] {
      KeptAreTheOthers(segments[1..]);
      assert segments == [segments[0]] + segments[1..];
    }
  }

  lemma {:induction false} WithoutExifTwice(segments: seq<Segment>)
    ensures WithoutExif(WithoutExif(segments)) == WithoutExif(segments)
  {
    hide IsExif;
    if segments != [] {
      WithoutExifTwice(segments[1..]);
      var rest := WithoutExif(segments[1..]);
      if !IsExif(segments[0]) {
        assert ([segments[0]] + rest)[1..] == rest;
        assert WithoutExif(segments) == [segments[0]] + rest;
      }
    }
  }

  lemma {:induction false} WithoutExifJoins(a: seq<Segment>, b: seq<Segment>)
    ensures WithoutExif(a + b) == WithoutExif(a) + WithoutExif(b)
  {
    hide IsExif;
    if a == [] {
      assert a + b == b;
    } else {
      WithoutExifJoins(a[1..], b);
      assert (a + b)[1..] == a[1..] + b;
      Associate([a[0]], WithoutExif(a[1..]), WithoutExif(b));
    }
  }

  lemma {:induction false} PrintAllJoins(a: seq<Segment>, b: seq<Segment>)
    requires AllWellFormed(a) && AllWellFormed(b)
    ensures AllWellFormed(a + b) && PrintAll(a + b) == PrintAll(a) + PrintAll(b)
  {
    hide Print;
    if a == [] {
      assert a + b == b;
    } else {
      PrintAllJoins(a[1..], b);
      assert (a + b)[1..] == a[1..] + b;
    }
  }

  lemma KeptAreWellFormed(segments: seq<Segment>)
    requires AllWellFormed(segments)
    ensures AllWellFormed(WithoutExif(segments))
  {
    KeptAreTheOthers(segments);
  }

  predicate StartsJpeg(data: seq<Byte>) {
    |data| >= 2 && data[0] == MARKER && data[1] == SOI
  }

  /** Print what is left after parsing and filtering; None is the rejection. */
  function Stripped(data: seq<Byte>): Option<seq<Byte>> {
    if !StartsJpeg(data) then Some(data)
    else
      var h := Parse(data[2..]);
      if h.None? then None
      else
        ParsedIsPrinted(data[2..]);
        KeptAreWellFormed(h.value.segments);
        Some(data[..2] + PrintAll(WithoutExif(h.value.segments)) + h.value.tail)
  }

  // ----- The walk -----

  /** Where the walk stands: `done` lies behind it, and `out` is what it has kept. */
  ghost predicate Walking(data: seq<Byte>, i: nat, done: seq<Segment>, out: seq<Byte>) {
    && 2 <= i <= |data| && AllWellFormed(done) && AllWellFormed(WithoutExif(done))
    && Parse(data[2..]) == After(done, Parse(data[i..]))
    && out == data[..2] + PrintAll(WithoutExif(done))
  }

  lemma WalkStarts(data: seq<Byte>)
    requires StartsJpeg(data)
    ensures Walking(data, 2, [], [data[0], data[1]])
  {
    hide Parse, After;
    AfterNothing(Parse(data[2..]));
    assert data[..2] == [data[0], data[1]];
  }

  lemma WellFormedSnoc(done: seq<Segment>, s: Segment)
    requires AllWellFormed(done) && s.WellFormed()
    ensures AllWellFormed(done + [s])
  {
  }

  /** The walk passes one segment, and keeps its bytes unless it is EXIF. */
  lemma WalkOn(data: seq<Byte>, i: nat, done: seq<Segment>, out: seq<Byte>)
    requires Walking(data, i, done, out) && i < |data| && ReadHead(data[i..]).One?
    ensures var h := ReadHead(data[i..]);
            && 0 < h.size <= |data| - i
            && Walking(data, i + h.size, done + [h.segment], if IsExif(h.segment) then out else out + data[i..i + h.size])
  {
    hide ReadHead, Print, Parse, After, AllWellFormed, IsExif;
    var h := ReadHead(data[i..]);
    ReadIsPrint(data[i..]);
    ParseOne(data[i..]);
    assert data[i..][..h.size] == data[i..i + h.size];
    assert data[i..][h.size..] == data[i + h.size..];
    AfterBoth(done, h.segment, Parse(data[i + h.size..]));
    KeepOn(done, h.segment);
    WellFormedSnoc(done, h.segment);
  }

  /** The bytes kept so far grow by the segment, unless it is EXIF. */
  lemma KeepOn(done: seq<Segment>, s: Segment)
    requires AllWellFormed(done) && s.WellFormed()
    ensures AllWellFormed(WithoutExif(done)) && AllWellFormed(WithoutExif(done + [s]))
    ensures PrintAll(WithoutExif(done + [s])) == PrintAll(WithoutExif(done)) + if IsExif(s) then [] else Print(s)
  {
    hide Print, IsExif;
    WithoutExifJoins(done, [s]);
    KeptAreWellFormed(done);
    assert WithoutExif([s]) == if IsExif(s) then [] else [s];
    PrintAllJoins(WithoutExif(done), WithoutExif([s]));
    if !IsExif(s) {
      assert PrintAll([s]) == Print(s) + PrintAll([]);
    }
  }

  /** Malformed from here on is malformed altogether. */
  lemma WalkRejects(data: seq<Byte>, i: nat, done: seq<Segment>, out: seq<Byte>)
    requires StartsJpeg(data) && Walking(data, i, done, out) && i < |data| && ReadHead(data[i..]).Bad?
    ensures Stripped(data) == None
  {
    hide ReadHead, Parse, PrintAll, WithoutExif, AllWellFormed;
    ParseEnds(data[i..]);
  }

  /** With no segment left, the rest is the tail. */
  lemma WalkEnds(data: seq<Byte>, i: nat, done: seq<Segment>, out: seq<Byte>)
    requires StartsJpeg(data) && Walking(data, i, done, out) && (i == |data| || ReadHead(data[i..]).Stop?)
    ensures Stripped(data) == Some(out + data[i..])
  {
    hide ReadHead, Parse, PrintAll, WithoutExif, AllWellFormed;
    ParseEnds(data[i..]);
    assert done + [] == done;
    ParsedIsPrinted(data[2..]);
    KeptAreWellFormed(done);
  }

  /** What stands at `i`, when the first byte that is not 0xFF is at `j`. */
  function HeadAt(data: seq<Byte>, i: nat, j: nat): Head
    requires i <= j <= |data|
  {
    if i == j || j == |data| then Bad
    else if Ends(data[j]) then Stop
    else if StandsAlone(data[j]) then One(Standalone(j - i - 1, data[j]), j + 1 - i)
    else if j + 3 > |data| then Bad
    else
      var length := data[j + 1] as int * 256 + data[j + 2] as int;
      if length < 2 || j + 1 + length > |data| then Bad
      else One(Sized(j - i - 1, data[j], data[j + 3..j + 1 + length]), j + 1 + length - i)
  }

  lemma FillsAre(data: seq<Byte>, i: nat, j: nat)
    requires i <= j <= |data| && (forall k :: i <= k < j ==> data[k] == MARKER) && (j < |data| ==> data[j] != MARKER)
    ensures Fills(data[i..]) == j - i
  {
    var b := data[i..];
    var n := Fills(b);
    assert n < |b| ==> b[n] == data[i + n];
    assert j < |data| ==> b[j - i] == data[j];
  }

  lemma DropDrop(data: seq<Byte>, i: nat, n: nat)
    requires i + n <= |data|
    ensures data[i..][n..] == data[i + n..]
  {
  }

  lemma CutOfDrop(data: seq<Byte>, j: nat, a: nat, b: nat)
    requires a <= b && j + b <= |data|
    ensures data[j..][a..b] == data[j + a..j + b]
  {
  }

  lemma HeadIsAt(data: seq<Byte>, i: nat, j: nat)
    requires i <= j <= |data| && i < |data| && (forall k :: i <= k < j ==> data[k] == MARKER) && (j < |data| ==> data[j] != MARKER)
    ensures ReadHead(data[i..]) == HeadAt(data, i, j)
  {
    hide Fills, Ends, StandsAlone;
    FillsAre(data, i, j);
    DropDrop(data, i, j - i);
    if j + 3 <= |data| {
      var length := data[j + 1] as int * 256 + data[j + 2] as int;
      if 2 <= length && j + 1 + length <= |data| {
        CutOfDrop(data, j, 3, 1 + length);
      }
    }
  }

  /** 0xFF fill from i up to j, and something else there, if anything. */
  predicate FilledTo(data: seq<Byte>, i: nat, j: nat) {
    && i <= j <= |data| && i < |data| && (forall k :: i <= k < j ==> data[k] == MARKER)
    && (j < |data| ==> data[j] != MARKER)
  }

  /** The length field of the segment whose marker stands at j. */
  function LengthAt(data: seq<Byte>, j: nat): int
    requires j + 3 <= |data|
  {
    data[j + 1] as int * 256 + data[j + 2] as int
  }

  /** No segment can be read here. */
  lemma CannotPass(data: seq<Byte>, i: nat, j: nat, done: seq<Segment>, out: seq<Byte>)
    requires StartsJpeg(data) && Walking(data, i, done, out) && FilledTo(data, i, j)
    requires || i == j || j == |data|
             || (!Ends(data[j]) && !StandsAlone(data[j])
                 && (j + 3 > |data| || LengthAt(data, j) < 2 || j + 1 + LengthAt(data, j) > |data|))
    ensures Stripped(data) == None
  {
    hide ReadHead, Walking, Stripped;
    HeadIsAt(data, i, j);
    WalkRejects(data, i, done, out);
  }

  /** The headers end here. */
  lemma EndsHere(data: seq<Byte>, i: nat, j: nat, done: seq<Segment>, out: seq<Byte>)
    requires StartsJpeg(data) && Walking(data, i, done, out) && FilledTo(data, i, j) && i < j < |data| && Ends(data[j])
    ensures Stripped(data) == Some(out + data[i..])
  {
    hide ReadHead, Walking, Stripped;
    HeadIsAt(data, i, j);
    WalkEnds(data, i, done, out);
  }

  lemma PassAlone(data: seq<Byte>, i: nat, j: nat, done: seq<Segment>, out: seq<Byte>)
    requires Walking(data, i, done, out) && FilledTo(data, i, j) && i < j < |data| && StandsAlone(data[j])
    ensures Walking(data, j + 1, done + [Standalone(j - i - 1, data[j])], out + data[i..j + 1])
  {
    hide ReadHead, Walking;
    HeadIsAt(data, i, j);
    WalkOn(data, i, done, out);
  }

  lemma PassSized(data: seq<Byte>, i: nat, j: nat, done: seq<Segment>, out: seq<Byte>)
    requires Walking(data, i, done, out) && FilledTo(data, i, j) && i < j < |data| && !Ends(data[j]) && !StandsAlone(data[j])
    requires j + 3 <= |data| && 2 <= LengthAt(data, j) && j + 1 + LengthAt(data, j) <= |data|
    ensures var segEnd := j + 1 + LengthAt(data, j);
            var payload := data[j + 3..segEnd];
            Walking(data, segEnd, done + [Sized(j - i - 1, data[j], payload)],
                    if IsExifApp1(data[j], payload) then out else out + data[i..segEnd])
  {
    hide ReadHead, Walking;
    HeadIsAt(data, i, j);
    WalkOn(data, i, done, out);
  }

  /** stripJPEGExif; None is domain.ErrInvalidPhoto. */
  method StripJpegExif(data: seq<Byte>) returns (r: Option<seq<Byte>>)
    ensures r == Stripped(data)
  {
    hide Walking, Stripped, IsExifApp1, LengthAt, ReadHead, Parse, PrintAll, WithoutExif, IsExif, After, Fills;
    if |data| < 2 || data[0] != MARKER || data[1] != SOI {
      NotJpeg(data);
      return Some(data);
    }
    var out := [data[0], data[1]];
    var i := 2;
    ghost var done: seq<Segment> := [];
    WalkStarts(data);
    while i < |data|
      invariant 2 <= i <= |data| && Walking(data, i, done, out)
    {
      if data[i] != MARKER {
        CannotPass(data, i, i, done, out);
        return None;
      }
      var j := i + 1;
      while j < |data| && data[j] == MARKER
        invariant i < j <= |data| && forall k :: i <= k < j ==> data[k] == MARKER
      {
        j := j + 1;
      }
      if j >= |data| {
        CannotPass(data, i, j, done, out);
        return None;
      }
      var marker := data[j];
      if marker == SOS || marker == EOI {
        EndsHere(data, i, j, done, out);
        return Some(out + data[i..]);
      } else if marker == TEM || RST0 <= marker <= RST7 {
        PassAlone(data, i, j, done, out);
        done := done + [Standalone(j - i - 1, marker)];
        out := out + data[i..j + 1];
        i := j + 1;
      } else {
        if j + 1 + 2 > |data| {
          CannotPass(data, i, j, done, out);
          return None;
        }
        var segLen := data[j + 1] as int * 256 + data[j + 2] as int;
        assert segLen == LengthAt(data, j) by {
          LengthIs(data, j);
        }
        if segLen < 2 || j + 1 + segLen > |data| {
          CannotPass(data, i, j, done, out);
          return None;
        }
        var segEnd := j + 1 + segLen;
        PassSized(data, i, j, done, out);
        done := done + [Sized(j - i - 1, marker, data[j + 3..segEnd])];
        if !IsExifApp1(marker, data[j + 3..segEnd]) {
          out := out + data[i..segEnd];
        }
        i := segEnd;
      }
    }
    NothingBehind(data, done, out);
    return Some(out);
  }

  /** The walk reached the end of the data. */
  lemma NothingBehind(data: seq<Byte>, done: seq<Segment>, out: seq<Byte>)
    requires StartsJpeg(data) && Walking(data, |data|, done, out)
    ensures Stripped(data) == Some(out)
  {
    hide ReadHead, Walking, Stripped;
    WalkEnds(data, |data|, done, out);
    assert out + data[|data|..] == out;
  }

  lemma LengthIs(data: seq<Byte>, j: nat)
    requires j + 3 <= |data|
    ensures LengthAt(data, j) == data[j + 1] as int * 256 + data[j + 2] as int
  {
  }

  lemma NotJpeg(data: seq<Byte>)
    requires !StartsJpeg(data)
    ensures Stripped(data) == Some(data)
  {
  }

  // ----- Main results -----

  /** The markers that end the headers are SOS and EOI, and those without a length are TEM and RST0 to RST7. */
  lemma MarkersAreTheStandards(marker: Byte)
    ensures Ends(marker) <==> marker in {0xDA, 0xD9}
    ensures StandsAlone(marker) <==> marker in {0x01, 0xD0, 0xD1, 0xD2, 0xD3, 0xD4, 0xD5, 0xD6, 0xD7}
    ensures forall data :: StartsJpeg(data) <==> |data| >= 2 && data[..2] == [0xFF, 0xD8]
  {
    forall data ensures StartsJpeg(data) <==> |data| >= 2 && data[..2] == [0xFF, 0xD8] {
      assert |data| >= 2 ==> data[..2] == [data[0], data[1]];
    }
  }

  /** A segment with a length carries it as two bytes, high byte first, that count themselves and the payload. */
  lemma LengthComesFirst(s: Segment)
    requires s.WellFormed() && s.Sized?
    ensures var p := Print(s);
            && |p| == s.fill + 4 + |s.payload| && p[s.fill + 4..] == s.payload
            && p[s.fill + 2] as int * 256 + p[s.fill + 3] as int == |s.payload| + 2
  {
    var p := Print(s);
    assert p == Repeat(MARKER, s.fill + 1) + [s.marker] + (LengthField(s.payload) + s.payload);
    assert p[s.fill + 2] == LengthField(s.payload)[0] && p[s.fill + 3] == LengthField(s.payload)[1];
  }

  /** An EXIF segment is one whose bytes, after its fill, are 0xFF, 0xE1, a length, "Exif", NUL, NUL. */
  lemma ExifByItsBytes(s: Segment)
    requires s.WellFormed()
    ensures IsExif(s) <==>
            && |Print(s)| >= s.fill + 10 && Print(s)[..s.fill + 2] == Repeat(0xFF, s.fill + 1) + [0xE1]
            && Print(s)[s.fill + 4..s.fill + 10] == [0x45, 0x78, 0x69, 0x66, 0x00, 0x00]
  {
    var p := Print(s);
    assert p[s.fill + 1] == s.marker && p[..s.fill + 1] == Repeat(0xFF, s.fill + 1);
    assert p[..s.fill + 2] == Repeat(0xFF, s.fill + 1) + [s.marker];
    assert (Repeat(0xFF, s.fill + 1) + [0xE1])[s.fill + 1] == 0xE1;
    if s.Sized? && |s.payload| >= 6 {
      assert p == Repeat(MARKER, s.fill + 1) + [s.marker] + (LengthField(s.payload) + s.payload);
      assert p[s.fill + 4..s.fill + 10] == s.payload[..6];
    }
  }

  /** Stripping fails exactly when the bytes after SOI are not well-formed segments up to a tail. */
  lemma RejectsExactlyMalformed(data: seq<Byte>)
    requires StartsJpeg(data)
    ensures Stripped(data).None? <==> forall segments, tail :: !Decomposes(data[2..], segments, tail)
  {
    hide Parse, Decomposes;
    forall segments, tail
      ensures Decomposes(data[2..], segments, tail) <==> Parse(data[2..]) == Some(Headers(segments, tail))
    {
      ParseDecides(data[2..], segments, tail);
    }
    if Parse(data[2..]).Some? {
      assert Decomposes(data[2..], Parse(data[2..]).value.segments, Parse(data[2..]).value.tail);
    }
  }

  /** The output is the same file less its EXIF segments: it parses to the others and to the same tail. */
  lemma OnlyExifGoes(data: seq<Byte>)
    requires StartsJpeg(data) && Stripped(data).Some?
    ensures var out := Stripped(data).value;
            var before, after := Parse(data[2..]), Parse(out[2..]);
            && StartsJpeg(out) && before.Some? && after.Some?
            && after.value.segments == WithoutExif(before.value.segments) && after.value.tail == before.value.tail
            && (forall s :: s in after.value.segments ==> !IsExif(s))
  {
    hide Parse, PrintAll, IsTail, WithoutExif;
    var h := Parse(data[2..]).value;
    ParsedIsPrinted(data[2..]);
    KeptAreWellFormed(h.segments);
    KeptAreTheOthers(h.segments);
    ParsePrinted(WithoutExif(h.segments), h.tail);
    var out := Stripped(data).value;
    assert out[2..] == PrintAll(WithoutExif(h.segments)) + h.tail;
  }

  lemma StripsOnce(data: seq<Byte>)
    requires Stripped(data).Some?
    ensures Stripped(Stripped(data).value) == Stripped(data)
  {
    hide Parse, PrintAll, IsTail, WithoutExif;
    if StartsJpeg(data) {
      OnlyExifGoes(data);
      var h := Parse(data[2..]).value;
      WithoutExifTwice(h.segments);
      var out := Stripped(data).value;
      assert out[..2] == data[..2];
    }
  }

  /** A file without EXIF segments comes back byte for byte. */
  lemma CleanIsUntouched(data: seq<Byte>)
    requires StartsJpeg(data) && Parse(data[2..]).Some?
    requires forall s :: s in Parse(data[2..]).value.segments ==> !IsExif(s)
    ensures Stripped(data) == Some(data)
  {
    hide Parse, PrintAll, IsTail;
    var h := Parse(data[2..]).value;
    ParsedIsPrinted(data[2..]);
    NothingToDrop(h.segments);
    assert data == data[..2] + data[2..];
    assert data[..2] + (PrintAll(h.segments) + h.tail) == data[..2] + PrintAll(h.segments) + h.tail;
  }

  lemma {:induction false} NothingToDrop(segments: seq<Segment>)
    requires forall s :: s in segments ==> !IsExif(s)
    ensures WithoutExif(segments) == segments
  {
    if segments != [] {
      assert segments[0] in segments;
      NothingToDrop(segments[1..]);
    }
  }
}
