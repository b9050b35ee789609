/**
 applyOrientation of media/adapter/exif_scrub.go: the eight EXIF orientations (Exif 2.3, section
 4.6.4, tag 0x0112) as a copy from a source grid into a new one. The grid maps are proved to be
 bijections and to be the flips and rotations the code documents.
 */
module Orientation {

  type Tag = o: int | 2 <= o <= 8 witness 2

  /** A source image: its bounds' corner, its size, and its colours. */
  datatype Source<C> = Source(minX: int, minY: int, w: nat, h: nat, at: (int, int) -> C)

  /** An image as a grid from (0, 0). */
  datatype Picture<!C> = Picture(w: nat, h: nat, at: (int, int) -> C)

  function Seen<C>(src: Source<C>): Picture<C> {
    Picture(src.w, src.h, (x, y) => src.at(src.minX + x, src.minY + y))
  }

  predicate Swaps(o: Tag) {
    o >= 5
  }

  /** Where source pixel (x, y) of a w by h image goes. */
  function Target(o: Tag, w: nat, h: nat, x: int, y: int): (int, int) {
    match o
    case 2 => (w - 1 - x, y)
    case 3 => (w - 1 - x, h - 1 - y)
    case 4 => (x, h - 1 - y)
    case 5 => (y, x)
    case 6 => (h - 1 - y, x)
    case 7 => (h - 1 - y, w - 1 - x)
    case _ => (y, w - 1 - x)
  }

  /** Where destination pixel (dx, dy) comes from. */
  function Origin(o: Tag, w: nat, h: nat, dx: int, dy: int): (int, int) {
    match o
    case 2 => (w - 1 - dx, dy)
    case 3 => (w - 1 - dx, h - 1 - dy)
    case 4 => (dx, h - 1 - dy)
    case 5 => (dy, dx)
    case 6 => (dy, h - 1 - dx)
    case 7 => (w - 1 - dy, h - 1 - dx)
    case _ => (w - 1 - dy, dx)
  }

  function Width(o: Tag, w: nat, h: nat): nat {
    if Swaps(o) then h else w
  }

  function Height(o: Tag, w: nat, h: nat): nat {
    if Swaps(o) then w else h
  }

  predicate Inside(p: (int, int), w: nat, h: nat) {
    0 <= p.0 < w && 0 <= p.1 < h
  }

  /** The upright picture. */
  function Oriented<C>(o: Tag, p: Picture<C>): Picture<C> {
    Picture(Width(o, p.w, p.h), Height(o, p.w, p.h),
            (dx, dy) => p.at(Origin(o, p.w, p.h, dx, dy).0, Origin(o, p.w, p.h, dx, dy).1))
  }

  ghost predicate Same<C(!new)>(p: Picture<C>, q: Picture<C>) {
    p.w == q.w && p.h == q.h && forall x, y :: Inside((x, y), p.w, p.h) ==> p.at(x, y) == q.at(x, y)
  }

  /** Source pixels and destination pixels correspond one to one, in bounds both ways. */
  lemma OneToOne(o: Tag, w: nat, h: nat, x: int, y: int, dx: int, dy: int)
    ensures Inside((x, y), w, h) ==> Inside(Target(o, w, h, x, y), Width(o, w, h), Height(o, w, h))
    ensures Inside((dx, dy), Width(o, w, h), Height(o, w, h)) ==> Inside(Origin(o, w, h, dx, dy), w, h)
    ensures Target(o, w, h, x, y) == (dx, dy) <==> Origin(o, w, h, dx, dy) == (x, y)
  {
  }

  /** Pixel (x, y) has had its turn when the loops stand at (toX, toY). */
  predicate Copied(x: int, y: int, w: nat, toX: int, toY: int) {
    0 <= x < w && 0 <= y && (y < toY || (y == toY && x < toX))
  }

  /** No other destination pixel comes from (x, y). */
  lemma OnlyTarget(o: Tag, w: nat, h: nat, x: int, y: int)
    ensures Inside((x, y), w, h) ==> Inside(Target(o, w, h, x, y), Width(o, w, h), Height(o, w, h))
    ensures forall dx, dy :: Origin(o, w, h, dx, dy) == (x, y) <==> Target(o, w, h, x, y) == (dx, dy)
  {
    hide Target, Origin;
    OneToOne(o, w, h, x, y, 0, 0);
    forall dx, dy ensures Origin(o, w, h, dx, dy) == (x, y) <==> Target(o, w, h, x, y) == (dx, dy) {
      OneToOne(o, w, h, x, y, dx, dy);
    }
  }

  /** The switch on the orientation. */
  method Place(o: Tag, w: nat, h: nat, x: int, y: int) returns (dx: int, dy: int)
    ensures (dx, dy) == Target(o, w, h, x, y)
  {
    dx, dy := x, y;
    match o {
      case 2 => dx, dy := w - 1 - x, y;
      case 3 => dx, dy := w - 1 - x, h - 1 - y;
      case 4 => dx, dy := x, h - 1 - y;
      case 5 => dx, dy := y, x;
      case 6 => dx, dy := h - 1 - y, x;
      case 7 => dx, dy := h - 1 - y, w - 1 - x;
      case 8 => dx, dy := y, w - 1 - x;
    }
  }

  method ApplyOrientation<C(0, !new)>(src: Source<C>, o: Tag) returns (dst: array2<C>)
    ensures fresh(dst)
    ensures dst.Length0 == Oriented(o, Seen(src)).w && dst.Length1 == Oriented(o, Seen(src)).h
    ensures forall dx, dy :: 0 <= dx < dst.Length0 && 0 <= dy < dst.Length1 ==>
              dst[dx, dy] == Oriented(o, Seen(src)).at(dx, dy)
  {
    hide Target, Origin;
    var w, h := src.w, src.h;
    var dw, dh := w, h;
    if o >= 5 {
      dw, dh := h, w;
    }
    dst := new C[dw, dh];
    for y := 0 to h
      invariant forall dx, dy :: 0 <= dx < dw && 0 <= dy < dh ==>
                  var p := Origin(o, w, h, dx, dy);
                  Copied(p.0, p.1, w, 0, y) ==> dst[dx, dy] == src.at(src.minX + p.0, src.minY + p.1)
    {
      for x := 0 to w
        invariant forall dx, dy :: 0 <= dx < dw && 0 <= dy < dh ==>
                    var p := Origin(o, w, h, dx, dy);
                    Copied(p.0, p.1, w, x, y) ==> dst[dx, dy] == src.at(src.minX + p.0, src.minY + p.1)
      {
        var c := src.at(src.minX + x, src.minY + y);
        var dx, dy := Place(o, w, h, x, y);
        OnlyTarget(o, w, h, x, y);
        dst[dx, dy] := c;
      }
    }
    forall dx, dy | 0 <= dx < dw && 0 <= dy < dh
      ensures var p := Origin(o, w, h, dx, dy); Copied(p.0, p.1, w, 0, h)
    {
      OneToOne(o, w, h, 0, 0, dx, dy);
    }
  }

  // ----- The documented compositions -----

  function FlipHorizontal<C>(p: Picture<C>): Picture<C> {
    Picture(p.w, p.h, (x, y) => p.at(p.w - 1 - x, y))
  }

  function FlipVertical<C>(p: Picture<C>): Picture<C> {
    Picture(p.w, p.h, (x, y) => p.at(x, p.h - 1 - y))
  }

  /** Clockwise: the left column becomes the top row. */
  function Rotate90<C>(p: Picture<C>): Picture<C> {
    Picture(p.h, p.w, (x, y) => p.at(y, p.h - 1 - x))
  }

  function Rotate180<C>(p: Picture<C>): Picture<C> {
    Rotate90(Rotate90(p))
  }

  function Rotate270<C>(p: Picture<C>): Picture<C> {
    Rotate90(Rotate180(p))
  }

  /** The composition each orientation is documented as. */
  function Documented<C>(o: Tag, p: Picture<C>): Picture<C> {
    match o
    case 2 => FlipHorizontal(p)
    case 3 => Rotate180(p)
    case 4 => FlipVertical(p)
    case 5 => Rotate270(FlipHorizontal(p))
    case 6 => Rotate90(p)
    case 7 => Rotate90(FlipHorizontal(p))
    case _ => Rotate270(p)
  }

  lemma Rotate180At<C>(p: Picture<C>, x: int, y: int)
    ensures Rotate180(p).w == p.w && Rotate180(p).h == p.h
    ensures Rotate180(p).at(x, y) == p.at(p.w - 1 - x, p.h - 1 - y)
  {
    var once := Rotate90(p);
    assert Rotate90(once).at(x, y) == once.at(y, once.h - 1 - x);
  }

  lemma Rotate270At<C>(p: Picture<C>, x: int, y: int)
    ensures Rotate270(p).w == p.h && Rotate270(p).h == p.w
    ensures Rotate270(p).at(x, y) == p.at(p.w - 1 - y, x)
  {
    hide Rotate180;
    var twice := Rotate180(p);
    Rotate180At(p, y, twice.h - 1 - x);
    assert Rotate90(twice).at(x, y) == twice.at(y, twice.h - 1 - x);
  }

  lemma AsDocumentedAt<C>(o: Tag, p: Picture<C>, x: int, y: int)
    ensures Documented(o, p).w == Oriented(o, p).w && Documented(o, p).h == Oriented(o, p).h
    ensures Documented(o, p).at(x, y) == Oriented(o, p).at(x, y)
  {
    hide Rotate180, Rotate270;
    var f := FlipHorizontal(p);
    var from := Origin(o, p.w, p.h, x, y);
    assert Oriented(o, p).at(x, y) == p.at(from.0, from.1);
    match o
    case 2 =>
      assert f.at(x, y) == p.at(p.w - 1 - x, y);
    case 3 => Rotate180At(p, x, y);
    case 4 => assert FlipVertical(p).at(x, y) == p.at(x, p.h - 1 - y);
    case 5 =>
      Rotate270At(f, x, y);
      assert f.at(f.w - 1 - y, x) == p.at(p.w - 1 - (f.w - 1 - y), x);
    case 6 =>
    case 7 => assert f.at(y, f.h - 1 - x) == p.at(p.w - 1 - y, f.h - 1 - x);
    case _ => Rotate270At(p, x, y);
  }

  /** A flip and quarter turns give every orientation as documented. */
  lemma AsDocumented<C(!new)>(o: Tag, p: Picture<C>)
    ensures Same(Oriented(o, p), Documented(o, p))
  {
    hide Oriented, Documented;
    AsDocumentedAt(o, p, 0, 0);
    forall x, y ensures Oriented(o, p).at(x, y) == Documented(o, p).at(x, y) {
      AsDocumentedAt(o, p, x, y);
    }
  }

  /** The orientation that undoes another. */
  function Undo(o: Tag): Tag {
    if o == 6 then 8 else if o == 8 then 6 else o
  }

  /** 6 and 8 undo each other; 2, 3, 4, 5 and 7 undo themselves. */
  lemma UndoneByUndo<C(!new)>(o: Tag, p: Picture<C>)
    ensures Same(Oriented(Undo(o), Oriented(o, p)), p)
  {
    var q := Oriented(o, p);
    forall x, y | Inside((x, y), p.w, p.h) ensures Oriented(Undo(o), q).at(x, y) == p.at(x, y) {
      var m := Origin(Undo(o), q.w, q.h, x, y);
      assert Origin(o, p.w, p.h, m.0, m.1) == (x, y);
    }
  }
}
