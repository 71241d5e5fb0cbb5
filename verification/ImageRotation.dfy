/** Turning a receipt photo by right angles, pixel by pixel. */
module ImageRotation {
  /** Pixels row by row. */
  datatype Image = Image(w: nat, h: nat, pixels: seq<int>)

  predicate Valid(img: Image) {
    |img.pixels| == img.w * img.h
  }

  datatype ExifOrientation = Normal | Rotate90 | Rotate180 | Rotate270 | Undefined

  // ---- Places in a row-by-row array ----

  lemma {:induction false} Grows(w: nat, a: nat, b: nat)
    requires a < b
    ensures w * a + w <= w * b
    decreases b
  {
    assert w * b == w * (b - 1) + w;
    if a < b - 1 { Grows(w, a, b - 1); }
  }

  lemma {:induction false} DivMod(w: nat, x: nat, y: nat)
    requires x < w
    ensures (y * w + x) % w == x && (y * w + x) / w == y
  {
    var q, r := (y * w + x) / w, (y * w + x) % w;
    assert w * q + r == y * w + x;
    if q > y { Grows(w, y, q); }
    if q < y { Grows(w, q, y); }
  }

  lemma {:induction false} Flat(w: nat, h: nat, x: nat, y: nat)
    requires x < w && y < h
    ensures 0 <= y * w + x < w * h && (y * w + x) % w == x && (y * w + x) / w == y
  {
    Grows(w, y, h);
    DivMod(w, x, y);
  }

  lemma {:induction false} Unflat(w: nat, h: nat, i: nat)
    requires i < w * h
    ensures w > 0 && i % w < w && i / w < h && i / w * w + i % w == i
  {
    assert w > 0;
    assert w * (i / w) + i % w == i;
    if i / w > h { Grows(w, h, i / w); }
  }

  function At(img: Image, x: nat, y: nat): int
    requires Valid(img) && x < img.w && y < img.h
  {
    Flat(img.w, img.h, x, y);
    img.pixels[y * img.w + x]
  }

  lemma {:induction false} SamePixels(a: Image, b: Image)
    requires Valid(a) && Valid(b) && a.w == b.w && a.h == b.h
    requires forall x, y :: 0 <= x < a.w && 0 <= y < a.h ==> At(a, x, y) == At(b, x, y)
    ensures a == b
  {
    forall i | 0 <= i < |a.pixels| ensures a.pixels[i] == b.pixels[i] {
      Unflat(a.w, a.h, i);
      assert At(a, i % a.w, i / a.w) == At(b, i % a.w, i / a.w);
    }
    assert a.pixels == b.pixels;
  }

  // ---- Rotation ----

  predicate RightAngle(degrees: int) {
    degrees == 0 || degrees == 90 || degrees == 180 || degrees == 270
  }

  function DestW(img: Image, degrees: int): nat {
    if degrees == 0 || degrees == 180 then img.w else img.h
  }

  function DestH(img: Image, degrees: int): nat {
    if degrees == 0 || degrees == 180 then img.h else img.w
  }

  /** The source pixel that a clockwise turn brings to column `c` of row `r`. */
  function Source(img: Image, degrees: int, c: nat, r: nat): (s: (nat, nat))
    requires c < DestW(img, degrees) && r < DestH(img, degrees)
    ensures s.0 < img.w && s.1 < img.h
  {
    match degrees
    case 0 => (c, r)
    case 90 => (r, img.h - 1 - c)
    case 180 => (img.w - 1 - c, img.h - 1 - r)
    case _ => (img.w - 1 - r, c)
  }

  function SourcePixel(img: Image, degrees: int, i: nat): int
    requires Valid(img) && i < DestW(img, degrees) * DestH(img, degrees)
  {
    Unflat(DestW(img, degrees), DestH(img, degrees), i);
    var (x, y) := Source(img, degrees, i % DestW(img, degrees), i / DestW(img, degrees));
    At(img, x, y)
  }

  function Rotated(img: Image, degrees: int): (out: Image)
    requires Valid(img)
    ensures Valid(out) && out.w == DestW(img, degrees) && out.h == DestH(img, degrees)
  {
    var n := DestW(img, degrees) * DestH(img, degrees);
    Image(DestW(img, degrees), DestH(img, degrees), seq(n, i requires 0 <= i < n => SourcePixel(img, degrees, i)))
  }

  lemma {:induction false} RotatedAt(img: Image, degrees: int, c: nat, r: nat)
    requires Valid(img) && c < DestW(img, degrees) && r < DestH(img, degrees)
    ensures At(Rotated(img, degrees), c, r) == var (x, y) := Source(img, degrees, c, r); At(img, x, y)
  {
    Flat(DestW(img, degrees), DestH(img, degrees), c, r);
  }

  /** A quarter turn is clockwise: the top row becomes the rightmost column, read from top to bottom. */
  lemma {:induction false} QuarterTurnIsClockwise(img: Image, x: nat, y: nat)
    requires Valid(img) && x < img.w && y < img.h
    ensures Rotated(img, 90).w == img.h && Rotated(img, 90).h == img.w
    ensures At(Rotated(img, 90), img.h - 1 - y, x) == At(img, x, y)
  {
    RotatedAt(img, 90, img.h - 1 - y, x);
  }

  /** Going back by `b` and then by `a` is going back by the sum. */
  lemma {:induction false} SourcesAdd(img: Image, once: Image, a: int, b: int, c: nat, r: nat)
    requires RightAngle(a) && RightAngle(b) && once.w == DestW(img, a) && once.h == DestH(img, a)
    requires c < DestW(once, b) && r < DestH(once, b)
    ensures c < DestW(img, (a + b) % 360) && r < DestH(img, (a + b) % 360)
    ensures var (x, y) := Source(once, b, c, r);
            Source(img, a, x, y) == Source(img, (a + b) % 360, c, r)
  {
  }

  lemma {:induction false} RotatedTwiceAt(img: Image, a: int, b: int, c: nat, r: nat)
    requires Valid(img) && RightAngle(a) && RightAngle(b) && c < DestW(Rotated(img, a), b) && r < DestH(Rotated(img, a), b)
    ensures c < DestW(img, (a + b) % 360) && r < DestH(img, (a + b) % 360)
    ensures At(Rotated(Rotated(img, a), b), c, r) == At(Rotated(img, (a + b) % 360), c, r)
  {
    var once := Rotated(img, a);
    var (x, y) := Source(once, b, c, r);
    SourcesAdd(img, once, a, b, c, r);
    RotatedAt(once, b, c, r);
    RotatedAt(img, a, x, y);
    RotatedAt(img, (a + b) % 360, c, r);
  }

  /** Turning by `a` and then by `b` is turning by their sum. */
  lemma {:induction false} RotationsAdd(img: Image, a: int, b: int)
    requires Valid(img) && RightAngle(a) && RightAngle(b)
    ensures Rotated(Rotated(img, a), b) == Rotated(img, (a + b) % 360)
  {
    var twice, sum := Rotated(Rotated(img, a), b), Rotated(img, (a + b) % 360);
    forall c, r | 0 <= c < twice.w && 0 <= r < twice.h ensures At(twice, c, r) == At(sum, c, r) { RotatedTwiceAt(img, a, b, c, r); }
    SamePixels(twice, sum);
  }

  lemma {:induction false} NoTurn(img: Image)
    requires Valid(img)
    ensures Rotated(img, 0) == img
  {
    forall c, r | 0 <= c < img.w && 0 <= r < img.h ensures At(Rotated(img, 0), c, r) == At(img, c, r) { RotatedAt(img, 0, c, r); }
    SamePixels(Rotated(img, 0), img);
  }

  /** Four quarter turns give the photo back. */
  lemma {:induction false} FourQuarterTurns(img: Image)
    requires Valid(img)
    ensures Rotated(Rotated(Rotated(Rotated(img, 90), 90), 90), 90) == img
  {
    RotationsAdd(img, 90, 90);
    RotationsAdd(img, 180, 90);
    RotationsAdd(img, 270, 90);
    NoTurn(img);
  }

  // ---- Exif and user rotation together ----

  function ExifDegrees(orientation: ExifOrientation): int {
    match orientation
    case Rotate90 => 90
    case Rotate180 => 180
    case Rotate270 => 270
    case _ => 0
  }

  /** The remainder takes the sign of the dividend. */
  function Remainder(a: int, b: int): int
    requires b > 0
  {
    if a >= 0 then a % b else -(-a % b)
  }

  function CombinedDegrees(orientation: ExifOrientation, userDegrees: int): int {
    Remainder(ExifDegrees(orientation) + userDegrees, 360)
  }

  /** Any multiple of a right angle, brought into one turn. */
  function NormalizedDegrees(degrees: int): int {
    Remainder(Remainder(degrees, 360) + 360, 360)
  }

  lemma {:induction false} Turns(k: int, a: int)
    requires 0 <= a < 360
    ensures (360 * k + a) % 360 == a
  {
  }

  lemma {:induction false} NormalizedIsRight(quarterTurns: int)
    ensures NormalizedDegrees(90 * quarterTurns) == 90 * (quarterTurns % 4)
  {
    var j, q := quarterTurns % 4, quarterTurns / 4;
    assert 90 * quarterTurns == 360 * q + 90 * j;
    if quarterTurns >= 0 {
      Turns(q, 90 * j);
    } else if j == 0 {
      Turns(-q, 0);
    } else {
      Turns(-q - 1, 360 - 90 * j);
    }
  }

  /** The quarter turns the camera asks for. */
  function CameraTurns(orientation: ExifOrientation): nat {
    if orientation == Rotate90 then 1 else if orientation == Rotate180 then 2 else if orientation == Rotate270 then 3 else 0
  }

  /** What is left over when whole multiples of `b` are taken off towards zero. */
  lemma {:induction false} RemainderTruncates(a: int, b: int)
    requires b > 0
    ensures var q := if a >= 0 then a / b else -(-a / b);
            && a == b * q + Remainder(a, b) && -b < Remainder(a, b) < b
            && (a >= 0 ==> Remainder(a, b) >= 0) && (a <= 0 ==> Remainder(a, b) <= 0)
  {
    if a < 0 {
      var q := -a / b;
      assert -a == b * q + -a % b;
      assert b * -q == -(b * q);
    }
  }

  /** One rotation by the combined angle is the camera's rotation followed by the user's, which may be any
      number of quarter turns in either direction. */
  lemma {:induction false} CombinedIsBoth(img: Image, orientation: ExifOrientation, quarterTurns: int)
    requires Valid(img)
    ensures NormalizedDegrees(90 * quarterTurns) == 90 * (quarterTurns % 4)
    ensures Rotated(img, CombinedDegrees(orientation, NormalizedDegrees(90 * quarterTurns)))
         == Rotated(Rotated(img, 90 * CameraTurns(orientation)), 90 * (quarterTurns % 4))
  {
    NormalizedIsRight(quarterTurns);
    RotationsAdd(img, ExifDegrees(orientation), 90 * (quarterTurns % 4));
  }

  // ---- The pixel loop ----

  /** Where the loop writes source pixel (x, y). */
  function Target(img: Image, degrees: int, x: nat, y: nat): (nat, nat)
    requires x < img.w && y < img.h
  {
    match degrees
    case 0 => (x, y)
    case 90 => (img.h - 1 - y, x)
    case 180 => (img.w - 1 - x, img.h - 1 - y)
    case _ => (y, img.w - 1 - x)
  }

  function TargetIndex(img: Image, degrees: int, x: nat, y: nat): int
    requires x < img.w && y < img.h
  {
    var (c, r) := Target(img, degrees, x, y);
    r * DestW(img, degrees) + c
  }

  /** The write is inside the array, and reading back from there finds the same source pixel. */
  lemma {:induction false} TargetIsRight(img: Image, degrees: int, x: nat, y: nat)
    requires Valid(img) && x < img.w && y < img.h
    ensures 0 <= TargetIndex(img, degrees, x, y) < DestW(img, degrees) * DestH(img, degrees)
    ensures SourcePixel(img, degrees, TargetIndex(img, degrees, x, y)) == At(img, x, y)
  {
    var (c, r) := Target(img, degrees, x, y);
    Flat(DestW(img, degrees), DestH(img, degrees), c, r);
  }

  /** Different source pixels are written to different places. */
  lemma {:induction false} TargetsDiffer(img: Image, degrees: int, x: nat, y: nat, x': nat, y': nat)
    requires x < img.w && y < img.h && x' < img.w && y' < img.h
    requires TargetIndex(img, degrees, x, y) == TargetIndex(img, degrees, x', y')
    ensures x == x' && y == y'
  {
    var (c, r) := Target(img, degrees, x, y);
    var (c', r') := Target(img, degrees, x', y');
    Flat(DestW(img, degrees), DestH(img, degrees), c, r);
    Flat(DestW(img, degrees), DestH(img, degrees), c', r');
  }

  /** Every place is written from some source pixel. */
  lemma {:induction false} TargetsCover(img: Image, degrees: int, i: nat) returns (x: nat, y: nat)
    requires i < DestW(img, degrees) * DestH(img, degrees)
    ensures x < img.w && y < img.h && TargetIndex(img, degrees, x, y) == i
  {
    Unflat(DestW(img, degrees), DestH(img, degrees), i);
    var s := Source(img, degrees, i % DestW(img, degrees), i / DestW(img, degrees));
    x, y := s.0, s.1;
  }

  /** The rows above `y`, and row `y` up to column `x`, are done. */
  predicate Before(x: int, y: int, x0: int, y0: int) {
    y0 < y || (y0 == y && x0 < x)
  }

  ghost predicate DoneUpTo(img: Image, degrees: int, dest: seq<int>, x: int, y: int)
    requires Valid(img) && |dest| == DestW(img, degrees) * DestH(img, degrees)
  {
    forall x0, y0 :: 0 <= x0 < img.w && 0 <= y0 < img.h && Before(x, y, x0, y0) ==>
      Written(img, degrees, dest, x0, y0)
  }

  ghost predicate Written(img: Image, degrees: int, dest: seq<int>, x: nat, y: nat)
    requires Valid(img) && x < img.w && y < img.h && |dest| == DestW(img, degrees) * DestH(img, degrees)
  {
    TargetIsRight(img, degrees, x, y);
    dest[TargetIndex(img, degrees, x, y)] == At(img, x, y)
  }

  lemma {:induction false} WriteOne(img: Image, degrees: int, dest: seq<int>, dest': seq<int>, x: nat, y: nat)
    requires Valid(img) && x < img.w && y < img.h && |dest| == |dest'| == DestW(img, degrees) * DestH(img, degrees)
    requires DoneUpTo(img, degrees, dest, x, y)
    requires 0 <= TargetIndex(img, degrees, x, y) < |dest| && dest' == dest[TargetIndex(img, degrees, x, y) := At(img, x, y)]
    ensures DoneUpTo(img, degrees, dest', x + 1, y)
  {
    forall x0, y0 | 0 <= x0 < img.w && 0 <= y0 < img.h && Before(x + 1, y, x0, y0) ensures Written(img, degrees, dest', x0, y0) {
      TargetIsRight(img, degrees, x0, y0);
      if x0 != x || y0 != y {
        assert Before(x, y, x0, y0) && Written(img, degrees, dest, x0, y0);
        if TargetIndex(img, degrees, x0, y0) == TargetIndex(img, degrees, x, y) { TargetsDiffer(img, degrees, x0, y0, x, y); }
      }
    }
  }

  lemma {:induction false} AllWritten(img: Image, degrees: int, dest: seq<int>)
    requires Valid(img) && |dest| == DestW(img, degrees) * DestH(img, degrees) && DoneUpTo(img, degrees, dest, 0, img.h)
    ensures dest == Rotated(img, degrees).pixels
  {
    forall i | 0 <= i < |dest| ensures dest[i] == SourcePixel(img, degrees, i) {
      var x, y := TargetsCover(img, degrees, i);
      assert Before(0, img.h, x, y) && Written(img, degrees, dest, x, y);
      TargetIsRight(img, degrees, x, y);
    }
  }

  /** The loop's body for source pixel (x, y). */
  method WritePixel(w: nat, h: nat, pixels: array<int>, degrees: int, destW: nat, dest: array<int>, x: nat, y: nat)
    requires pixels.Length == w * h && x < w && y < h && pixels != dest && degrees != 0
    requires var img := Image(w, h, pixels[..]);
             destW == DestW(img, degrees) && dest.Length == destW * DestH(img, degrees) && DoneUpTo(img, degrees, dest[..], x, y)
    modifies dest
    ensures DoneUpTo(Image(w, h, pixels[..]), degrees, dest[..], x + 1, y)
  {
    ghost var img, before := Image(w, h, pixels[..]), dest[..];
    Flat(w, h, x, y);
    TargetIsRight(img, degrees, x, y);
    var pixel := pixels[y * w + x];
    match degrees {
      case 90 => dest[x * destW + (h - 1 - y)] := pixel;
      case 180 => dest[(h - 1 - y) * destW + (w - 1 - x)] := pixel;
      case _ => dest[(w - 1 - x) * destW + y] := pixel;
    }
    WriteOne(img, degrees, before, dest[..], x, y);
  }

  method RotateRightAngles(w: nat, h: nat, pixels: array<int>, degrees: int) returns (destW: nat, destH: nat, dest: array<int>)
    requires pixels.Length == w * h
    ensures Image(destW, destH, dest[..]) == Rotated(Image(w, h, pixels[..]), degrees)
  {
    ghost var img := Image(w, h, pixels[..]);
    if degrees == 0 {
      NoTurn(img);
      return w, h, pixels;
    }
    destW := if degrees == 180 then w else h;
    destH := if degrees == 180 then h else w;
    dest := new int[destW * destH];
    for y := 0 to h
      invariant pixels[..] == img.pixels && DoneUpTo(img, degrees, dest[..], 0, y)
    {
      for x := 0 to w
        invariant pixels[..] == img.pixels && DoneUpTo(img, degrees, dest[..], x, y)
      {
        WritePixel(w, h, pixels, degrees, destW, dest, x, y);
      }
    }
    AllWritten(img, degrees, dest[..]);
  }
}
