/** Device-native audio frames: 24-bit stereo, three bytes a channel, holding the
    high three bytes of a 32-bit sample. */
module DeviceFrames {
  import opened Numbers

  type byte = x: int | 0 <= x < 256

  /** A 32-bit signed word. */
  type i32 = x: int | -0x8000_0000 <= x < 0x8000_0000

  datatype Dev3 = Dev3(b0: byte, b1: byte, b2: byte)

  datatype Frame = Frame(left: Dev3, right: Dev3)

  const SILENCE := Frame(Dev3(0, 0, 0), Dev3(0, 0, 0))

  /** Bytes placed at bits 8..31, read as a signed word. */
  function Dev3ToI32(p: Dev3): i32 {
    var u := p.b0 * 0x100 + p.b1 * 0x1_0000 + p.b2 * 0x100_0000;
    if u >= 0x8000_0000 then u - 0x1_0000_0000 else u
  }

  /** Arithmetic shifts right by 8, 16 and 24, each masked to a byte. */
  function I32ToDev3(v: i32): Dev3 {
    Dev3((v / 0x100) % 0x100, (v / 0x1_0000) % 0x100, (v / 0x100_0000) % 0x100)
  }

  /** Packing a word and unpacking it clears the low byte and nothing else. */
  lemma UnpackPack(v: i32)
    ensures Dev3ToI32(I32ToDev3(v)) == v - v % 0x100
  {
    var mid := v / 0x100;
    var hi := mid / 0x100;
    var top := hi / 0x100;
    assert v == 0x100 * mid + v % 0x100;
    assert mid == 0x100 * hi + mid % 0x100;
    assert hi == 0x100 * top + hi % 0x100;
    assert v / 0x1_0000 == hi && v / 0x100_0000 == top;
    assert -0x80 <= top < 0x80;
    assert top % 0x100 == if top < 0 then top + 0x100 else top;
  }

  /** Every device sample survives the trip through a 32-bit word. */
  lemma PackUnpack(p: Dev3)
    ensures I32ToDev3(Dev3ToI32(p)) == p
    ensures Dev3ToI32(p) % 0x100 == 0
  {
    var top := if p.b2 >= 0x80 then p.b2 - 0x100 else p.b2;
    Shifted(Dev3ToI32(p), p.b0, p.b1, top);
  }

  /** The three shifts of a word whose low byte is zero. */
  lemma Shifted(v: int, b0: byte, b1: byte, top: int)
    requires v == 0x100 * b0 + 0x1_0000 * b1 + 0x100_0000 * top
    ensures v % 0x100 == 0 && (v / 0x100) % 0x100 == b0 && (v / 0x1_0000) % 0x100 == b1 && v / 0x100_0000 == top
  {
    var hi := b1 + 0x100 * top;
    var mid := b0 + 0x100 * hi;
    assert v == 0x100 * mid;
    assert v / 0x100 == mid && v / 0x1_0000 == hi;
  }

  /** C's conversion of a double to an integer: truncation toward zero. */
  function Truncate(x: real): int {
    if x >= 0.0 then x.Floor else -((-x).Floor)
  }

  /** Truncating a point between two integers lands between them. */
  lemma TruncatedStep(sa: int, sb: int, step: real)
    requires sa <= sb ==> 0.0 <= step <= (sb - sa) as real
    requires sb <= sa ==> (sb - sa) as real <= step <= 0.0
    ensures var v := Truncate(sa as real + step); sa <= v <= sb || sb <= v <= sa
  {
    var x := sa as real + step;
    if sa <= sb {
      assert sa as real <= x <= sb as real;
    } else {
      assert sb as real <= x <= sa as real;
    }
  }

  /** The part mu of an integer distance. */
  function Share(d: int, mu: real): (step: real)
    requires 0.0 <= mu < 1.0
    ensures 0 <= d ==> 0.0 <= step <= d as real
    ensures d <= 0 ==> d as real <= step <= 0.0
    ensures d == 0 || mu == 0.0 ==> step == 0.0
  {
    FractionOf(d as real, mu);
    d as real * mu
  }

  /** The 32-bit blend of two device samples at fraction mu, before repacking. */
  function Blend(a: Dev3, b: Dev3, mu: real): (v: i32)
    requires 0.0 <= mu < 1.0
    ensures Dev3ToI32(a) <= v <= Dev3ToI32(b) || Dev3ToI32(b) <= v <= Dev3ToI32(a)
  {
    var sa, sb := Dev3ToI32(a), Dev3ToI32(b);
    TruncatedStep(sa, sb, Share(sb - sa, mu));
    Truncate(sa as real + Share(sb - sa, mu))
  }

  function Mix(a: Dev3, b: Dev3, mu: real): Dev3
    requires 0.0 <= mu < 1.0
  {
    I32ToDev3(Blend(a, b, mu))
  }

  function MixFrame(a: Frame, b: Frame, mu: real): Frame
    requires 0.0 <= mu < 1.0
  {
    Frame(Mix(a.left, b.left, mu), Mix(a.right, b.right, mu))
  }

  ghost predicate Between(a: Dev3, m: Dev3, b: Dev3) {
    || Dev3ToI32(a) <= Dev3ToI32(m) <= Dev3ToI32(b)
    || Dev3ToI32(b) <= Dev3ToI32(m) <= Dev3ToI32(a)
  }

  /** An interpolated sample never leaves the interval its two neighbours span, although the
      blend is truncated toward zero and its low byte is then cut off; on a whole position it
      is the first neighbour itself. */
  lemma MixBetween(a: Dev3, b: Dev3, mu: real)
    requires 0.0 <= mu < 1.0
    ensures Between(a, Mix(a, b, mu), b)
    ensures mu == 0.0 || a == b ==> Mix(a, b, mu) == a
  {
    var v := Blend(a, b, mu);
    UnpackPack(v);
    PackUnpack(a);
    PackUnpack(b);
    FloorToByte(Dev3ToI32(a), v);
    FloorToByte(Dev3ToI32(b), v);
    if mu == 0.0 || a == b {
      BlendAtA(a, b, mu);
    }
  }

  lemma FloorToByte(m: int, v: int)
    requires m % 0x100 == 0
    ensures m <= v ==> m <= v - v % 0x100
    ensures v <= m ==> v - v % 0x100 <= m
  {
  }

  lemma BlendAtA(a: Dev3, b: Dev3, mu: real)
    requires 0.0 <= mu < 1.0
    requires mu == 0.0 || a == b
    ensures Blend(a, b, mu) == Dev3ToI32(a)
  {
    assert Share(Dev3ToI32(b) - Dev3ToI32(a), mu) == 0.0;
  }

  // ----- the mix is linear interpolation -----

  /** The point at mu between two samples. */
  function Point(sa: int, sb: int, mu: real): real {
    (1.0 - mu) * sa as real + mu * sb as real
  }

  /** v is x truncated toward zero, its low byte then cut off downward. */
  ghost predicate CutTo(x: real, v: int) {
    && v % 0x100 == 0
    && (x >= 0.0 ==> v as real <= x < v as real + 256.0)
    && (x < 0.0 ==> v as real - 1.0 < x <= v as real + 255.0)
  }

  ghost predicate Interpolates(a: Dev3, b: Dev3, mu: real, m: Dev3) {
    CutTo(Point(Dev3ToI32(a), Dev3ToI32(b), mu), Dev3ToI32(m))
  }

  ghost predicate InterpolatesFrame(a: Frame, b: Frame, mu: real, m: Frame) {
    Interpolates(a.left, b.left, mu, m.left) && Interpolates(a.right, b.right, mu, m.right)
  }

  lemma LinearPoint(sa: real, sb: real, d: real, mu: real)
    requires d == sb - sa
    ensures sa + d * mu == (1.0 - mu) * sa + mu * sb
  {
  }

  lemma ShareReaches(sa: int, sb: int, mu: real)
    requires 0.0 <= mu < 1.0
    ensures sa as real + Share(sb - sa, mu) == Point(sa, sb, mu)
  {
    LinearPoint(sa as real, sb as real, (sb - sa) as real, mu);
  }

  lemma BlendIsPoint(a: Dev3, b: Dev3, mu: real)
    requires 0.0 <= mu < 1.0
    ensures Blend(a, b, mu) == Truncate(Point(Dev3ToI32(a), Dev3ToI32(b), mu))
  {
    ShareReaches(Dev3ToI32(a), Dev3ToI32(b), mu);
  }

  lemma CutTruncated(x: real, v: int)
    requires v == Truncate(x)
    ensures CutTo(x, v - v % 0x100)
  {
  }

  lemma CutIsUnique(x: real, v: int, w: int)
    requires CutTo(x, v) && CutTo(x, w)
    ensures v == w
  {
    CloseCuts(x, v, w);
    CloseMultiples(v, w);
  }

  lemma CloseCuts(x: real, v: int, w: int)
    requires CutTo(x, v) && CutTo(x, w)
    ensures -256 < v - w < 256
  {
    assert -256.0 < v as real - w as real < 256.0;
  }

  lemma CloseMultiples(v: int, w: int)
    requires v % 0x100 == 0 && w % 0x100 == 0 && -256 < v - w < 256
    ensures v == w
  {
    var p, q := v / 0x100, w / 0x100;
    assert v == 0x100 * p && w == 0x100 * q;
  }

  lemma MixInterpolates(a: Dev3, b: Dev3, mu: real)
    requires 0.0 <= mu < 1.0
    ensures Interpolates(a, b, mu, Mix(a, b, mu))
  {
    BlendIsPoint(a, b, mu);
    CutTruncated(Point(Dev3ToI32(a), Dev3ToI32(b), mu), Blend(a, b, mu));
    UnpackPack(Blend(a, b, mu));
  }

  /** The mix interpolates, and no other sample does. */
  lemma InterpolationIsUnique(a: Dev3, b: Dev3, mu: real, m: Dev3)
    requires 0.0 <= mu < 1.0
    ensures Interpolates(a, b, mu, m) <==> m == Mix(a, b, mu)
  {
    MixInterpolates(a, b, mu);
    if Interpolates(a, b, mu, m) {
      CutIsUnique(Point(Dev3ToI32(a), Dev3ToI32(b), mu), Dev3ToI32(m), Dev3ToI32(Mix(a, b, mu)));
      SameSample(m, Mix(a, b, mu));
    }
  }

  lemma SameSample(p: Dev3, q: Dev3)
    requires Dev3ToI32(p) == Dev3ToI32(q)
    ensures p == q
  {
    PackUnpack(p);
    PackUnpack(q);
  }
}
