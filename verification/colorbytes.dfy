/**
 * `Vector3ColorExtensions` (the chapter 6 example): a colour with channels
 * nominally in [0, 1] becomes an 8-bit-per-channel SkiaSharp colour. Each
 * channel is scaled by 255, clamped to [0, 255] and cast to a byte, which
 * drops the fraction.
 */
module ColorBytes {
  import opened Numerics

  newtype Byte = x: int | 0 <= x < 256

  /** The three channels of an `SKColor` (its alpha is left at the default, opaque). */
  datatype SKColor = SKColor(red: Byte, green: Byte, blue: Byte)

  /** `ToByte`: 255 above 255, 0 below 0, and otherwise the whole part of the value. */
  function ToByte(value: real): (b: Byte)
    ensures value > 255.0 ==> b == 255
    ensures value < 0.0 ==> b == 0
    ensures 0.0 <= value <= 255.0 ==> b as real <= value < b as real + 1.0
  {
    if value > 255.0 then 255
    else if value < 0.0 then 0
    else value.Floor as Byte
  }

  /**
   * `ToSKColor`: each channel times 255, through `ToByte`. Each byte is the
   * whole part of 255 times its channel clamped to [0, 1], so out-of-range
   * colours saturate.
   */
  function ToSKColor(color: Vector3): (k: SKColor)
    ensures (color.x >= 1.0 ==> k.red == 255) && (color.x <= 0.0 ==> k.red == 0)
    ensures 0.0 <= color.x <= 1.0 ==> k.red as real <= color.x * 255.0 < k.red as real + 1.0
    ensures (color.y >= 1.0 ==> k.green == 255) && (color.y <= 0.0 ==> k.green == 0)
    ensures 0.0 <= color.y <= 1.0 ==> k.green as real <= color.y * 255.0 < k.green as real + 1.0
    ensures (color.z >= 1.0 ==> k.blue == 255) && (color.z <= 0.0 ==> k.blue == 0)
    ensures 0.0 <= color.z <= 1.0 ==> k.blue as real <= color.z * 255.0 < k.blue as real + 1.0
  {
    var c := Scale3(color, 255.0);
    SKColor(ToByte(c.x), ToByte(c.y), ToByte(c.z))
  }

  /** The colour whose channels are the bytes over 255. */
  function FromSKColor(k: SKColor): Vector3 {
    Vector3(k.red as real / 255.0, k.green as real / 255.0, k.blue as real / 255.0)
  }

  // ------------------------------------------------------------------ facts

  /** A brighter value never gives a smaller byte. */
  lemma ToByteMonotone(v: real, w: real)
    requires v <= w
    ensures ToByte(v) <= ToByte(w)
  {
  }

  /** A whole number in [0, 255] passes through unchanged. */
  lemma ToByteExact(n: Byte)
    ensures ToByte(n as real) == n
  {
  }

  /** Every byte is reached, by itself and by every value up to the next whole number. */
  lemma ToByteFloor(n: Byte, v: real)
    requires n as real <= v < n as real + 1.0 && v <= 255.0
    ensures ToByte(v) == n
  {
  }

  /** Converting an 8-bit colour to channels in [0, 1] and back gives the same colour. */
  lemma ToSKColorRoundTrip(k: SKColor)
    ensures ToSKColor(FromSKColor(k)) == k
  {
    ScaleBack(k.red);
    ScaleBack(k.green);
    ScaleBack(k.blue);
  }

  lemma ScaleBack(n: Byte)
    ensures n as real / 255.0 * 255.0 == n as real
  {
  }

  /** White is (255, 255, 255) and black is (0, 0, 0). */
  lemma ToSKColorWhiteBlack()
    ensures ToSKColor(Vector3(1.0, 1.0, 1.0)) == SKColor(255, 255, 255)
    ensures ToSKColor(Vector3(0.0, 0.0, 0.0)) == SKColor(0, 0, 0)
  {
    assert FromSKColor(SKColor(255, 255, 255)) == Vector3(1.0, 1.0, 1.0);
    ToSKColorRoundTrip(SKColor(255, 255, 255));
    assert FromSKColor(SKColor(0, 0, 0)) == Vector3(0.0, 0.0, 0.0);
    ToSKColorRoundTrip(SKColor(0, 0, 0));
  }

  /** Out-of-range channels saturate and a half-way channel rounds down. */
  lemma ToSKColorSaturates()
    ensures ToSKColor(Vector3(1.5, -0.5, 0.5)) == SKColor(255, 0, 127)
  {
    assert Scale3(Vector3(1.5, -0.5, 0.5), 255.0) == Vector3(382.5, -127.5, 127.5);
    ToByteFloor(127, 127.5);
  }
}
