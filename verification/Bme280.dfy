/** BME280 register assembly and compensation (hardware/bme280_service.py).

  All arithmetic is on Python integers: >> is floor division, which is Dafny's / for
  the positive divisors used here. */
module Bme280 {

  // ------------------------------------------------------------------------ bits

  type Byte = b: int | 0 <= b < 256

  // Bitwise or of two non-negative integers.
  function Or(a: nat, b: nat): nat
    decreases a + b
  {
    if a == 0 then b
    else if b == 0 then a
    else 2 * Or(a / 2, b / 2) + if a % 2 == 1 || b % 2 == 1 then 1 else 0
  }

  function Pow2(n: nat): nat {
    if n == 0 then 1 else 2 * Pow2(n - 1)
  }

  function Shl(a: nat, n: nat): nat {
    a * Pow2(n)
  }

  // Or-ing a value below 2^n into a value shifted left by n is addition.
  lemma {:induction false} OrIntoShifted(a: nat, b: nat, n: nat)
    requires b < Pow2(n)
    ensures Or(Shl(a, n), b) == Shl(a, n) + b
    decreases n
  {
    if n > 0 && a > 0 && b > 0 {
      Double(a, Pow2(n - 1));
      OrIntoShifted(a, b / 2, n - 1);
    }
  }

  lemma Double(a: nat, p: nat)
    ensures a * (2 * p) == 2 * (a * p) && a > 0 && p > 0 ==> a * (2 * p) > 0
    ensures a * (2 * p) / 2 == a * p && a * (2 * p) % 2 == 0
  {
    assert a * (2 * p) == 2 * (a * p);
  }

  function Raw20(msb: Byte, lsb: Byte, xlsb: Byte): nat {
    Or(Or(Shl(msb, 12), Shl(lsb, 4)), xlsb / 16)
  }

  function Raw16(hi: Byte, lo: Byte): nat {
    Or(Shl(hi, 8), lo)
  }

  lemma PowerTable()
    ensures Pow2(4) == 16 && Pow2(8) == 256 && Pow2(12) == 4096 && Pow2(16) == 65536
    ensures Pow2(7) == 128 && Pow2(11) == 2048 && Pow2(15) == 32768
  {
    assert Pow2(4) == 16;
    assert Pow2(8) == 256;
    assert Pow2(12) == 4096;
    assert Pow2(12) == 2 * Pow2(11) && Pow2(8) == 2 * Pow2(7) && Pow2(16) == 2 * Pow2(15);
  }

  // The value of two bytes, or of a byte and a nibble.
  function Wide(hi: int, lo: int): int {
    256 * hi + lo
  }

  function Nibbled(hi: int, lo: int): int {
    16 * hi + lo
  }

  lemma Raw16IsExact(hi: Byte, lo: Byte)
    ensures Raw16(hi, lo) == Wide(hi, lo)
  {
    PowerTable();
    OrIntoShifted(hi, lo, 8);
  }

  lemma NibbleIsExact(hi: nat, lo: nat)
    requires lo < 16
    ensures Or(Shl(hi, 4), lo) == Nibbled(hi, lo)
  {
    PowerTable();
    OrIntoShifted(hi, lo, 4);
  }

  lemma HighPart(msb: Byte, lsb: Byte)
    ensures Or(Shl(msb, 12), Shl(lsb, 4)) == Shl(Wide(msb, lsb), 4)
  {
    PowerTable();
    OrIntoShifted(msb, Shl(lsb, 4), 12);
  }

  lemma Raw20IsExact(msb: Byte, lsb: Byte, xlsb: Byte)
    ensures Raw20(msb, lsb, xlsb) == Nibbled(Wide(msb, lsb), xlsb / 16)
  {
    HighPart(msb, lsb);
    NibbleIsExact(Wide(msb, lsb), xlsb / 16);
  }

  lemma WideParts(hi: Byte, lo: Byte)
    ensures Wide(hi, lo) / 256 == hi && Wide(hi, lo) % 256 == lo && 0 <= Wide(hi, lo) < 0x1_0000
  {}

  lemma NibbledParts(hi: int, lo: int)
    requires 0 <= lo < 16
    ensures Nibbled(hi, lo) / 16 == hi && Nibbled(hi, lo) % 16 == lo
  {}

  // Assembly is exact: every byte is found again in its own bits of the result.
  lemma RawIsExact(msb: Byte, lsb: Byte, xlsb: Byte)
    ensures Raw20(msb, lsb, xlsb) == Nibbled(Wide(msb, lsb), xlsb / 16) < 0x10_0000
    ensures Raw16(msb, lsb) == Wide(msb, lsb) < 0x1_0000
    ensures Raw20(msb, lsb, xlsb) / 16 / 256 == msb && Raw20(msb, lsb, xlsb) / 16 % 256 == lsb
            && Raw20(msb, lsb, xlsb) % 16 == xlsb / 16
    ensures Raw16(msb, lsb) / 256 == msb && Raw16(msb, lsb) % 256 == lsb
  {
    Raw16IsExact(msb, lsb);
    Raw20IsExact(msb, lsb, xlsb);
    WideParts(msb, lsb);
    NibbledParts(Wide(msb, lsb), xlsb / 16);
  }

  // ----------------------------------------------------------------- calibration

  function ToSigned16(value: nat): int {
    if value / 0x8000 % 2 == 1 then value - 0x1_0000 else value
  }

  function ToSigned8(value: nat): int {
    if value / 0x80 % 2 == 1 then value - 0x100 else value
  }

  datatype Calibration = Calibration(T1: int, T2: int, T3: int, H1: int, H2: int, H3: int, H4: int, H5: int, H6: int)

  function U16(block: seq<Byte>, lo: nat): nat
    requires lo + 1 < |block|
  {
    Or(block[lo], Shl(block[lo + 1], 8))
  }

  // The trims temperature and humidity use.
  function ParseCalibration(calib1: seq<Byte>, calib2: seq<Byte>): Calibration
    requires |calib1| == 26 && |calib2| == 7
  {
    Calibration(U16(calib1, 0), ToSigned16(U16(calib1, 2)), ToSigned16(U16(calib1, 4)),
                calib1[25], ToSigned16(U16(calib2, 0)), calib2[2],
                ToSigned16(Or(Shl(calib2[3], 4), calib2[4] % 16)),
                ToSigned16(Or(Shl(calib2[5], 4), calib2[4] / 16)),
                ToSigned8(calib2[6]))
  }

  lemma {:induction false} OrCommutes(a: nat, b: nat)
    ensures Or(a, b) == Or(b, a)
    decreases a + b
  {
    if a > 0 && b > 0 {
      OrCommutes(a / 2, b / 2);
    }
  }

  lemma U16IsExact(block: seq<Byte>, lo: nat)
    requires lo + 1 < |block|
    ensures U16(block, lo) == Wide(block[lo + 1], block[lo])
  {
    PowerTable();
    OrCommutes(block[lo], Shl(block[lo + 1], 8));
    OrIntoShifted(block[lo + 1], block[lo], 8);
  }

  // The value a two's-complement field of `bits` bits stands for.
  function TwosComplement(value: nat, bits: nat): int
    requires bits > 0
  {
    if value < Pow2(bits - 1) then value else value - Pow2(bits)
  }

  // Every 16-bit and 8-bit trim is the two's-complement value of its bytes.  H4 and
  // H5 are 12-bit fields put through the 16-bit conversion: they are never negative,
  // and agree with their own two's-complement value exactly when their top bit is 0.
  lemma CalibrationTrims(calib1: seq<Byte>, calib2: seq<Byte>)
    requires |calib1| == 26 && |calib2| == 7
    ensures var c := ParseCalibration(calib1, calib2);
            var h4 := Nibbled(calib2[3], calib2[4] % 16);
            var h5 := Nibbled(calib2[5], calib2[4] / 16);
            && c.T1 == Wide(calib1[1], calib1[0])
            && c.T2 == TwosComplement(Wide(calib1[3], calib1[2]), 16)
            && c.T3 == TwosComplement(Wide(calib1[5], calib1[4]), 16)
            && c.H2 == TwosComplement(Wide(calib2[1], calib2[0]), 16)
            && c.H6 == TwosComplement(calib2[6], 8)
            && c.H4 == h4 && c.H5 == h5
            && c.H1 == calib1[25] && c.H3 == calib2[2]
            && (c.H4 == TwosComplement(h4, 12) <==> calib2[3] < 128)
            && (c.H5 == TwosComplement(h5, 12) <==> calib2[5] < 128)
  {
    U16IsExact(calib1, 0);
    U16IsExact(calib1, 2);
    U16IsExact(calib1, 4);
    U16IsExact(calib2, 0);
    SignedWide(calib1[3], calib1[2]);
    SignedWide(calib1[5], calib1[4]);
    SignedWide(calib2[1], calib2[0]);
    SignedByte(calib2[6]);
    NibbleIsExact(calib2[3], calib2[4] % 16);
    NibbleIsExact(calib2[5], calib2[4] / 16);
    NibbledTrim(calib2[3], calib2[4] % 16);
    NibbledTrim(calib2[5], calib2[4] / 16);
  }

  lemma SignedWide(hi: Byte, lo: Byte)
    ensures ToSigned16(Wide(hi, lo)) == TwosComplement(Wide(hi, lo), 16)
  {
    PowerTable();
  }

  lemma SignedByte(value: Byte)
    ensures ToSigned8(value) == TwosComplement(value, 8)
  {
    PowerTable();
  }

  lemma NibbledTrim(hi: Byte, lo: nat)
    requires lo < 16
    ensures ToSigned16(Nibbled(hi, lo)) == Nibbled(hi, lo)
    ensures Nibbled(hi, lo) == TwosComplement(Nibbled(hi, lo), 12) <==> hi < 128
  {
    PowerTable();
  }

  // ---------------------------------------------------------------- compensation

  function TFine(adcT: int, c: Calibration): int {
    var var1 := ((adcT / 8 - c.T1 * 2) * c.T2) / 2048;
    var var2 := (((adcT / 16 - c.T1) * (adcT / 16 - c.T1)) / 4096 * c.T3) / 16384;
    var1 + var2
  }

  // Hundredths of a degree Celsius.
  function Temperature(adcT: int, c: Calibration): int {
    (TFine(adcT, c) * 5 + 128) / 256
  }

  // 1024ths of a percent, before the final division.
  function HumidityQ10(adcH: int, tFine: int, c: Calibration): int {
    var x := tFine - 76800;
    var a := (adcH * 16384 - c.H4 * 0x10_0000 - c.H5 * x + 16384) / 32768;
    var b := (((x * c.H6) / 1024) * ((x * c.H3) / 2048 + 32768)) / 1024 + 2097152;
    var y := (a * b * c.H2 + 8192) / 16384;
    var z := y - ((((y / 32768) * (y / 32768)) / 128) * c.H1) / 16;
    (if z < 0 then 0 else if z > 419430400 then 419430400 else z) / 4096
  }

  lemma MulBounds(a: int, b: int, m: int, n: int)
    requires -m <= a <= m && -n <= b <= n
    ensures -(m * n) <= a * b <= m * n
  {
    var x, y := if a < 0 then -a else a, if b < 0 then -b else b;
    assert x * y <= m * n by {
      assert x * y <= m * y;
      assert m * y <= m * n;
    }
    assert a * b == x * y || a * b == -(x * y);
  }

  // t_fine stays strictly inside 22 bits plus sign, whatever the registers hold.
  lemma TFineIsBounded(calib1: seq<Byte>, calib2: seq<Byte>, msb: Byte, lsb: Byte, xlsb: Byte)
    requires |calib1| == 26 && |calib2| == 7
    ensures -0x40_0000 < TFine(Raw20(msb, lsb, xlsb), ParseCalibration(calib1, calib2)) < 0x40_0000
  {
    RawIsExact(msb, lsb, xlsb);
    CalibrationTrims(calib1, calib2);
    PowerTable();
    var adcT, c := Raw20(msb, lsb, xlsb), ParseCalibration(calib1, calib2);
    assert -32768 <= c.T2 <= 32767 && -32768 <= c.T3 <= 32767;
    MulBounds(adcT / 8 - c.T1 * 2, c.T2, 131071, 32768);
    var d := adcT / 16 - c.T1;
    MulBounds(d, d, 65535, 65535);
    assert 0 <= d * d;
    MulBounds(d * d / 4096, c.T3, 1048544, 32768);
  }

  lemma HumidityIsAPercentage(adcH: int, tFine: int, c: Calibration)
    ensures 0 <= HumidityQ10(adcH, tFine, c) <= 100 * 1024
  {}

  lemma MulMonotone(a: int, b: int, k: int)
    requires a <= b && k >= 0
    ensures a * k <= b * k
  {}

  // A higher raw reading never gives a lower temperature, for non-negative T2 and T3
  // and readings from T1 up.
  lemma TemperatureIsMonotone(lo: int, hi: int, c: Calibration)
    requires c.T2 >= 0 && c.T3 >= 0 && lo <= hi && lo / 16 >= c.T1
    ensures Temperature(lo, c) <= Temperature(hi, c)
  {
    MulMonotone(lo / 8 - c.T1 * 2, hi / 8 - c.T1 * 2, c.T2);
    var d, e := lo / 16 - c.T1, hi / 16 - c.T1;
    MulMonotone(d, e, d);
    MulMonotone(d, e, e);
    MulMonotone(d * d / 4096, e * e / 4096, c.T3);
  }

  // The temperature is t_fine / 5120 degrees, rounded to the nearest hundredth.
  lemma TemperatureIsRounded(adcT: int, c: Calibration)
    ensures -128 <= 5 * TFine(adcT, c) - 256 * Temperature(adcT, c) < 128
  {}

  // The datasheet's formula without intermediate truncation, scaled by 2^34: with
  // d = adc - 16 * T1, t_fine is d * T2 / 2^14 + d^2 * T3 / 2^34.
  function ExactTFine(adcT: int, c: Calibration): int {
    var d := adcT - 16 * c.T1;
    0x10_0000 * (d * c.T2) + (d * d) * c.T3
  }

  lemma FloorError(a: int, n: int)
    requires n > 0
    ensures 0 <= a - n * (a / n) < n
  {}

  lemma FirstTermClose(adcT: int, c: Calibration)
    requires -32768 <= c.T2 <= 32767
    ensures var var1 := ((adcT / 8 - c.T1 * 2) * c.T2) / 2048;
            -16 * 16384 < 16384 * var1 - (adcT - 16 * c.T1) * c.T2 < 16 * 16384
  {
    var q, e := adcT / 8 - c.T1 * 2, adcT % 8;
    assert adcT - 16 * c.T1 == 8 * q + e;
    FloorError(q * c.T2, 2048);
    MulBounds(e, c.T2, 7, 32768);
    assert (8 * q + e) * c.T2 == 8 * (q * c.T2) + e * c.T2;
  }

  lemma SquareSplits(x: int, e: int)
    ensures (16 * x + e) * (16 * x + e) == 256 * (x * x) + 32 * (x * e) + e * e
  {}

  lemma SecondTermClose(adcT: int, c: Calibration)
    requires -65536 <= adcT / 16 - c.T1 <= 65536 && -32768 <= c.T3 <= 32767
    ensures var x, d := adcT / 16 - c.T1, adcT - 16 * c.T1;
            var var2 := (((x * x) / 4096) * c.T3) / 16384;
            -64 * 0x4_0000_0000 < 0x4_0000_0000 * var2 - (d * d) * c.T3 < 64 * 0x4_0000_0000
  {
    var x, e := adcT / 16 - c.T1, adcT % 16;
    var d := adcT - 16 * c.T1;
    var y := (x * x) / 4096;
    var f := x * x - 4096 * y;
    SquareSplits(x, e);
    FloorError(x * x, 4096);
    FloorError(y * c.T3, 16384);
    var rest := 256 * f + 32 * (x * e) + e * e;
    MulBounds(x, e, 65536, 15);
    MulBounds(e, e, 15, 15);
    MulBounds(rest, c.T3, 256 * 4096 + 32 * 65536 * 15 + 225, 32768);
    assert d == 16 * x + e && d * d == 0x10_0000 * y + rest;
    Distributes(0x10_0000 * y, rest, c.T3);
    assert (0x10_0000 * y) * c.T3 == 0x10_0000 * (y * c.T3);
  }

  lemma Distributes(a: int, b: int, k: int)
    ensures (a + b) * k == a * k + b * k
  {}

  // For all trims and readings the truncations together cost less than 80 counts of
  // t_fine, which is less than two hundredths of a degree.
  lemma TFineIsClose(adcT: int, c: Calibration)
    requires 0 <= adcT < 0x10_0000 && 0 <= c.T1 < 0x1_0000
    requires -32768 <= c.T2 <= 32767 && -32768 <= c.T3 <= 32767
    ensures -80 * 0x4_0000_0000 < 0x4_0000_0000 * TFine(adcT, c) - ExactTFine(adcT, c) < 80 * 0x4_0000_0000
  {
    FirstTermClose(adcT, c);
    SecondTermClose(adcT, c);
  }
}
