/** Every abridged key looks like another one. */
module ShortKeys {
  import opened Bytes
  import opened Radix
  import opened Base58

  // ---- Powers of 256 between powers of 58 ----

  const SEVEN: nat := 2_207_984_167_552

  lemma SevenIs()
    ensures Pow(58, 7) == SEVEN
  {
  }

  /** Farther than two steps from any multiple of `p`. */
  predicate Away(x: nat, p: nat)
    requires p > 0
  {
    2 * SEVEN <= x % p <= p - 2 * SEVEN
  }

  lemma AwayBy(x: nat, q: nat, p: nat, r: nat)
    requires x == q * p + r && 2 * SEVEN <= r <= p - 2 * SEVEN && r < p
    ensures p > 0 && Away(x, p)
  {
    DivModUnique(q, p, r);
  }

  /** The number of digits of 256^e. */
  function Letters(e: nat): nat
    requires 25 <= e <= 32
  {
    if e <= 27 then e + 10 else if e <= 30 then e + 11 else e + 12
  }

  /** 256^e lies away from the powers of 58 next to it, and from the multiples of two lower ones. */
  predicate Apart(e: nat)
    requires 25 <= e <= 32
  {
    var l, x := Letters(e), Pow(256, e);
    && Pow(58, l - 1) + SEVEN <= x && x + SEVEN <= Pow(58, l)
    && (e > 25 ==> Pow(58, 25 - e + l) > 0 && Away(x, Pow(58, 25 - e + l)))
    && (e < 32 ==> Pow(58, 24 - e + l) > 0 && Away(x, Pow(58, 24 - e + l)))
  }


  lemma LowPowers256()
    ensures Pow(256, 25) == 1_606_938_044_258_990_275_541_962_092_341_162_602_522_202_993_782_792_835_301_376
    ensures Pow(256, 26) == 411_376_139_330_301_510_538_742_295_639_337_626_245_683_966_408_394_965_837_152_256
    ensures Pow(256, 27) == 105_312_291_668_557_186_697_918_027_683_670_432_318_895_095_400_549_111_254_310_977_536
    ensures Pow(256, 28) == 26_959_946_667_150_639_794_667_015_087_019_630_673_637_144_422_540_572_481_103_610_249_216
  {
    assert Pow(256, 4) == 4_294_967_296;
    assert Pow(256, 8) == 18_446_744_073_709_551_616;
    assert Pow(256, 12) == 79_228_162_514_264_337_593_543_950_336;
    assert Pow(256, 16) == 340_282_366_920_938_463_463_374_607_431_768_211_456;
    assert Pow(256, 20) == 1_461_501_637_330_902_918_203_684_832_716_283_019_655_932_542_976;
    assert Pow(256, 24) == 6_277_101_735_386_680_763_835_789_423_207_666_416_102_355_444_464_034_512_896;
    assert Pow(256, 28) == 26_959_946_667_150_639_794_667_015_087_019_630_673_637_144_422_540_572_481_103_610_249_216;
  }

  lemma HighPowers256()
    ensures Pow(256, 29) ==
      6_901_746_346_790_563_787_434_755_862_277_025_452_451_108_972_170_386_555_162_524_223_799_296
    ensures Pow(256, 30) ==
      1_766_847_064_778_384_329_583_297_500_742_918_515_827_483_896_875_618_958_121_606_201_292_619_776
    ensures Pow(256, 31) ==
      452_312_848_583_266_388_373_324_160_190_187_140_051_835_877_600_158_453_279_131_187_530_910_662_656
    ensures Pow(256, 32) ==
      115_792_089_237_316_195_423_570_985_008_687_907_853_269_984_665_640_564_039_457_584_007_913_129_639_936
  {
    LowPowers256();
  }

  lemma LowPowers58()
    ensures Pow(58, 34) == 904_798_310_844_700_775_313_327_215_140_493_940_623_303_545_877_497_699_631_104
    ensures Pow(58, 35) == 52_478_302_028_992_644_968_172_978_478_148_648_556_151_605_660_894_866_578_604_032
    ensures Pow(58, 36) == 3_043_741_517_681_573_408_154_032_751_732_621_616_256_793_128_331_902_261_559_033_856
    ensures Pow(58, 37) == 176_537_008_025_531_257_672_933_899_600_492_053_742_894_001_443_250_331_170_423_963_648
  {
    assert Pow(58, 4) == 11_316_496;
    assert Pow(58, 8) == 128_063_081_718_016;
    assert Pow(58, 12) == 1_449_225_352_009_601_191_936;
    assert Pow(58, 16) == 16_400_152_899_115_243_850_138_976_256;
    assert Pow(58, 20) == 185_592_264_682_226_060_569_122_324_245_118_976;
    assert Pow(58, 24) == 2_100_254_120_907_352_485_526_230_505_830_591_911_428_096;
    assert Pow(58, 28) == 23_767_517_358_231_570_773_047_645_414_309_870_043_308_402_671_616;
    assert Pow(58, 32) == 268_965_015_114_358_137_726_910_587_140_455_987_105_619_365_599_731_777_536;
    assert Pow(58, 36) == 3_043_741_517_681_573_408_154_032_751_732_621_616_256_793_128_331_902_261_559_033_856;
  }

  lemma HighPowers58()
    ensures Pow(58, 38) == 10_239_146_465_480_812_945_030_166_176_828_539_117_087_852_083_708_519_207_884_589_891_584
    ensures Pow(58, 39) == 593_870_494_997_887_150_811_749_638_256_055_268_791_095_420_855_094_114_057_306_213_711_872
    ensures Pow(58, 40) ==
      34_444_488_709_877_454_747_081_479_018_851_205_589_883_534_409_595_458_615_323_760_395_288_576
    ensures Pow(58, 41) ==
      1_997_780_345_172_892_375_330_725_783_093_369_924_213_244_995_756_536_599_688_778_102_926_737_408
    ensures Pow(58, 42) ==
      115_871_260_020_027_757_769_182_095_419_415_455_604_368_209_753_879_122_781_949_129_969_750_769_664
    ensures Pow(58, 43) ==
      6_720_533_081_161_609_950_612_561_534_326_096_425_053_356_165_724_989_121_353_049_538_245_544_640_512
    ensures Pow(58, 44) ==
      389_790_918_707_373_377_135_528_568_990_913_592_653_094_657_612_049_369_038_476_873_218_241_589_149_696
  {
    LowPowers58();
    assert Pow(58, 40) ==
      34_444_488_709_877_454_747_081_479_018_851_205_589_883_534_409_595_458_615_323_760_395_288_576;
  }

  lemma Between25()
    ensures Apart(25)
  {
    LowPowers256();
    LowPowers58();
    HighPowers58();
    AwayBy(Pow(256, 25), 1, Pow(58, 34),
      702_139_733_414_289_500_228_634_877_200_668_661_898_899_447_905_295_135_670_272);
  }

  lemma Between26()
    ensures Apart(26)
  {
    LowPowers256();
    LowPowers58();
    HighPowers58();
    AwayBy(Pow(256, 26), 7, Pow(58, 35),
      44_028_025_127_352_995_761_531_446_292_297_086_352_622_726_782_130_899_786_924_032);
    AwayBy(Pow(256, 26), 454, Pow(58, 34),
      597_706_206_807_358_546_491_739_965_553_377_202_704_156_580_011_010_204_631_040);
  }

  lemma Between27()
    ensures Apart(27)
  {
    LowPowers256();
    LowPowers58();
    HighPowers58();
    AwayBy(Pow(256, 27), 2_006, Pow(58, 35),
      40_817_798_397_940_891_763_032_856_504_243_315_254_974_444_794_008_897_631_289_344);
    AwayBy(Pow(256, 27), 116_393, Pow(58, 34),
      101_874_409_929_356_873_933_131_822_921_087_926_925_785_229_521_501_147_889_664);
  }

  lemma Between28()
    ensures Apart(28)
  {
    LowPowers256();
    LowPowers58();
    HighPowers58();
    AwayBy(Pow(256, 28), 8_857, Pow(58, 36),
      1_528_045_044_944_118_646_747_004_923_801_018_450_727_684_904_914_150_475_247_386_624);
    AwayBy(Pow(256, 28), 513_735, Pow(58, 35),
      6_174_286_103_331_942_669_988_547_934_707_642_599_288_340_748_199_344_467_869_696);
  }

  lemma Between29()
    ensures Apart(29)
  {
    HighPowers256();
    LowPowers58();
    HighPowers58();
    AwayBy(Pow(256, 29), 2_267_520, Pow(58, 36),
      1_580_617_242_452_977_323_517_068_271_285_156_505_417_815_231_539_032_183_774_642_176);
    AwayBy(Pow(256, 29), 131_516_190, Pow(58, 35),
      6_268_181_583_197_974_471_878_916_940_697_048_733_267_061_712_186_186_416_521_216);
  }

  lemma Between30()
    ensures Apart(30)
  {
    HighPowers256();
    LowPowers58();
    HighPowers58();
    AwayBy(Pow(256, 30), 580_485_252, Pow(58, 36),
      2_864_133_733_994_504_944_037_154_220_294_012_041_064_006_334_181_140_520_515_928_064);
    AwayBy(Pow(256, 30), 33_668_144_670, Pow(58, 35),
      30_305_424_428_902_115_755_813_382_473_985_019_031_819_628_492_817_725_271_310_336);
  }

  lemma Between31()
    ensures Apart(31)
  {
    HighPowers256();
    LowPowers58();
    HighPowers58();
    AwayBy(Pow(256, 31), 2_562_141_806, Pow(58, 37),
      14_895_237_729_741_941_349_159_750_986_368_381_075_782_443_264_043_039_524_145_594_368);
    AwayBy(Pow(256, 31), 148_604_224_752, Pow(58, 36),
      2_720_271_659_015_647_716_543_619_979_437_894_610_755_270_750_715_430_477_909_458_944);
  }

  lemma Between32()
    ensures Apart(32)
  {
    HighPowers256();
    LowPowers58();
    HighPowers58();
    AwayBy(Pow(256, 32), 655_908_302_357, Pow(58, 37),
      105_903_690_277_780_574_253_284_360_899_972_426_799_531_445_286_761_163_602_368_921_600);
  }

  /** No power of 256 that bounds a long key lies close to a power of 58, or to a multiple of one. */
  lemma Between(e: nat)
    requires 25 <= e <= 32
    ensures Apart(e)
  {
    match e
    case 25 => Between25();
    case 26 => Between26();
    case 27 => Between27();
    case 28 => Between28();
    case 29 => Between29();
    case 30 => Between30();
    case 31 => Between31();
    case 32 => Between32();
  }

  // ---- A neighbour with the same ends ----

  lemma NotLow(v: nat, p: nat, lo: nat)
    requires p > 2 * SEVEN && Away(lo, p) && lo <= v
    ensures v % p < p - SEVEN || lo + SEVEN <= v
  {
    if v < lo + SEVEN && v % p >= p - SEVEN {
      var q, r := v / p, v % p - (v - lo);
      assert lo == q * p + r;
      DivModUnique(q, p, r);
    }
  }

  lemma NotHigh(v: nat, p: nat, hi: nat)
    requires p > 2 * SEVEN && Away(hi, p) && v < hi
    ensures SEVEN <= v % p || v + SEVEN < hi
  {
    if hi <= v + SEVEN && v % p < SEVEN {
      var q, r := v / p, v % p + (hi - v);
      assert hi == q * p + r;
      DivModUnique(q, p, r);
    }
  }

  lemma StepUp(v: nat, p: nat)
    requires p > 0 && v % p + SEVEN < p
    ensures (v + SEVEN) / p == v / p && (v + SEVEN) % SEVEN == v % SEVEN
  {
    assert v + SEVEN == v / p * p + (v % p + SEVEN);
    DivModUnique(v / p, p, v % p + SEVEN);
  }

  lemma StepDown(v: nat, p: nat)
    requires p > 0 && SEVEN <= v % p
    ensures v >= SEVEN && (v - SEVEN) / p == v / p && (v - SEVEN) % SEVEN == v % SEVEN
  {
    assert v == v / p * p + v % p;
    assert v - SEVEN == v / p * p + (v % p - SEVEN);
    DivModUnique(v / p, p, v % p - SEVEN);
  }

  /** One step up or one step down stays between the bounds and changes neither end. */
  lemma Neighbour(v: nat, p: nat, lo: nat, hi: nat) returns (w: nat)
    requires lo <= v < hi && lo + 2 * SEVEN < hi && p > 2 * SEVEN
    requires v % p < p - SEVEN || lo + SEVEN <= v
    requires SEVEN <= v % p || v + SEVEN < hi
    ensures w != v && lo <= w < hi && w / p == v / p && w % SEVEN == v % SEVEN
  {
    if v % p < p - SEVEN && v + SEVEN < hi {
      StepUp(v, p);
      w := v + SEVEN;
    } else {
      StepDown(v, p);
      w := v - SEVEN;
    }
  }

  // ---- The digits of a key ----

  lemma {:induction false} Smaller(n: nat)
    ensures Pow(58, n) <= Pow(256, n)
  {
    if n > 0 {
      Smaller(n - 1);
      MulMono(Pow(58, n - 1), Pow(256, n - 1), 58);
    }
  }

  /** A number without zero bytes in front has just as many bytes. */
  lemma BytesRange(rest: seq<byte>)
    requires rest != [] && rest[0] > 0
    ensures Pow(256, |rest| - 1) <= Value(rest, 256) < Pow(256, |rest|)
  {
    ValueBound(rest, 256);
    DigitsValue(rest, 256);
    DigitsLength(Value(rest, 256), 256, |rest| - 1);
  }

  lemma KeyRange(key: key32)
    requires ZeroCount(key) < 32
    ensures Pow(256, 31 - ZeroCount(key)) <= Value(key, 256) < Pow(256, 32 - ZeroCount(key))
  {
    SplitZeros(key);
    BytesRange(key[ZeroCount(key)..]);
  }

  lemma KeyText(key: key32)
    ensures Digits58(key) == Zeros(ZeroCount(key)) + Digits(Value(key, 256), 58)
    ensures Value(Digits58(key), 58) == Value(key, 256)
  {
    SplitZeros(key);
    LeadingZeros(ZeroCount(key), Digits(Value(key, 256), 58), 58);
    ValueDigits(Value(key, 256), 58);
  }

  /** The number behind the zero bytes has just as many bytes, and its digits come behind as many zeros. */
  lemma KeyDigits(key: key32)
    ensures var z, v := ZeroCount(key), Value(key, 256);
      && Digits58(key) == Zeros(z) + Digits(v, 58) && Value(Digits58(key), 58) == v
      && (z < 32 ==> Pow(256, 31 - z) <= v < Pow(256, 32 - z))
  {
    KeyText(key);
    if ZeroCount(key) < 32 {
      KeyRange(key);
    }
  }

  lemma MoreDigits(v: nat, n: nat)
    requires Pow(256, n) <= v
    ensures |Digits(v, 58)| > n
  {
    Smaller(n);
    DigitsLength(v, 58, n);
  }

  lemma ManyDigits(key: key32)
    ensures |Digits58(key)| >= 32
  {
    var z := ZeroCount(key);
    KeyDigits(key);
    if z < 32 {
      MoreDigits(Value(key, 256), 31 - z);
    }
  }

  /** The key that so many zero bytes and a number make. */
  lemma KeyFrom(z: nat, w: nat) returns (key: key32)
    requires z < 32 && Pow(256, 31 - z) <= w < Pow(256, 32 - z)
    ensures ZeroCount(key) == z && Value(key, 256) == w
  {
    NumberBytes(w, 31 - z);
    ValueDigits(w, 256);
    key := KeyOf(z, Digits(w, 256));
  }

  lemma NumberBytes(w: nat, n: nat)
    requires Pow(256, n) <= w < Pow(256, n + 1)
    ensures var rest := Digits(w, 256);
      |rest| == n + 1 && AreDigits(rest, 256) && rest[0] > 0
  {
    PowPos(256, n);
    DigitsLength(w, 256, n);
    DigitsLength(w, 256, n + 1);
    DigitsCanonical(w, 256);
  }

  lemma KeyOf(z: nat, rest: seq<nat>) returns (key: key32)
    requires z < 32 == z + |rest| && AreDigits(rest, 256) && rest[0] > 0
    ensures ZeroCount(key) == z && Value(key, 256) == Value(rest, 256)
  {
    ZeroCountOf(z, rest);
    LeadingZeros(z, rest, 256);
    var s: bytes := Zeros(z) + rest;
    key := s;
  }

  // ---- The two ends ----

  /** The first and the last seven of many. */
  predicate SameEnds(a: seq<nat>, b: seq<nat>)
  {
    && |a| > 16 && |b| > 16
    && a[..7] == b[..7] && a[|a| - 7..] == b[|b| - 7..]
  }

  lemma LastSeven(ds: seq<nat>)
    requires AreDigits(ds, 58) && |ds| >= 7
    ensures Value(ds[|ds| - 7..], 58) == Value(ds, 58) % SEVEN
  {
    var front, back := ds[..|ds| - 7], ds[|ds| - 7..];
    assert ds == front + back;
    LastPart(front, back, Pow(58, 7));
    SevenIs();
  }

  lemma LastPart(front: seq<nat>, back: seq<nat>, p: nat)
    requires AreDigits(front, 58) && AreDigits(back, 58) && p == Pow(58, |back|)
    ensures p > 0 && Value(front + back, 58) % p == Value(back, 58)
    ensures Value(front + back, 58) / p == Value(front, 58)
  {
    ValueConcat(front, back, 58);
    ValueBound(back, 58);
    DivModUnique(Value(front, 58), p, Value(back, 58));
  }

  lemma FirstSeven(ds: seq<nat>, k: nat)
    requires AreDigits(ds, 58) && |ds| == 7 + k
    ensures Pow(58, k) > 0 && Value(ds[..7], 58) == Value(ds, 58) / Pow(58, k)
  {
    var front, back := ds[..7], ds[7..];
    assert ds == front + back;
    LastPart(front, back, Pow(58, k));
  }

  lemma LastsAgree(a: seq<nat>, b: seq<nat>)
    requires AreDigits(a, 58) && AreDigits(b, 58) && |a| >= 7 && |b| >= 7
    requires Value(a, 58) % SEVEN == Value(b, 58) % SEVEN
    ensures a[|a| - 7..] == b[|b| - 7..]
  {
    LastSeven(a);
    LastSeven(b);
    ValueInjective(a[|a| - 7..], b[|b| - 7..], 58);
  }

  lemma FirstsAgree(a: seq<nat>, b: seq<nat>, k: nat)
    requires AreDigits(a, 58) && AreDigits(b, 58) && |a| == |b| == 7 + k && Pow(58, k) > 0
    requires Value(a, 58) / Pow(58, k) == Value(b, 58) / Pow(58, k)
    ensures a[..7] == b[..7]
  {
    FirstSeven(a, k);
    FirstSeven(b, k);
    ValueInjective(a[..7], b[..7], 58);
  }

  // ---- Keys with seven zero bytes in front ----

  lemma SixBytes(w: nat)
    requires w < 3 * SEVEN
    ensures w < Pow(256, 6)
  {
    assert Pow(256, 6) == 281_474_976_710_656;
  }

  /** The key with a small number. */
  lemma SmallKey(w: nat) returns (key: key32)
    requires 0 < w < 3 * SEVEN
    ensures ZeroCount(key) >= 26 && Value(key, 256) == w
  {
    SixBytes(w);
    var n := |Digits(w, 256)|;
    DigitsLength(w, 256, 6);
    DigitsLength(w, 256, n);
    DigitsLength(w, 256, n - 1);
    key := KeyFrom(32 - n, w);
  }

  lemma ZerosFirst(key: key32)
    requires ZeroCount(key) >= 7
    ensures Digits58(key)[..7] == Zeros(7)
  {
    KeyDigits(key);
  }

  /** Another small number with the same last digits. */
  function OtherSmall(v: nat): (w: nat)
    ensures 0 < w < 3 * SEVEN && w != v && w % SEVEN == v % SEVEN
  {
    var r := v % SEVEN;
    if r > 0 && v != r then r else if v != r + SEVEN then r + SEVEN else 2 * SEVEN
  }

  lemma ZerosTwin(key: key32) returns (other: key32)
    requires ZeroCount(key) >= 7
    ensures other != key && SameEnds(Digits58(key), Digits58(other))
  {
    other := SmallKey(OtherSmall(Value(key, 256)));
    ZerosFirst(key);
    ZerosFirst(other);
    ManyDigits(key);
    ManyDigits(other);
    KeyDigits(key);
    KeyDigits(other);
    LastsAgree(Digits58(key), Digits58(other));
  }

  // ---- All other keys ----

  lemma {:induction false} Growing(b: nat, m: nat, n: nat)
    requires b >= 1 && m <= n
    ensures Pow(b, m) <= Pow(b, n)
    decreases n - m
  {
    if m < n {
      Growing(b, m, n - 1);
      MulMono(1, b, Pow(b, n - 1));
    }
  }

  lemma Wide(n: nat)
    requires n >= 25
    ensures Pow(256, n - 1) + 2 * SEVEN < Pow(256, n)
  {
    Growing(256, 6, n - 1);
    SixBytes(0);
    assert Pow(256, 6) == 281_474_976_710_656;
  }

  lemma LongPower(k: nat)
    requires k >= 8
    ensures Pow(58, k) > 2 * SEVEN
  {
    Growing(58, 8, k);
    SevenIs();
  }

  /** A number close to a power of 256 has as many digits as that. */
  lemma DigitsNear(v: nat, e: nat)
    requires 25 <= e <= 32 && Pow(256, e) <= v + SEVEN && v < Pow(256, e) + SEVEN
    ensures |Digits(v, 58)| == Letters(e)
  {
    NearBounds(v, e);
    LengthFrom(v, Letters(e));
  }

  lemma NearBounds(v: nat, e: nat)
    requires 25 <= e <= 32 && Pow(256, e) <= v + SEVEN && v < Pow(256, e) + SEVEN
    ensures Pow(58, Letters(e) - 1) <= v < Pow(58, Letters(e))
  {
    Between(e);
  }

  lemma LengthFrom(w: nat, l: nat)
    requires l > 0 && Pow(58, l - 1) <= w < Pow(58, l)
    ensures |Digits(w, 58)| == l
  {
    DigitsLength(w, 58, l);
    DigitsLength(w, 58, l - 1);
  }

  lemma LengthBounds(v: nat)
    requires |Digits(v, 58)| > 0
    ensures Pow(58, |Digits(v, 58)| - 1) <= v < Pow(58, |Digits(v, 58)|)
  {
    DigitsLength(v, 58, |Digits(v, 58)|);
    DigitsLength(v, 58, |Digits(v, 58)| - 1);
  }

  lemma SameBounds(v: nat, w: nat, k: nat, l: nat)
    requires k < l && Pow(58, k) > 0 && w / Pow(58, k) == v / Pow(58, k) && Pow(58, l - 1) <= v < Pow(58, l)
    ensures Pow(58, l - 1) <= w < Pow(58, l)
  {
    SameBelow(v, w, k, l);
    SameBelow(v, w, k, l - 1);
  }

  /** Changing the middle digits by one does not take a number out of its range of bytes both up and down. */
  lemma RoomFor(v: nat, n: nat, p: nat)
    requires 26 <= n <= 32 && Pow(256, n - 1) <= v < Pow(256, n)
    requires 25 - n + |Digits(v, 58)| >= 8 && p == Pow(58, 25 - n + |Digits(v, 58)|) && p > 2 * SEVEN
    ensures v % p < p - SEVEN || Pow(256, n - 1) + SEVEN <= v
    ensures SEVEN <= v % p || v + SEVEN < Pow(256, n)
  {
    Between(n - 1);
    Between(n);
    if v < Pow(256, n - 1) + SEVEN {
      DigitsNear(v, n - 1);
      NotLow(v, p, Pow(256, n - 1));
    }
    if Pow(256, n) <= v + SEVEN {
      DigitsNear(v, n);
      NotHigh(v, p, Pow(256, n));
    }
  }

  /** With the same first digits, behind which there are `k` more, numbers have equally many. */
  lemma SameLength(v: nat, w: nat, k: nat)
    requires k < |Digits(v, 58)| && Pow(58, k) > 0 && w / Pow(58, k) == v / Pow(58, k)
    ensures |Digits(w, 58)| == |Digits(v, 58)|
  {
    LengthBounds(v);
    SameBounds(v, w, k, |Digits(v, 58)|);
    LengthFrom(w, |Digits(v, 58)|);
  }

  lemma SameBelow(v: nat, w: nat, k: nat, l: nat)
    requires k <= l && Pow(58, k) > 0 && w / Pow(58, k) == v / Pow(58, k)
    ensures v < Pow(58, l) <==> w < Pow(58, l)
  {
    PowAdd(58, k, l - k);
    BelowMultiple(v, Pow(58, k), Pow(58, l - k));
    BelowMultiple(w, Pow(58, k), Pow(58, l - k));
  }

  lemma BelowMultiple(v: nat, p: nat, m: nat)
    requires p > 0
    ensures v < p * m <==> v / p < m
  {
    var q, r := v / p, v % p;
    assert v == q * p + r;
    if q < m {
      MulMono(q + 1, m, p);
    } else {
      MulMono(m, q, p);
    }
  }

  lemma LongNeighbour(z: nat, v: nat, k: nat) returns (w: nat)
    requires z < 7 && Pow(256, 31 - z) <= v < Pow(256, 32 - z)
    requires z + |Digits(v, 58)| == 7 + k && k >= 25
    ensures w != v && Pow(256, 31 - z) <= w < Pow(256, 32 - z) && |Digits(w, 58)| == |Digits(v, 58)|
    ensures Pow(58, k) > 0 && w / Pow(58, k) == v / Pow(58, k) && w % SEVEN == v % SEVEN
  {
    LongPower(k);
    Wide(32 - z);
    RoomFor(v, 32 - z, Pow(58, k));
    w := Neighbour(v, Pow(58, k), Pow(256, 31 - z), Pow(256, 32 - z));
    SameLength(v, w, k);
  }

  lemma LongTwin(key: key32) returns (other: key32)
    requires ZeroCount(key) < 7
    ensures other != key && SameEnds(Digits58(key), Digits58(other))
  {
    var z, v := ZeroCount(key), Value(key, 256);
    var k := z + |Digits(v, 58)| - 7;
    KeyDigits(key);
    ManyDigits(key);
    var w := LongNeighbour(z, v, k);
    other := KeyFrom(z, w);
    KeyDigits(other);
    FirstsAgree(Digits58(key), Digits58(other), k);
    LastsAgree(Digits58(key), Digits58(other));
  }

  /** Every key has the first seven and the last seven characters in common with another one. */
  lemma KeyTwin(key: key32) returns (other: key32)
    ensures other != key && SameEnds(Digits58(key), Digits58(other))
  {
    if ZeroCount(key) >= 7 {
      other := ZerosTwin(key);
    } else {
      other := LongTwin(key);
    }
  }
}
