/** The fee estimate of libsol/compute_budget_instruction.c. */
module Fee {
  import opened Bytes

  const LAMPORTS_PER_SIGNATURE: nat := 5000
  const UNITS_PER_INSTRUCTION: nat := 200000
  const UNITS_PER_TRANSACTION: nat := 1400000
  const MICRO: nat := 1000000

  function Min(a: nat, b: nat): nat
  {
    if a < b then a else b
  }

  // Sizes have 32 bits on the device.
  function Units(limit: Option<u32>, instructions: u32): u32
  {
    if limit.Some? then limit.value
    else Min(instructions * UNITS_PER_INSTRUCTION % TWO_32, UNITS_PER_TRANSACTION)
  }

  /** calculate_max_fee: the product has 64 bits, the result 32. */
  function MaxFee(signatures: byte, limit: Option<u32>, price: Option<u64>, instructions: u32): u32
  {
    var perSignature := LAMPORTS_PER_SIGNATURE * signatures;
    if price.None? then perSignature
    else (perSignature + price.value * Units(limit, instructions) % TWO_64 / MICRO) % TWO_32
  }

  /** The fee in whole lamports, without any limit on the numbers. */
  function TrueFee(signatures: byte, limit: Option<u32>, price: Option<u64>, instructions: u32): nat
  {
    var units := if limit.Some? then limit.value else Min(instructions * 200_000, 1_400_000);
    5000 * signatures + (if price.None? then 0 else price.value * units / 1_000_000)
  }

  // Above this many instructions their number no longer fits a 32-bit size when multiplied.
  const MANY: nat := TWO_32 / UNITS_PER_INSTRUCTION

  lemma UnitsExact(limit: Option<u32>, instructions: u32)
    requires limit.Some? || instructions <= MANY
    ensures Units(limit, instructions) ==
      if limit.Some? then limit.value else Min(instructions * UNITS_PER_INSTRUCTION, UNITS_PER_TRANSACTION)
  {
  }

  lemma WrappedProduct(base: nat, product: nat)
    requires base <= LAMPORTS_PER_SIGNATURE * 255
    ensures (base + product % TWO_64 / MICRO) % TWO_32 == base + product / MICRO <==> base + product / MICRO < TWO_32
    ensures product < TWO_64 ==> (base + product % TWO_64 / MICRO) % TWO_32 == (base + product / MICRO) % TWO_32
  {
    if product >= TWO_64 {
      assert product / MICRO >= TWO_64 / MICRO > TWO_32;
    }
  }

  /** Both fees at a price, with the product of price and limit set apart. */
  lemma Priced(signatures: byte, limit: Option<u32>, price: u64, instructions: u32, product: nat)
    requires limit.Some? || instructions <= MANY
    requires product == price * Units(limit, instructions)
    ensures MaxFee(signatures, limit, Some(price), instructions) ==
      (LAMPORTS_PER_SIGNATURE * signatures + product % TWO_64 / MICRO) % TWO_32
    ensures TrueFee(signatures, limit, Some(price), instructions) ==
      LAMPORTS_PER_SIGNATURE * signatures + product / MICRO
  {
    UnitsExact(limit, instructions);
  }

  /** The estimate is the fee exactly when the fee has 32 bits, and its low 32 bits as long as the product has 64. */
  lemma MaxFeeExact(signatures: byte, limit: Option<u32>, price: Option<u64>, instructions: u32)
    requires limit.Some? || instructions <= MANY
    ensures var fee, exact := MaxFee(signatures, limit, price, instructions),
                              TrueFee(signatures, limit, price, instructions);
      && (fee == exact <==> exact < TWO_32)
      && (price.None? || price.value * Units(limit, instructions) < TWO_64 ==> fee == exact % TWO_32)
  {
    if price.Some? {
      var product := price.value * Units(limit, instructions);
      Priced(signatures, limit, price.value, instructions, product);
      WrappedProduct(LAMPORTS_PER_SIGNATURE * signatures, product);
    }
  }

  lemma Grows(p: nat, q: nat, u: nat, v: nat)
    requires p <= q && u <= v
    ensures p * u / MICRO <= q * v / MICRO
  {
    assert p * u <= q * u <= q * v;
  }

  /** A higher price or limit never lowers an estimate that is exact. */
  lemma MaxFeeMonotone(signatures: byte, limit: u32, price: u64, higherLimit: u32, higherPrice: u64, instructions: u32)
    requires limit <= higherLimit && price <= higherPrice
    requires TrueFee(signatures, Some(higherLimit), Some(higherPrice), instructions) < TWO_32
    ensures MaxFee(signatures, Some(limit), Some(price), instructions)
         <= MaxFee(signatures, Some(higherLimit), Some(higherPrice), instructions)
  {
    Grows(price, higherPrice, limit, higherLimit);
    MaxFeeExact(signatures, Some(limit), Some(price), instructions);
    MaxFeeExact(signatures, Some(higherLimit), Some(higherPrice), instructions);
  }
}
