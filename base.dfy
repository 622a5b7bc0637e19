/** Machine integer ranges, Rust's checked arithmetic on them, and the
    error kinds the account engine reports. */
module Base {

  const I64_MIN: int := -0x8000_0000_0000_0000
  const I64_MAX: int := 0x7FFF_FFFF_FFFF_FFFF
  const U64_MAX: int := 0xFFFF_FFFF_FFFF_FFFF
  const U32_MAX: int := 0xFFFF_FFFF
  const U16_MAX: int := 0xFFFF

  type i64 = x: int | I64_MIN <= x <= I64_MAX
  type u64 = x: int | 0 <= x <= U64_MAX
  type u32 = x: int | 0 <= x <= U32_MAX
  type u16 = x: int | 0 <= x <= U16_MAX

  datatype Option<T> = None | Some(value: T)

  /** One constructor per distinct error site of the engine. */
  datatype Error =
    // amount decoding
    | PrecisionNotSupported
    | InvalidNumber
    // account arithmetic
    | AvailableOverflow
    | HoldOverflow
    | InvalidUnhold
    | DepositOverflow
    | NegativeBalance
    | WithdrawOverflow
    // account store
    | AccountNotFound
    // transaction processor
    | TxNotFound
    | ClientMismatch
    | AlreadyDisputed
    | NotDisputed

  /** `i64::checked_add_unsigned`: adding a non-negative amount can only overflow upwards. */
  function CheckedAddUnsigned(x: i64, y: u64): (r: Option<i64>)
    ensures r.Some? <==> x + y <= I64_MAX
    ensures r.Some? ==> r.value == x + y
  {
    if x + y <= I64_MAX then Some(x + y) else None
  }

  /** `i64::checked_sub_unsigned`: subtracting a non-negative amount can only overflow downwards. */
  function CheckedSubUnsigned(x: i64, y: u64): (r: Option<i64>)
    ensures r.Some? <==> x - y >= I64_MIN
    ensures r.Some? ==> r.value == x - y
  {
    if x - y >= I64_MIN then Some(x - y) else None
  }

  /** `u64::checked_add`. */
  function CheckedAdd(x: u64, y: u64): (r: Option<u64>)
    ensures r.Some? <==> x + y <= U64_MAX
    ensures r.Some? ==> r.value == x + y
  {
    if x + y <= U64_MAX then Some(x + y) else None
  }

  /** `u64::checked_sub`: defined exactly when the subtrahend is not larger. */
  function CheckedSub(x: u64, y: u64): (r: Option<u64>)
    ensures r.Some? <==> y <= x
    ensures r.Some? ==> r.value == x - y
  {
    if y <= x then Some(x - y) else None
  }
}
