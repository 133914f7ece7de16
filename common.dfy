/** Definitions shared by every module of the camera pipeline model:
    the ESP-IDF status codes, 32-bit unsigned arithmetic, and an Option type. */
module Common {

  datatype Option<T> = None | Some(value: T)

  /** The `esp_err_t` values the modelled code returns. */
  datatype Status =
    | Ok               // ESP_OK
    | Fail             // ESP_FAIL
    | ErrNoMem         // ESP_ERR_NO_MEM
    | ErrInvalidArg    // ESP_ERR_INVALID_ARG
    | ErrInvalidState  // ESP_ERR_INVALID_STATE
    | ErrNotFound      // ESP_ERR_NOT_FOUND
    | ErrNotSupported  // ESP_ERR_NOT_SUPPORTED

  const TWO_POW_32: int := 0x1_0000_0000

  /** A `uint32_t`. */
  type U32 = x: int | 0 <= x < TWO_POW_32

  /** A `uint8_t`. */
  type U8 = x: int | 0 <= x < 0x100

  /** `x + y` in `uint32_t` arithmetic (wraps around). */
  function Add32(x: U32, y: U32): (r: U32)
    ensures x + y < TWO_POW_32 ==> r == x + y
    ensures x + y >= TWO_POW_32 ==> r == x + y - TWO_POW_32
  {
    (x + y) % TWO_POW_32
  }

  /** `x++` on a `uint32_t` counter. */
  function Inc32(x: U32): (r: U32)
    ensures x < TWO_POW_32 - 1 ==> r == x + 1
    ensures x == TWO_POW_32 - 1 ==> r == 0
  {
    Add32(x, 1)
  }

  /** `x * y` in `uint32_t` arithmetic (wraps around). */
  function Mul32(x: U32, y: U32): (r: U32)
    ensures x * y < TWO_POW_32 ==> r == x * y
  {
    var p := x * y;
    if p < TWO_POW_32 then p else p % TWO_POW_32
  }

  /** `std::max<uint32_t>(1, x)`, the clamp applied to GOP sizes. */
  function AtLeastOne(x: U32): (r: U32)
    ensures r >= 1
    ensures x >= 1 ==> r == x
    ensures x == 0 ==> r == 1
  {
    if x < 1 then 1 else x
  }
}
