/** Vocabulary shared by the firmware models: the host power states of
    board/power.h, an optional value and the C signed integer types. */
module Platform {

  /** `enum PowerState`, in declaration order. */
  datatype PowerState = Off | S5 | S3 | S0

  datatype Option<T> = None | Some(value: T)

  /** `int8_t` */
  newtype int8 = x: int | -0x80 <= x < 0x80

  /** `uint8_t` where the firmware does arithmetic on it. */
  newtype uint8 = x: int | 0 <= x < 0x100

  /** `uint16_t` */
  newtype uint16 = x: int | 0 <= x < 0x10000

  /** `int16_t`, also the width of `int` on the 8051 the firmware runs on. */
  newtype int16 = x: int | -0x8000 <= x < 0x8000
}
