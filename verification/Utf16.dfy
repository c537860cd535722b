/** JavaScript strings: sequences of UTF-16 code units. */
module Utf16 {

  type Unit = u: int | 0 <= u < 0x10000

  type Units = seq<Unit>
}
