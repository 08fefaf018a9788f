/** What every stream, file and buffer of the model is made of. */
module Bytes {

  type Byte = b: int | 0 <= b < 256
}
