// Characters as C sees them.
module Chars {

  const NUL: char := '\0'

  // Whether `char` is signed, so that characters above 127 compare as negative. This depends on the
  // platform; nothing is assumed about it.
  const SIGNED: bool
}
