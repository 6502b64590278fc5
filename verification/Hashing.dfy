/** SHA-256 as an unknown function: only the shape of its digest is used. */
module Hashing {
  import opened Numerals

  type Hash = h: seq<nat> -> seq<nat> | forall m :: |h(m)| == 32 && Below(256, h(m)) witness m => Zeros(32)
}
