/** Arithmetic shared by several models. */
module Arithmetic {

  function Min(a: nat, b: nat): nat {
    if a <= b then a else b
  }
}
