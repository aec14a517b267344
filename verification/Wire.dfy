// Value types shared by every part of the exchange stack.
module Wire {
  type byte = x: int | 0 <= x < 256
  type word = x: int | 0 <= x < 0x10000

  datatype Option<+T> = None | Some(value: T)

  function Min(a: nat, b: nat): nat { if a < b then a else b }
  function Max(a: nat, b: nat): nat { if a < b then b else a }
}
