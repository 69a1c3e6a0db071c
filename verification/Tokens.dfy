/** Token classes and spans (crates/graph-core/src/schema.rs), and the fixed-width
    integers the records use. */
module Tokens {
  const U32: nat := 0x1_0000_0000
  const U64: nat := 0x1_0000_0000_0000_0000

  type u32 = x: nat | x < U32
  type Byte = x: nat | x < 256

  datatype TokenClass = Identifier | Keyword | Literal | Operator | Punctuation | Comment | Other

  datatype Span = Span(start: u32, end: u32, startLine: u32, startCol: u32, endLine: u32, endCol: u32)

  /** u32 addition and subtraction wrap. */
  function Add32(a: nat, b: nat): u32 {
    (a + b) % U32
  }

  function Sub32(a: u32, b: u32): u32 {
    if a >= b then a - b else a + U32 - b
  }

  lemma SubThenAdd(a: u32, b: u32)
    ensures Add32(b, Sub32(a, b)) == a
  {
  }
}
