module KvMemory {
  // A slot's KV memory as the list of decoded cells: which token at which position.

  import opened Basics

  datatype Cell = Cell(pos: int, token: Token)

  /** The memory left by decoding `tokens` at positions 0, 1, 2, ... */
  function Cells(tokens: seq<Token>): (kv: seq<Cell>)
    ensures |kv| == |tokens|
  {
    seq(|tokens|, i requires 0 <= i < |tokens| => Cell(i, tokens[i]))
  }

  lemma CellsAppend(a: seq<Token>, b: seq<Token>)
    ensures Cells(a + b) == Cells(a) + seq(|b|, i requires 0 <= i < |b| => Cell(|a| + i, b[i]))
  {
  }
}
