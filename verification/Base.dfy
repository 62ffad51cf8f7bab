/** Types shared by the models. */
module Base {

  datatype Option<+T> = None | Some(value: T)

  type byte = x: int | 0 <= x < 256
  type int64 = x: int | -0x8000_0000_0000_0000 <= x < 0x8000_0000_0000_0000
  type uint64 = x: int | 0 <= x < 0x1_0000_0000_0000_0000

  /** The int64 an unbounded result wraps around to. */
  function Wrap64(x: int): int64 {
    (x + 0x8000_0000_0000_0000) % 0x1_0000_0000_0000_0000 - 0x8000_0000_0000_0000
  }

  /** How a database write came back: without effect, done, or done with the reply lost. */
  datatype TxResult = RolledBack | Committed | CommittedUnseen {
    predicate Applied() { !RolledBack? }
    predicate Error() { !Committed? }
  }
}
