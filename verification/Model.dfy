/** The indexed data types and the ledger effect of operations. */
module Model {
  import opened Prelude
  import opened Bytes

  /** A Flow address. */
  type Address = s: ByteString | |s| == 8 witness [0, 0, 0, 0, 0, 0, 0, 0]

  const ZERO_ADDRESS: Address := [0, 0, 0, 0, 0, 0, 0, 0]

  datatype MoveKind = Fee | Transfer | ProxyTransfer

  /** An absent sender or receiver is the empty byte slice of the protobuf message. */
  datatype Operation =
    | CreateAccount(account: Address, proxyPublicKey: ByteString)
    | Move(kind: MoveKind, sender: Option<Address>, amount: uint64, receiver: Option<Address>)

  datatype IndexedTransaction = IndexedTransaction(hash: ByteString, operations: seq<Operation>, failed: bool)

  datatype IndexedBlock = IndexedBlock(timestamp: uint64, transactions: seq<IndexedTransaction>)

  datatype BlockMeta = BlockMeta(hash: ByteString, height: uint64, parent: ByteString, timestamp: uint64)

  /** A seal in a block: the result it commits another block to. */
  datatype Seal = Seal(blockId: ByteString, resultId: ByteString)

  // ---- Ledger effect ----

  function OpEffect(op: Operation, a: Address): int {
    match op
    case CreateAccount(_, _) => 0
    case Move(_, sender, amount, receiver) =>
      (if receiver == Some(a) then amount else 0) - (if sender == Some(a) then amount else 0)
  }

  predicate OpTouches(op: Operation, a: Address) {
    match op
    case CreateAccount(account, _) => account == a
    case Move(_, sender, _, receiver) => sender == Some(a) || receiver == Some(a)
  }

  predicate OpCreatesProxy(op: Operation, a: Address) {
    op.CreateAccount? && op.account == a && |op.proxyPublicKey| > 0
  }

  /** The unbounded net change the operations make to account a. */
  function Effect(ops: seq<Operation>, a: Address): int {
    if ops == [] then 0 else Effect(ops[..|ops| - 1], a) + OpEffect(ops[|ops| - 1], a)
  }

  predicate Touches(ops: seq<Operation>, a: Address) {
    exists op :: op in ops && OpTouches(op, a)
  }

  predicate CreatesProxy(ops: seq<Operation>, a: Address) {
    exists op :: op in ops && OpCreatesProxy(op, a)
  }

  /** All operations of a block, in order. */
  function Operations(txns: seq<IndexedTransaction>): seq<Operation> {
    if txns == [] then [] else Operations(txns[..|txns| - 1]) + txns[|txns| - 1].operations
  }

  lemma {:induction false} EffectOfConcat(x: seq<Operation>, y: seq<Operation>, a: Address)
    ensures Effect(x + y, a) == Effect(x, a) + Effect(y, a)
  {
    if y == [] {
      assert x + y == x;
    } else {
      EffectOfConcat(x, y[..|y| - 1], a);
      assert (x + y)[..|x + y| - 1] == x + y[..|y| - 1];
    }
  }

  lemma {:induction false} EffectOfOne(op: Operation, a: Address)
    ensures Effect([op], a) == OpEffect(op, a)
  {
    assert [op][..0] == [];
  }

  lemma {:induction false} UntouchedHasNoEffect(ops: seq<Operation>, a: Address)
    requires !Touches(ops, a)
    ensures Effect(ops, a) == 0
  {
    if ops != [] {
      assert ops[|ops| - 1] in ops;
      forall op | op in ops[..|ops| - 1] ensures !OpTouches(op, a) {
        assert op in ops;
      }
      UntouchedHasNoEffect(ops[..|ops| - 1], a);
    }
  }
}
