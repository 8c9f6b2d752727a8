/** `filter_logs`: the logs of a block that match a filter, with their place in the block. */
module FilterLogs {
  import opened Wrappers

  type Word = nat
  type Address = nat

  datatype RawLog = RawLog(address: Address, topics: seq<Word>, data: seq<nat>)

  datatype Receipt = Receipt(logs: seq<RawLog>)

  datatype Block = Block(hash: Word, number: nat, timestamp: nat, transactions: seq<Word>)

  datatype Log = Log(
    inner: RawLog, blockHash: Word, blockNumber: nat, transactionHash: Word,
    transactionIndex: nat, logIndex: nat, removed: bool, blockTimestamp: nat)

  /** The parameters of a filter, or none at all, which lets every log through. */
  datatype Filter =
    | Everything
    | Matching(blockRange: nat -> bool, blockHash: Word -> bool, address: Address -> bool,
               topics: seq<Word> -> bool)

  const U32_MODULUS: nat := 0x1_0000_0000

  predicate AddLog(l: RawLog, block: Block, filter: Filter)
  {
    filter.Matching? ==>
      filter.blockRange(block.number) && filter.blockHash(block.hash)
      && filter.address(l.address) && filter.topics(l.topics)
  }

  /** A 32-bit counter that has counted up to `n`. */
  function Wrap(n: nat): (r: nat)
  {
    n % U32_MODULUS
  }

  lemma WrapNext(n: nat)
    ensures Wrap(Wrap(n) + 1) == Wrap(n + 1)
  {}

  /**
   A log at its place: the given transaction of the block and the given position in it. The log index
   is a 32-bit counter, which wraps around.
   */
  function Placed(l: RawLog, block: Block, tx: nat, index: nat): (log: Log)
    requires tx < |block.transactions|
  {
    Log(l, block.hash, block.number, block.transactions[tx], tx, Wrap(index), false, block.timestamp)
  }

  /* ---------- Reference: number all logs, then keep the matching ones ---------- */

  /** The number of logs in the first `n` receipts. */
  function Offset(receipts: seq<Receipt>, n: nat): (k: nat)
    requires n <= |receipts|
  {
    if n == 0 then 0 else Offset(receipts, n - 1) + |receipts[n - 1].logs|
  }

  /** The first `n` logs of one receipt, placed one after the other from `start` on. */
  function PlaceReceipt(logs: seq<RawLog>, n: nat, block: Block, tx: nat, start: nat): (r: seq<Log>)
    requires n <= |logs| && tx < |block.transactions|
    ensures |r| == n
  {
    if n == 0 then []
    else PlaceReceipt(logs, n - 1, block, tx, start) + [Placed(logs[n - 1], block, tx, start + n - 1)]
  }

  /** All logs of the first `n` receipts at their places. */
  function PlaceAll(receipts: seq<Receipt>, n: nat, block: Block): (r: seq<Log>)
    requires n <= |receipts| <= |block.transactions|
    ensures |r| == Offset(receipts, n)
  {
    if n == 0 then []
    else
      PlaceAll(receipts, n - 1, block) +
      PlaceReceipt(receipts[n - 1].logs, |receipts[n - 1].logs|, block, n - 1, Offset(receipts, n - 1))
  }

  function Keep(logs: seq<Log>, block: Block, filter: Filter): (r: seq<Log>)
  {
    if logs == [] then []
    else Keep(Front(logs), block, filter)
         + if AddLog(Last(logs).inner, block, filter) then [Last(logs)] else []
  }

  function Expected(block: Block, receipts: seq<Receipt>, filter: Filter): (r: seq<Log>)
    requires |receipts| <= |block.transactions|
  {
    Keep(PlaceAll(receipts, |receipts|, block), block, filter)
  }

  lemma {:induction false} PlaceReceiptAt(logs: seq<RawLog>, n: nat, block: Block, tx: nat,
                                          start: nat, i: nat)
    requires i < n <= |logs| && tx < |block.transactions|
    ensures PlaceReceipt(logs, n, block, tx, start)[i] == Placed(logs[i], block, tx, start + i)
  {
    if i < n - 1 {
      PlaceReceiptAt(logs, n - 1, block, tx, start, i);
    }
  }

  lemma {:induction false} OffsetMonotone(receipts: seq<Receipt>, a: nat, b: nat)
    requires a <= b <= |receipts|
    ensures Offset(receipts, a) <= Offset(receipts, b)
  {
    if a < b { OffsetMonotone(receipts, a, b - 1); }
  }

  /**
   Every log of the block is at its own place: the log at position `j` of receipt `tx` has the hash
   and index of that transaction, and its log index counts all logs before it in the block.
   */
  lemma {:induction false} PlaceOf(receipts: seq<Receipt>, n: nat, block: Block, tx: nat, j: nat)
    requires n <= |receipts| <= |block.transactions|
    requires tx < n && j < |receipts[tx].logs|
    ensures var i := Offset(receipts, tx) + j;
            && i < Offset(receipts, n)
            && PlaceAll(receipts, n, block)[i] == Placed(receipts[tx].logs[j], block, tx, i)
  {
    OffsetMonotone(receipts, tx + 1, n);
    if tx == n - 1 {
      PlaceReceiptAt(receipts[tx].logs, |receipts[tx].logs|, block, tx, Offset(receipts, tx), j);
    } else {
      PlaceOf(receipts, n - 1, block, tx, j);
    }
  }

  /** Every position of the numbered block is some receipt's log, so nothing else is listed. */
  lemma {:induction false} PlaceExists(receipts: seq<Receipt>, n: nat, i: nat) returns (tx: nat, j: nat)
    requires n <= |receipts| && i < Offset(receipts, n)
    ensures tx < n && j < |receipts[tx].logs| && i == Offset(receipts, tx) + j
  {
    if i < Offset(receipts, n - 1) {
      tx, j := PlaceExists(receipts, n - 1, i);
    } else {
      tx, j := n - 1, i - Offset(receipts, n - 1);
    }
  }

  lemma {:induction false} KeepConcat(a: seq<Log>, b: seq<Log>, block: Block, filter: Filter)
    ensures Keep(a + b, block, filter) == Keep(a, block, filter) + Keep(b, block, filter)
  {
    if b == [] {
      assert a + b == a;
    } else {
      assert Front(a + b) == a + Front(b) && Last(a + b) == Last(b);
      KeepConcat(a, Front(b), block, filter);
      Assoc(Keep(a, block, filter), Keep(Front(b), block, filter),
            if AddLog(Last(b).inner, block, filter) then [Last(b)] else []);
    }
  }

  /** What is kept: exactly the matching logs, by position. */
  lemma {:induction false} KeepMembers(logs: seq<Log>, block: Block, filter: Filter, x: Log)
    ensures x in Keep(logs, block, filter) <==> x in logs && AddLog(x.inner, block, filter)
  {
    if logs != [] {
      FrontLast(logs);
      KeepMembers(Front(logs), block, filter, x);
    }
  }

  /** What is kept stays in order: log indexes increase. */
  predicate Increasing(logs: seq<Log>)
  {
    forall i, j :: 0 <= i < j < |logs| ==> logs[i].logIndex < logs[j].logIndex
  }

  lemma {:induction false} KeepIncreasing(logs: seq<Log>, block: Block, filter: Filter)
    requires Increasing(logs)
    ensures Increasing(Keep(logs, block, filter))
  {
    if logs != [] {
      var front := Front(logs);
      FrontLast(logs);
      KeepIncreasing(front, block, filter);
      forall i | 0 <= i < |Keep(front, block, filter)|
        ensures Keep(front, block, filter)[i].logIndex < Last(logs).logIndex
      {
        KeepMembers(front, block, filter, Keep(front, block, filter)[i]);
      }
    }
  }

  lemma PlaceAllIndex(receipts: seq<Receipt>, block: Block, i: nat)
    requires |receipts| <= |block.transactions| && i < Offset(receipts, |receipts|)
    ensures PlaceAll(receipts, |receipts|, block)[i].logIndex == Wrap(i)
  {
    var tx, j := PlaceExists(receipts, |receipts|, i);
    PlaceOf(receipts, |receipts|, block, tx, j);
  }

  /** The log is one of the block's, it matches, and it is at its own place. */
  ghost predicate Listed(block: Block, receipts: seq<Receipt>, filter: Filter, x: Log)
    requires |receipts| <= |block.transactions|
  {
    exists tx: nat, j: nat ::
      && tx < |receipts| && j < |receipts[tx].logs|
      && AddLog(receipts[tx].logs[j], block, filter)
      && x == Placed(receipts[tx].logs[j], block, tx, Offset(receipts, tx) + j)
  }

  lemma ExpectedIsListed(block: Block, receipts: seq<Receipt>, filter: Filter, x: Log)
    requires |receipts| <= |block.transactions|
    requires x in Expected(block, receipts, filter)
    ensures Listed(block, receipts, filter, x)
  {
    var all := PlaceAll(receipts, |receipts|, block);
    KeepMembers(all, block, filter, x);
    var i :| 0 <= i < |all| && all[i] == x;
    var tx, j := PlaceExists(receipts, |receipts|, i);
    PlaceOf(receipts, |receipts|, block, tx, j);
  }

  lemma ListedIsExpected(block: Block, receipts: seq<Receipt>, filter: Filter, x: Log)
    requires |receipts| <= |block.transactions|
    requires Listed(block, receipts, filter, x)
    ensures x in Expected(block, receipts, filter)
  {
    var tx: nat, j: nat :|
      && tx < |receipts| && j < |receipts[tx].logs|
      && AddLog(receipts[tx].logs[j], block, filter)
      && x == Placed(receipts[tx].logs[j], block, tx, Offset(receipts, tx) + j);
    PlaceOf(receipts, |receipts|, block, tx, j);
    KeepMembers(PlaceAll(receipts, |receipts|, block), block, filter, x);
  }

  lemma ExpectedIncreasing(block: Block, receipts: seq<Receipt>, filter: Filter)
    requires |receipts| <= |block.transactions| && Offset(receipts, |receipts|) <= U32_MODULUS
    ensures Increasing(Expected(block, receipts, filter))
  {
    var all := PlaceAll(receipts, |receipts|, block);
    forall i | 0 <= i < |all|
      ensures all[i].logIndex == i
    {
      PlaceAllIndex(receipts, block, i);
    }
    KeepIncreasing(all, block, filter);
  }

  /**
   The result in terms of the receipts alone: it holds the log at position `j` of receipt `tx` if
   and only if that log matches, at its place and with its index among all logs of the block, and
   nothing else. The indexes increase unless the block has more logs than the counter can tell apart.
   */
  lemma ExpectedIsExact(block: Block, receipts: seq<Receipt>, filter: Filter)
    requires |receipts| <= |block.transactions|
    ensures forall x ::
              x in Expected(block, receipts, filter) <==> Listed(block, receipts, filter, x)
    ensures Offset(receipts, |receipts|) <= U32_MODULUS ==>
              Increasing(Expected(block, receipts, filter))
  {
    if Offset(receipts, |receipts|) <= U32_MODULUS {
      ExpectedIncreasing(block, receipts, filter);
    }
    forall x
      ensures x in Expected(block, receipts, filter) <==> Listed(block, receipts, filter, x)
    {
      if x in Expected(block, receipts, filter) {
        ExpectedIsListed(block, receipts, filter, x);
      } else if Listed(block, receipts, filter, x) {
        ListedIsExpected(block, receipts, filter, x);
      }
    }
  }

  /* ---------- The nested loops ---------- */

  /** One more log of a receipt is placed, and kept if it matches. */
  lemma KeepNext(before: seq<Log>, own: seq<RawLog>, j: nat, block: Block, tx: nat, start: nat,
                 filter: Filter)
    requires j < |own| && tx < |block.transactions|
    ensures Keep(before + PlaceReceipt(own, j + 1, block, tx, start), block, filter) ==
            Keep(before + PlaceReceipt(own, j, block, tx, start), block, filter)
            + if AddLog(own[j], block, filter) then [Placed(own[j], block, tx, start + j)] else []
  {
    var placed := Placed(own[j], block, tx, start + j);
    Assoc(before, PlaceReceipt(own, j, block, tx, start), [placed]);
    PushFrontLast(before + PlaceReceipt(own, j, block, tx, start), placed);
  }

  /** A block has no more receipts than transactions. */
  method FilterBlock(block: Block, receipts: seq<Receipt>, filter: Filter) returns (logs: seq<Log>)
    requires |receipts| <= |block.transactions|
    ensures logs == Expected(block, receipts, filter)
  {
    logs := [];
    var logIndex := 0;
    for r := 0 to |receipts|
      invariant logIndex == Wrap(Offset(receipts, r))
      invariant logs == Keep(PlaceAll(receipts, r, block), block, filter)
    {
      var transactionHash := block.transactions[r];
      var own := receipts[r].logs;
      ghost var before, start := PlaceAll(receipts, r, block), Offset(receipts, r);
      assert before + PlaceReceipt(own, 0, block, r, start) == before;
      for j := 0 to |own|
        invariant logIndex == Wrap(start + j)
        invariant logs == Keep(before + PlaceReceipt(own, j, block, r, start), block, filter)
      {
        KeepNext(before, own, j, block, r, start, filter);
        if AddLog(own[j], block, filter) {
          logs := logs + [Log(own[j], block.hash, block.number, transactionHash, r, logIndex, false,
                              block.timestamp)];
        }
        WrapNext(start + j);
        logIndex := (logIndex + 1) % U32_MODULUS;
      }
    }
  }
}
