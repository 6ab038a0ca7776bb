/**
 What the writer's packing achieves over whole runs: a run sends transactions and flushes, in any
 order, and stops at the first error, as the generator and its prewarming do.
 */
module Packing {
  import opened LoadTypes
  import opened WriterSpec

  /** `io`: whether the files can be written, if this call writes one. */
  datatype Call = CallSend(tx: Tx, io: bool) | CallFlush(io: bool)

  /** `lost`: the transactions of a block whose file could not be written. */
  datatype Run = Run(w: Writer, accepted: seq<Tx>, outcome: Outcome, lost: seq<Tx>)

  function Do(w: Writer, c: Call): (Writer, Outcome) {
    match c
    case CallSend(tx, io) => Send(w, tx, io)
    case CallFlush(io) => Flush(w, io)
  }

  function Sent(c: Call): seq<Tx> {
    if c.CallSend? then [c.tx] else []
  }

  /** One more call, unless there was an error. */
  function Then(before: Run, c: Call): Run {
    if !before.outcome.Ok? then before
    else
      var (w, r) := Do(before.w, c);
      Run(w, if r.Ok? then before.accepted + Sent(c) else before.accepted, r,
          if r.FileError? then before.w.txBuffer else before.lost)
  }

  /** The calls in order, until one fails. */
  function CallAll(w0: Writer, calls: seq<Call>): Run {
    if calls == [] then Run(w0, [], Ok, []) else Then(CallAll(w0, calls[..|calls| - 1]), calls[|calls| - 1])
  }

  function Flatten(blocks: seq<seq<Tx>>): seq<Tx> {
    if blocks == [] then [] else Flatten(blocks[..|blocks| - 1]) + blocks[|blocks| - 1]
  }

  /** The true gas of a block, without wrapping. */
  function Gas(txs: seq<Tx>): nat {
    if txs == [] then 0 else Gas(txs[..|txs| - 1]) + txs[|txs| - 1].gas
  }

  function Blocks(files: seq<File>): seq<seq<Tx>> {
    seq(|files|, i requires 0 <= i < |files| => files[i].txs)
  }

  lemma BlocksSnoc(files: seq<File>, f: File)
    ensures Blocks(files + [f]) == Blocks(files) + [f.txs]
    ensures Flatten(Blocks(files + [f])) == Flatten(Blocks(files)) + f.txs
  {
    assert Blocks(files + [f]) == Blocks(files) + [f.txs];
    assert (Blocks(files) + [f.txs])[..|files|] == Blocks(files);
  }

  // ---------- Conservation, heights and the block limit ----------

  /** The files have consecutive heights; the next height is one further on for every block that was lost. */
  ghost predicate HeightsFollow(w0: Writer, w: Writer, lost: nat) {
    && (forall i | 0 <= i < |w.files| :: w.files[i].height == (w0.nextHeight + i) % UINT64_SIZE)
    && w.nextHeight == (w0.nextHeight + |w.files| + lost) % UINT64_SIZE
  }

  /**
   Everything accepted is in the files, then in the block lost to a file error, then in the buffer, in
   order. Only a file error loses a block, the last one; the max-blocks error comes after its block is written.
   */
  ghost predicate Conserves(w0: Writer, r: Run) {
    && Flatten(Blocks(r.w.files)) + r.lost + r.w.txBuffer == r.accepted
    && HeightsFollow(w0, r.w, if r.outcome.FileError? then 1 else 0)
    && (r.outcome.Ok? ==> |r.w.files| == r.w.blocksGenerated <= w0.numBlocks)
    && (r.outcome.MaxBlocks? ==> |r.w.files| == w0.numBlocks + 1)
    && (r.outcome.FileError? ==> |r.w.files| <= w0.numBlocks)
    && (!r.outcome.Ok? ==> r.w.txBuffer == [])
    && (!r.outcome.FileError? ==> r.lost == [])
    && r.w.gasPerBlock == w0.gasPerBlock && r.w.numBlocks == w0.numBlocks
  }

  ghost predicate Started(w0: Writer) {
    w0.files == [] && w0.txBuffer == [] && w0.bufferGas == 0 && w0.blocksGenerated == 0
  }

  /**
   Conservation: nothing accepted is reordered, or lost but the one block of a file error; blocks take
   consecutive heights, and the run ends with the max-blocks error exactly at flush number numBlocks + 1,
   after that block is written.
   */
  lemma {:induction false} CallAllConserves(w0: Writer, calls: seq<Call>)
    requires Started(w0)
    ensures Conserves(w0, CallAll(w0, calls))
  {
    if calls != [] {
      CallAllConserves(w0, calls[..|calls| - 1]);
      ThenConserves(w0, CallAll(w0, calls[..|calls| - 1]), calls[|calls| - 1]);
    }
  }

  /** The files start at this height, and only the max-blocks error comes after more than numBlocks of them. */
  ghost predicate Written(r: Run, startHeight: Uint64, numBlocks: Uint64) {
    && (forall i | 0 <= i < |r.w.files| :: r.w.files[i].height == (startHeight + i) % UINT64_SIZE)
    && (if r.outcome.MaxBlocks? then |r.w.files| == numBlocks + 1 else |r.w.files| <= numBlocks)
  }

  lemma ConservesWritten(w0: Writer, r: Run)
    requires Conserves(w0, r)
    ensures Written(r, w0.nextHeight, w0.numBlocks)
  {
  }

  /** From a new writer: the first block has the start height, and the error comes when numBlocks + 1 blocks are written. */
  lemma WrittenBlocks(gasPerBlock: Uint64, startHeight: Uint64, numBlocks: Uint64, calls: seq<Call>)
    ensures Written(CallAll(Init(gasPerBlock, startHeight, numBlocks), calls), startHeight, numBlocks)
  {
    var w0 := Init(gasPerBlock, startHeight, numBlocks);
    CallAllConserves(w0, calls);
    ConservesWritten(w0, CallAll(w0, calls));
  }

  lemma WrapNext(x: nat)
    ensures WrapAdd(x % UINT64_SIZE, 1) == (x + 1) % UINT64_SIZE
  {
    var q, r := x / UINT64_SIZE, x % UINT64_SIZE;
    assert x == q * UINT64_SIZE + r;
    if r + 1 < UINT64_SIZE {
      ModIs(x + 1, q, r + 1);
    } else {
      ModIs(x + 1, q + 1, 0);
    }
  }

  lemma ModIs(x: nat, q: nat, r: nat)
    requires x == q * UINT64_SIZE + r && r < UINT64_SIZE
    ensures x % UINT64_SIZE == r
  {
  }

  lemma ThenConserves(w0: Writer, before: Run, c: Call)
    requires Conserves(w0, before)
    ensures Conserves(w0, Then(before, c))
  {
    if before.outcome.Ok? {
      assert before.accepted + [] == before.accepted;
      if c.CallFlush? || Overflows(before.w, c.tx) {
        FlushConserves(w0, before, c.io);
      }
      if c.CallSend? {
        AppendConserves(w0, if Overflows(before.w, c.tx) then AfterFlush(before, c.io) else before, c.tx);
        SendIs(before, c.tx, c.io);
      }
    }
  }

  function AfterFlush(before: Run, io: bool): Run {
    Run(Flush(before.w, io).0, before.accepted, Flush(before.w, io).1, if io then before.lost else before.w.txBuffer)
  }

  function AfterAppend(before: Run, tx: Tx): Run {
    if before.outcome.Ok? then Run(Append(before.w, tx), before.accepted + [tx], Ok, before.lost) else before
  }

  /** A Send is an append, after a flush that went well if one is needed. */
  lemma SendIs(before: Run, tx: Tx, io: bool)
    requires before.outcome.Ok?
    ensures Then(before, CallSend(tx, io)) == AfterAppend(if Overflows(before.w, tx) then AfterFlush(before, io) else before, tx)
  {
  }

  lemma AppendConserves(w0: Writer, before: Run, tx: Tx)
    requires Conserves(w0, before)
    ensures Conserves(w0, AfterAppend(before, tx))
  {
    var filed := Flatten(Blocks(before.w.files)) + before.lost;
    assert filed + (before.w.txBuffer + [tx]) == (filed + before.w.txBuffer) + [tx];
  }

  lemma FlushConserves(w0: Writer, before: Run, io: bool)
    requires Conserves(w0, before) && before.outcome.Ok?
    ensures Conserves(w0, AfterFlush(before, io))
  {
    BlocksSnoc(before.w.files, File(before.w.nextHeight, before.w.txBuffer));
    FlushHeights(w0, before.w, io);
    assert Flatten(Blocks(before.w.files)) + before.lost == Flatten(Blocks(before.w.files));
  }

  lemma FlushHeights(w0: Writer, w: Writer, io: bool)
    requires HeightsFollow(w0, w, 0)
    ensures HeightsFollow(w0, Flush(w, io).0, if io then 0 else 1)
  {
    WrapNext(w0.nextHeight + |w.files|);
  }

  // ---------- Every block within the limit: exactly when twice the limit cannot wrap ----------

  ghost predicate Fit(calls: seq<Call>, gasPerBlock: Uint64) {
    forall i | 0 <= i < |calls| && calls[i].CallSend? :: calls[i].tx.gas <= gasPerBlock
  }

  ghost predicate WithinLimit(r: Run, gasPerBlock: Uint64) {
    && (forall b | b in Blocks(r.w.files) :: Gas(b) <= gasPerBlock)
    && Gas(r.w.txBuffer) <= gasPerBlock
  }

  lemma GasSnoc(txs: seq<Tx>, tx: Tx)
    ensures Gas(txs + [tx]) == Gas(txs) + tx.gas
  {
    assert (txs + [tx])[..|txs|] == txs;
  }

  /**
   One Send keeps the open buffer within the limit exactly when the transaction fits in a block
   and the sum the code compares does not wrap.
   */
  lemma SendWithinLimitIff(w: Writer, tx: Tx, io: bool)
    requires Gas(w.txBuffer) == w.bufferGas <= w.gasPerBlock && Send(w, tx, io).1.Ok?
    ensures Gas(Send(w, tx, io).0.txBuffer) <= w.gasPerBlock <==>
            tx.gas <= w.gasPerBlock && w.bufferGas + tx.gas < UINT64_SIZE
  {
    GasSnoc(w.txBuffer, tx);
    GasSnoc([], tx);
    assert [] + [tx] == [tx];
  }

  ghost predicate Tight(r: Run) {
    Gas(r.w.txBuffer) == r.w.bufferGas && WithinLimit(r, r.w.gasPerBlock)
  }

  lemma FlushTight(before: Run, io: bool)
    requires Tight(before)
    ensures Tight(AfterFlush(before, io))
  {
    BlocksSnoc(before.w.files, File(before.w.nextHeight, before.w.txBuffer));
  }

  lemma AppendTight(before: Run, tx: Tx)
    requires Tight(before) && before.w.bufferGas + tx.gas <= before.w.gasPerBlock
    ensures Tight(AfterAppend(before, tx))
  {
    GasSnoc(before.w.txBuffer, tx);
  }

  lemma ThenTight(before: Run, c: Call)
    requires Tight(before) && 2 * before.w.gasPerBlock < UINT64_SIZE
    requires c.CallSend? ==> c.tx.gas <= before.w.gasPerBlock
    ensures Tight(Then(before, c)) && Then(before, c).w.gasPerBlock == before.w.gasPerBlock
  {
    if before.outcome.Ok? {
      FlushTight(before, c.io);
      if c.CallSend? {
        SendIs(before, c.tx, c.io);
        AppendTight(if Overflows(before.w, c.tx) then AfterFlush(before, c.io) else before, c.tx);
      }
    }
  }

  lemma {:induction false} CallAllTight(w0: Writer, calls: seq<Call>)
    requires Started(w0) && Fit(calls, w0.gasPerBlock) && 2 * w0.gasPerBlock < UINT64_SIZE
    ensures Tight(CallAll(w0, calls)) && CallAll(w0, calls).w.gasPerBlock == w0.gasPerBlock
  {
    if calls != [] {
      CallAllTight(w0, calls[..|calls| - 1]);
      ThenTight(CallAll(w0, calls[..|calls| - 1]), calls[|calls| - 1]);
    }
  }

  /**
   The limit is kept in every run whose transactions fit in a block exactly when gasPerBlock is
   below 2^63: from there on, two full transactions wrap the sum.
   */
  lemma WithinLimitIff(gasPerBlock: Uint64, startHeight: Uint64, numBlocks: Uint64)
    ensures (forall calls | Fit(calls, gasPerBlock) ::
               WithinLimit(CallAll(Init(gasPerBlock, startHeight, numBlocks), calls), gasPerBlock))
            <==> 2 * gasPerBlock < UINT64_SIZE
  {
    var w0 := Init(gasPerBlock, startHeight, numBlocks);
    if 2 * gasPerBlock < UINT64_SIZE {
      forall calls | Fit(calls, gasPerBlock) ensures WithinLimit(CallAll(w0, calls), gasPerBlock) {
        CallAllTight(w0, calls);
      }
    } else {
      var c := CallSend(Tx(0, Account(1, true), 0, gasPerBlock), true);
      TwoFullTransactions(w0, c);
      assert Fit([c, c], gasPerBlock);
    }
  }

  lemma TwoFullTransactions(w0: Writer, c: Call)
    requires Started(w0) && c.CallSend? && c.tx.gas == w0.gasPerBlock && 2 * w0.gasPerBlock >= UINT64_SIZE
    ensures !WithinLimit(CallAll(w0, [c, c]), w0.gasPerBlock)
  {
    assert [c, c][..1] == [c] && [c][..0] == [];
    assert CallAll(w0, []).w == w0;
    assert CallAll(w0, [c]).w.txBuffer == [c.tx];
    assert CallAll(w0, [c, c]).w.txBuffer == [c.tx] + [c.tx];
    GasSnoc([c.tx], c.tx);
    GasSnoc([], c.tx);
    assert [] + [c.tx] == [c.tx];
  }

  // ---------- Greedy packing is optimal ----------

  /** Blocks that keep the limit and hold, in order, the first transactions of `txs`. */
  ghost predicate Packs(blocks: seq<seq<Tx>>, txs: seq<Tx>, gasPerBlock: Uint64) {
    Flatten(blocks) <= txs && forall b | b in blocks :: Gas(b) <= gasPerBlock
  }

  /** No packing into as many blocks as there are files gets further than the files do. */
  ghost predicate Ahead(r: Run) {
    forall blocks | Packs(blocks, r.accepted, r.w.gasPerBlock) && |blocks| <= |r.w.files| ::
      |Flatten(blocks)| <= |Flatten(Blocks(r.w.files))|
  }

  lemma {:induction false} SuffixGas(txs: seq<Tx>, from: nat, to: nat)
    requires from <= to <= |txs|
    ensures Gas(txs[to..]) <= Gas(txs[from..])
  {
    if to < |txs| {
      var n := |txs| - 1;
      SuffixGas(txs[..n], from, to);
      assert txs[..n][from..] + [txs[n]] == txs[from..] && txs[..n][to..] + [txs[n]] == txs[to..];
      GasSnoc(txs[..n][from..], txs[n]);
      GasSnoc(txs[..n][to..], txs[n]);
    }
  }

  /**
   A packing in k + 1 blocks of everything accepted and one more transaction does not exist when
   no k blocks get past the files, and the rest with that transaction is over the limit.
   */
  lemma {:induction false} NoRoom(blocks: seq<seq<Tx>>, accepted: seq<Tx>, tx: Tx, covered: nat, k: nat, gasPerBlock: Uint64)
    requires covered <= |accepted| && Gas(accepted[covered..] + [tx]) > gasPerBlock
    requires forall p | Packs(p, accepted, gasPerBlock) && |p| <= k :: |Flatten(p)| <= covered
    requires forall b | b in blocks :: Gas(b) <= gasPerBlock
    requires Flatten(blocks) == accepted + [tx]
    ensures |blocks| > k + 1
    decreases |blocks|
  {
    var n := |blocks| - 1;
    var head, last := blocks[..n], blocks[n];
    if last == [] {
      NoRoom(head, accepted, tx, covered, k, gasPerBlock);
    } else {
      var all := accepted + [tx];
      var h := |Flatten(head)|;
      assert Flatten(head) == all[..h] == accepted[..h];
      assert last == all[h..];
      assert Packs(head, accepted, gasPerBlock);
      assert all[covered..] == accepted[covered..] + [tx];
      if h <= covered {
        SuffixGas(all, h, covered);
        assert false;
      }
    }
  }

  /** A packing that stops short of the last transaction is a packing without it. */
  lemma ShorterPrefix(blocks: seq<seq<Tx>>, accepted: seq<Tx>, tx: Tx)
    requires Flatten(blocks) <= accepted + [tx]
    ensures Flatten(blocks) <= accepted || Flatten(blocks) == accepted + [tx]
  {
    var f, n := Flatten(blocks), |Flatten(blocks)|;
    assert f == (accepted + [tx])[..n];
    if n <= |accepted| {
      assert f == accepted[..n];
    }
  }

  /** Leaving out the last transaction needs no more blocks. */
  lemma {:induction false} DropLast(blocks: seq<seq<Tx>>, accepted: seq<Tx>, tx: Tx, gasPerBlock: Uint64)
    returns (shorter: seq<seq<Tx>>)
    requires Flatten(blocks) == accepted + [tx] && forall b | b in blocks :: Gas(b) <= gasPerBlock
    ensures |shorter| <= |blocks| && Flatten(shorter) == accepted && forall b | b in shorter :: Gas(b) <= gasPerBlock
    decreases |blocks|
  {
    var n := |blocks| - 1;
    var head, last := blocks[..n], blocks[n];
    if last == [] {
      shorter := DropLast(head, accepted, tx, gasPerBlock);
    } else {
      var m := |last| - 1;
      assert last[..m] + [last[m]] == last;
      GasSnoc(last[..m], last[m]);
      shorter := head + [last[..m]];
      assert shorter[..n] == head;
      assert Flatten(shorter) == (accepted + [tx])[..|accepted|];
    }
  }

  /** The buffer is empty only before the first transaction or after an error. */
  ghost predicate BufferOk(r: Run) {
    r.outcome.Ok? && r.w.files != [] ==> r.w.txBuffer != []
  }

  /** No packing of everything accepted has fewer blocks than the files and the open, or the lost, block. */
  ghost predicate Minimal(r: Run) {
    forall blocks | Flatten(blocks) == r.accepted && (forall b | b in blocks :: Gas(b) <= r.w.gasPerBlock) ::
      |r.w.files| + (if r.w.txBuffer == [] && r.lost == [] then 0 else 1) <= |blocks|
  }

  lemma AppendAhead(before: Run, tx: Tx)
    requires Ahead(before) && BufferOk(before) && before.outcome.Ok?
    requires Flatten(Blocks(before.w.files)) + before.w.txBuffer == before.accepted
    ensures Ahead(Run(Append(before.w, tx), before.accepted + [tx], Ok, []))
  {
    var cap, files := before.w.gasPerBlock, before.w.files;
    forall blocks | Packs(blocks, before.accepted + [tx], cap) && |blocks| <= |files|
      ensures |Flatten(blocks)| <= |Flatten(Blocks(files))|
    {
      ShorterPrefix(blocks, before.accepted, tx);
      if Flatten(blocks) == before.accepted + [tx] {
        var shorter := DropLast(blocks, before.accepted, tx, cap);
        assert Packs(shorter, before.accepted, cap);
        assert false;
      } else {
        assert Packs(blocks, before.accepted, cap);
      }
    }
  }

  lemma FlushAhead(before: Run, tx: Tx)
    requires Ahead(before) && before.outcome.Ok? && before.w.bufferGas <= Gas(before.w.txBuffer)
    requires Flatten(Blocks(before.w.files)) + before.w.txBuffer == before.accepted
    requires Overflows(before.w, tx)
    ensures Ahead(Run(Append(Flush(before.w, true).0, tx), before.accepted + [tx], Ok, []))
    ensures Ahead(Run(Flush(before.w, true).0, before.accepted, MaxBlocks, []))
  {
    var cap, files, accepted := before.w.gasPerBlock, before.w.files, before.accepted;
    var covered := |Flatten(Blocks(files))|;
    BlocksSnoc(files, File(before.w.nextHeight, before.w.txBuffer));
    assert accepted[covered..] == before.w.txBuffer;
    GasSnoc(before.w.txBuffer, tx);
    forall blocks | Packs(blocks, accepted + [tx], cap) && |blocks| <= |files| + 1
      ensures |Flatten(blocks)| <= |accepted|
    {
      ShorterPrefix(blocks, accepted, tx);
      if Flatten(blocks) == accepted + [tx] {
        NoRoom(blocks, accepted, tx, covered, |files|, cap);
      }
    }
  }

  lemma AheadMinimal(r: Run)
    requires Ahead(r) && BufferOk(r) && r.outcome.Ok? && r.lost == []
    requires Flatten(Blocks(r.w.files)) + r.w.txBuffer == r.accepted
    ensures Minimal(r)
  {
    forall blocks | Flatten(blocks) == r.accepted && (forall b | b in blocks :: Gas(b) <= r.w.gasPerBlock)
      ensures |r.w.files| + (if r.w.txBuffer == [] then 0 else 1) <= |blocks|
    {
      if |blocks| <= |r.w.files| {
        assert Packs(blocks, r.accepted, r.w.gasPerBlock);
      }
    }
  }

  lemma SendOptimal(before: Run, tx: Tx, io: bool)
    requires Ahead(before) && BufferOk(before) && Minimal(before) && before.outcome.Ok? && before.lost == []
    requires Flatten(Blocks(before.w.files)) + before.w.txBuffer == before.accepted
    requires tx.gas <= before.w.gasPerBlock && before.w.bufferGas <= Gas(before.w.txBuffer)
    ensures var after := Then(before, CallSend(tx, io));
            Ahead(after) && BufferOk(after) && (!after.outcome.Ok? ==> Minimal(after))
  {
    if Overflows(before.w, tx) {
      FlushAhead(before, tx);
      assert before.w.txBuffer != [];
    } else {
      AppendAhead(before, tx);
    }
  }

  lemma AppendCounted(w: Writer, tx: Tx)
    requires w.bufferGas <= Gas(w.txBuffer)
    ensures Append(w, tx).bufferGas <= Gas(Append(w, tx).txBuffer)
  {
    GasSnoc(w.txBuffer, tx);
  }

  /** A wrapped sum only makes the counted gas too small: Send never closes a block that had room. */
  lemma {:induction false} CountedGas(w0: Writer, calls: seq<Call>)
    requires Started(w0)
    ensures CallAll(w0, calls).w.bufferGas <= Gas(CallAll(w0, calls).w.txBuffer)
  {
    if calls != [] {
      var before, c := CallAll(w0, calls[..|calls| - 1]), calls[|calls| - 1];
      CountedGas(w0, calls[..|calls| - 1]);
      if before.outcome.Ok? && c.CallSend? {
        SendIs(before, c.tx, c.io);
        AppendCounted(if Overflows(before.w, c.tx) then AfterFlush(before, c.io).w else before.w, c.tx);
      }
    }
  }

  lemma NothingLost(w0: Writer, r: Run)
    requires Conserves(w0, r) && !r.outcome.FileError?
    ensures r.lost == [] && Flatten(Blocks(r.w.files)) + r.w.txBuffer == r.accepted
  {
    assert Flatten(Blocks(r.w.files)) + [] == Flatten(Blocks(r.w.files));
  }

  ghost predicate OnlySends(calls: seq<Call>) {
    forall i | 0 <= i < |calls| :: calls[i].CallSend?
  }

  /**
   Optimality: whatever is sent, as long as every transaction fits in a block, the files with the
   open buffer, or the block lost to a file error, are no more numerous than the blocks of any other
   packing of the same transactions in the same order. (A Flush closes a block that may have room.)
   */
  lemma {:induction false} GreedyIsOptimal(w0: Writer, calls: seq<Call>)
    requires Started(w0) && Fit(calls, w0.gasPerBlock) && OnlySends(calls)
    ensures Ahead(CallAll(w0, calls)) && BufferOk(CallAll(w0, calls)) && Minimal(CallAll(w0, calls))
  {
    CallAllConserves(w0, calls);
    if calls != [] {
      var before := CallAll(w0, calls[..|calls| - 1]);
      GreedyIsOptimal(w0, calls[..|calls| - 1]);
      CallAllConserves(w0, calls[..|calls| - 1]);
      CountedGas(w0, calls[..|calls| - 1]);
      if before.outcome.Ok? {
        NothingLost(w0, before);
        SendOptimal(before, calls[|calls| - 1].tx, calls[|calls| - 1].io);
      }
    }
    if CallAll(w0, calls).outcome.Ok? {
      NothingLost(w0, CallAll(w0, calls));
      AheadMinimal(CallAll(w0, calls));
    }
  }
}
