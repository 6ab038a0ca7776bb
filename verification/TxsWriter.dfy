/**
 The block writer: transactions go into an open buffer, and the buffer becomes the next
 numbered file when the next transaction would take its gas past gasPerBlock.
 */
module WriterSpec {
  import opened LoadTypes

  datatype File = File(height: Uint64, txs: seq<Tx>)

  datatype Outcome = Ok | FileError | MaxBlocks

  datatype Writer = Writer(
    gasPerBlock: Uint64, numBlocks: Uint64,
    nextHeight: Uint64, blocksGenerated: Uint64,
    bufferGas: Uint64, txBuffer: seq<Tx>, nonces: map<Address, Uint64>,
    files: seq<File>)

  function Init(gasPerBlock: Uint64, startHeight: Uint64, numBlocks: Uint64): Writer {
    Writer(gasPerBlock, numBlocks, startHeight, 0, 0, [], map[], [])
  }

  /** `io`: whether making the directory and writing the file succeed. The buffer is gone either way. */
  function Flush(w: Writer, io: bool): (Writer, Outcome) {
    (w.(files := if io then w.files + [File(w.nextHeight, w.txBuffer)] else w.files,
        txBuffer := [], bufferGas := 0,
        nextHeight := WrapAdd(w.nextHeight, 1), blocksGenerated := WrapAdd(w.blocksGenerated, 1)),
     if !io then FileError else if w.blocksGenerated >= w.numBlocks then MaxBlocks else Ok)
  }

  predicate Overflows(w: Writer, tx: Tx) {
    WrapAdd(w.bufferGas, tx.gas) > w.gasPerBlock
  }

  function Nonce(w: Writer, a: Address): Uint64 {
    if a in w.nonces then w.nonces[a] else 0
  }

  function Append(w: Writer, tx: Tx): Writer {
    var a := tx.sender.address;
    w.(txBuffer := w.txBuffer + [tx], bufferGas := WrapAdd(w.bufferGas, tx.gas),
       nonces := if tx.sender.tracked then w.nonces[a := WrapAdd(Nonce(w, a), 1)] else w.nonces)
  }

  /** A failed flush, which includes writing the last allowed block and one more, rejects the transaction. */
  function Send(w: Writer, tx: Tx, io: bool): (Writer, Outcome) {
    if Overflows(w, tx) then
      var (w', r) := Flush(w, io);
      if r.Ok? then (Append(w', tx), Ok) else (w', r)
    else (Append(w, tx), Ok)
  }
}

module TxsWriters {
  import opened LoadTypes
  import opened WriterSpec

  /** The writer object; the caller holds the mutex for the length of each method. */
  class TxsWriter {
    const gasPerBlock: Uint64
    const numBlocks: Uint64
    var nextHeight: Uint64
    var blocksGenerated: Uint64
    var bufferGas: Uint64
    var txBuffer: seq<Tx>
    var nonces: map<Address, Uint64>
    var files: seq<File>

    ghost function State(): Writer
      reads this
    {
      Writer(gasPerBlock, numBlocks, nextHeight, blocksGenerated, bufferGas, txBuffer, nonces, files)
    }

    constructor (gasPerBlock: Uint64, startHeight: Uint64, numBlocks: Uint64)
      ensures State() == Init(gasPerBlock, startHeight, numBlocks)
    {
      this.gasPerBlock, this.numBlocks := gasPerBlock, numBlocks;
      nextHeight, blocksGenerated := startHeight, 0;
      bufferGas, txBuffer, nonces, files := 0, [], map[], [];
    }

    method Send(tx: Tx, io: bool) returns (r: Outcome)
      modifies this
      ensures (State(), r) == WriterSpec.Send(old(State()), tx, io)
    {
      if WrapAdd(bufferGas, tx.gas) > gasPerBlock {
        r := Flush(io);
        if !r.Ok? {
          return;
        }
      }
      txBuffer := txBuffer + [tx];
      bufferGas := WrapAdd(bufferGas, tx.gas);
      if tx.sender.tracked {
        var a := tx.sender.address;
        nonces := nonces[a := WrapAdd(if a in nonces then nonces[a] else 0, 1)];
      }
      r := Ok;
    }

    method Nonce(acc: Account) returns (n: Uint64)
      ensures n == WriterSpec.Nonce(State(), acc.address)
    {
      n := if acc.address in nonces then nonces[acc.address] else 0;
    }

    method Flush(io: bool) returns (r: Outcome)
      modifies this
      ensures (State(), r) == WriterSpec.Flush(old(State()), io)
    {
      r := Ok;
      if !io {
        r := FileError;
      } else {
        files := files + [File(nextHeight, txBuffer)];
        if blocksGenerated >= numBlocks {
          r := MaxBlocks;
        }
      }
      txBuffer, bufferGas := [], 0;
      nextHeight, blocksGenerated := WrapAdd(nextHeight, 1), WrapAdd(blocksGenerated, 1);
    }
  }
}
