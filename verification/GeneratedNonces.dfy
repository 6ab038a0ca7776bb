/** The generator over the block writer: each transaction takes the writer's next nonce for its sender. */
module GeneratedNonces {
  import opened LoadTypes
  import opened WriterSpec
  import opened Packing

  /** What the generator decides before it asks the writer for the nonce; prewarming ends with a Flush. */
  datatype Offer = Offer(id: nat, sender: Account, gas: Uint64, io: bool) | AskFlush(io: bool)

  function Build(w: Writer, o: Offer): Call {
    match o
    case Offer(id, sender, gas, io) => CallSend(Tx(id, sender, Nonce(w, sender.address), gas), io)
    case AskFlush(io) => CallFlush(io)
  }

  /** The calls the generator makes, each built from the writer the earlier ones left. */
  function Generated(w0: Writer, offers: seq<Offer>): seq<Call> {
    if offers == [] then []
    else
      var before := Generated(w0, offers[..|offers| - 1]);
      before + [Build(CallAll(w0, before).w, offers[|offers| - 1])]
  }

  /** The nonces an account's tracked transactions carry, in order. */
  function NoncesOf(txs: seq<Tx>, a: Address): seq<Uint64> {
    if txs == [] then []
    else
      var last := txs[|txs| - 1];
      NoncesOf(txs[..|txs| - 1], a) + if last.sender == Account(a, true) then [last.nonce] else []
  }

  /** 0, 1, 2, ... and on past 2^64-1 from 0 again. */
  ghost predicate CountsUp(nonces: seq<Uint64>) {
    forall i | 0 <= i < |nonces| :: nonces[i] == i % UINT64_SIZE
  }

  lemma NoncesSnoc(txs: seq<Tx>, tx: Tx, a: Address)
    ensures NoncesOf(txs + [tx], a) == NoncesOf(txs, a) + if tx.sender == Account(a, true) then [tx.nonce] else []
  {
    assert (txs + [tx])[..|txs|] == txs;
  }

  ghost predicate CountedBy(r: Run, a: Address) {
    CountsUp(NoncesOf(r.accepted, a)) && Nonce(r.w, a) == |NoncesOf(r.accepted, a)| % UINT64_SIZE
  }

  lemma AppendCountsUp(r: Run, tx: Tx, a: Address)
    requires CountedBy(r, a) && tx.nonce == Nonce(r.w, tx.sender.address)
    ensures CountedBy(AfterAppend(r, tx), a)
  {
    NoncesSnoc(r.accepted, tx, a);
    WrapNext(|NoncesOf(r.accepted, a)|);
  }

  lemma ThenCountsUp(r: Run, o: Offer, a: Address)
    requires CountedBy(r, a)
    ensures CountedBy(Then(r, Build(r.w, o)), a)
  {
    if r.outcome.Ok? {
      if o.Offer? {
        var tx := Build(r.w, o).tx;
        SendIs(r, tx, o.io);
        AppendCountsUp(if Overflows(r.w, tx) then AfterFlush(r, o.io) else r, tx, a);
      } else {
        assert r.accepted + [] == r.accepted;
      }
    }
  }

  /**
   At any time the writer's nonce for an account is the number of the account's tracked transactions
   it accepted (modulo 2^64), and these carry the nonces 0, 1, 2, and so on.
   */
  lemma {:induction false} GeneratedCountsUp(w0: Writer, offers: seq<Offer>, a: Address)
    requires w0.nonces == map[]
    ensures CountedBy(CallAll(w0, Generated(w0, offers)), a)
  {
    if offers != [] {
      var before := Generated(w0, offers[..|offers| - 1]);
      var o := offers[|offers| - 1];
      GeneratedCountsUp(w0, offers[..|offers| - 1], a);
      assert (before + [Build(CallAll(w0, before).w, o)])[..|before|] == before;
      ThenCountsUp(CallAll(w0, before), o, a);
    }
  }

  lemma {:induction false} NoncesJoin(txs: seq<Tx>, more: seq<Tx>, a: Address)
    ensures NoncesOf(txs + more, a) == NoncesOf(txs, a) + NoncesOf(more, a)
  {
    if more == [] {
      assert txs + [] == txs;
    } else {
      var n := |more| - 1;
      NoncesJoin(txs, more[..n], a);
      assert txs + more == (txs + more[..n]) + [more[n]];
      NoncesSnoc(txs + more[..n], more[n], a);
    }
  }

  /** The nonces written are the first of those accepted: a file error loses the last block. */
  lemma WrittenFirst(w0: Writer, r: Run, a: Address)
    requires Conserves(w0, r)
    ensures NoncesOf(Flatten(Blocks(r.w.files)) + r.w.txBuffer, a) <= NoncesOf(r.accepted, a)
  {
    var filed := Flatten(Blocks(r.w.files));
    if r.outcome.FileError? {
      assert filed + r.lost + [] == filed + r.lost && filed + [] == filed;
      NoncesJoin(filed, r.lost, a);
    } else {
      NothingLost(w0, r);
    }
  }

  lemma CountsUpFirst(nonces: seq<Uint64>, all: seq<Uint64>)
    requires nonces <= all && CountsUp(all)
    ensures CountsUp(nonces)
  {
    forall i | 0 <= i < |nonces| ensures nonces[i] == i % UINT64_SIZE {
      assert nonces[i] == all[i];
    }
  }

  /**
   The blocks that prewarming and a generator run leave behind, files first and then the open buffer,
   hold each tracked account's transactions with the nonces 0, 1, 2, and so on, also when a file error
   ends the run.
   */
  lemma OutputNonces(gasPerBlock: Uint64, startHeight: Uint64, numBlocks: Uint64, offers: seq<Offer>, a: Address)
    ensures var w0 := Init(gasPerBlock, startHeight, numBlocks);
            var r := CallAll(w0, Generated(w0, offers));
            CountsUp(NoncesOf(Flatten(Blocks(r.w.files)) + r.w.txBuffer, a))
  {
    var w0 := Init(gasPerBlock, startHeight, numBlocks);
    var r := CallAll(w0, Generated(w0, offers));
    GeneratedCountsUp(w0, offers, a);
    CallAllConserves(w0, Generated(w0, offers));
    WrittenFirst(w0, r, a);
    CountsUpFirst(NoncesOf(Flatten(Blocks(r.w.files)) + r.w.txBuffer, a), NoncesOf(r.accepted, a));
  }
}
