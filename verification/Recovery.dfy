/** The at-most-once protocol with the batches that `ingest` makes. */
module Recovery {
  import opened Text
  import opened Octets
  import opened AtMostOnce
  import opened Ingest

  const MAX_RESPONSE := 2 * 1024 * 1024

  /** What a receipt shows: whether its run succeeded, the recorded tokens, and
      the raw output it names. */
  datatype Shown = Shown(succeeded: bool, tokens: nat, raw: Bytes)

  /** The bindings that raise when they fail, the reading of a receipt, of the
      frozen input, and the written form of a batch. */
  datatype Interpretation = Interpretation(
    authorized: (Claim, Bytes) -> bool, address: Receipt -> nat, bound: (Claim, Receipt, Bytes) -> bool,
    shown: Receipt -> Shown, asked: (Claim, Bytes) -> Option<Asked>, reader: Reader, encode: Batch -> Bytes)

  /** `recover_claim`: a batch for a successful execution only. */
  function Rebuilt(x: Interpretation, claim: Claim, receipt: Receipt, input: Bytes): Option<Option<Batch>> {
    if !x.bound(claim, receipt, input) then None
    else if !x.shown(receipt).succeeded then Some(None)
    else
      var q := x.asked(claim, input);
      var shown := x.shown(receipt);
      if q.None? || |shown.raw| > MAX_RESPONSE then None
      else Some(Some(Ingested(x.reader, q.value.(tokens := shown.tokens), shown.raw)))
  }

  /** A claim's batch is rebuilt exactly when the bindings hold and, for a
      successful execution, the input reads and the reply has at most 2 MiB; a
      failed execution has none. */
  lemma RebuiltIff(x: Interpretation, claim: Claim, receipt: Receipt, input: Bytes)
    ensures var s, r := x.shown(receipt), Rebuilt(x, claim, receipt, input);
            && (r.Some? <==> x.bound(claim, receipt, input)
                             && (s.succeeded ==> x.asked(claim, input).Some? && |s.raw| <= 2_097_152))
            && (r.Some? ==> (r.value.Some? <==> s.succeeded))
  {
    hide Ingested;
  }

  function Written(x: Interpretation, b: Option<Option<Batch>>): Option<Option<Bytes>> {
    match b
    case None => None
    case Some(None) => Some(None)
    case Some(Some(batch)) => Some(Some(x.encode(batch)))
  }

  function RulesOf(x: Interpretation): Rules {
    Rules(x.authorized, x.address, (claim, receipt, input) => Written(x, Rebuilt(x, claim, receipt, input)))
  }

  ghost predicate Faithful(x: Interpretation) {
    && (forall a, b :: x.address(a) == x.address(b) ==> a == b)
    && forall a, b :: x.encode(a) == x.encode(b) ==> a == b
  }

  /** In every run, with any workers, recoveries and crashes, a result with a
      batch carries what `ingest` makes of the attempt's one receipt and one
      input; so every result of the attempt carries the same batch, and if it
      succeeded, each of its patches applies to the source that was shown. */
  lemma ResultIsIngested(x: Interpretation, steps: seq<Step>, j: nat)
    requires Faithful(x)
    requires var s := After(RulesOf(x), EMPTY, steps); j < |s.results| && s.results[j].batch.Some?
    ensures var s := After(RulesOf(x), EMPTY, steps);
            var r := s.results[j];
            var f := FilesOf(s, r.attempt);
            && f.claim.Some? && f.input.Some? && r.ref in s.receipts
            && var shown := x.shown(s.receipts[r.ref]);
               && shown.succeeded && x.asked(f.claim.value, f.input.value).Some?
               && var q := x.asked(f.claim.value, f.input.value).value.(tokens := shown.tokens);
                  && r.batch == Some(x.encode(Ingested(x.reader, q, shown.raw)))
                  && forall b | r.batch == Some(x.encode(b)) && b.SucceededBatch? ::
                       ItemsOf(x.reader, q, shown.raw).Some? && AllAcceptable(q, ItemsOf(x.reader, q, shown.raw).value)
  {
    hide After, Ingested, ItemsOf, AllAcceptable, ProcessOk, InvocationOk, IndexOk, ClaimOk, RowOk;
    Reached(RulesOf(x), steps);
    var s := After(RulesOf(x), EMPTY, steps);
    var r := s.results[j];
    assert ResultOk(RulesOf(x), s, r);
    var f, shown := FilesOf(s, r.attempt), x.shown(s.receipts[r.ref]);
    var q := x.asked(f.claim.value, f.input.value).value.(tokens := shown.tokens);
    forall b | r.batch == Some(x.encode(b)) && b.SucceededBatch?
      ensures ItemsOf(x.reader, q, shown.raw).Some? && AllAcceptable(q, ItemsOf(x.reader, q, shown.raw).value)
    {
      assert b == Ingested(x.reader, q, shown.raw);
      IngestedParts(x.reader, q, shown.raw);
    }
  }

  lemma IngestedParts(rd: Reader, q: Asked, raw: Bytes)
    ensures Ingested(rd, q, raw).SucceededBatch? ==>
              ItemsOf(rd, q, raw).Some? && AllAcceptable(q, ItemsOf(rd, q, raw).value)
  {
    hide ItemsOf, AllAcceptable;
  }
}
