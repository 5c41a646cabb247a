/** The content-addressed store for runner receipts. */
module ReceiptStore {
  import opened Octets
  import opened Text
  import opened Unicode
  import opened Redaction
  import opened Runner

  datatype Path = RawOutput(digest: nat) | ReceiptFile(digest: nat)

  datatype Receipt = Receipt(id: nat, execution: Record, rawUri: Option<Path>, rawHash: Option<nat>, rawBytes: nat)

  datatype Reference = Reference(id: nat, ids: Ids, uri: Path, contentHash: nat)

  /** The digest of raw bytes, the identity hash of a receipt, the file form of
      a receipt and its parser, and the receipt identity of an attempt. */
  datatype Codec = Codec(
    sha: Bytes -> nat, identity: Receipt -> nat, encode: Receipt -> Bytes, decode: Bytes -> Option<Receipt>,
    idFor: nat -> nat)

  /** Collision-free hashes; what is written can be read back. */
  ghost predicate Sound(c: Codec) {
    && (forall a, b :: c.sha(a) == c.sha(b) ==> a == b)
    && (forall a, b :: c.identity(a) == c.identity(b) ==> a == b)
    && forall r :: c.decode(c.encode(r)) == Some(r)
  }

  const MAX_RECEIPT := 2 * 1024 * 1024
  const MAX_RAW := 100 * 1024 * 1024

  /** The receipt's own binding validator. */
  predicate ReceiptOk(c: Codec, r: Receipt) {
    && RecordOk(r.execution)
    && r.id == c.idFor(r.execution.ids.attempt)
    && r.rawUri.Some? == r.rawHash.Some?
    && if r.execution.status == Succeeded then
         r.rawHash == Some(r.execution.stdoutHash) && r.rawBytes == r.execution.stdoutRead
       else r.rawUri.None? && r.rawBytes == 0
  }

  function ReceiptFor(c: Codec, result: AgentRunResult): Receipt {
    var e := result.evidence;
    if e.status == Succeeded && result.proposal.Some? then
      var digest := c.sha(result.proposal.value);
      Receipt(c.idFor(e.ids.attempt), e, Some(RawOutput(digest)), Some(digest), |result.proposal.value|)
    else Receipt(c.idFor(e.ids.attempt), e, None, None, 0)
  }

  function ReferenceFor(c: Codec, r: Receipt): Reference {
    Reference(r.id, r.execution.ids, ReceiptFile(c.identity(r)), c.identity(r))
  }

  /** Exactly the results that the store takes: coherent evidence, output shown
      by a success alone, of the size and digest the evidence states, and within
      the two size limits. */
  predicate Publishable(c: Codec, result: AgentRunResult) {
    && RecordOk(result.evidence)
    && (result.evidence.status == Succeeded <==> result.proposal.Some?)
    && (result.proposal.Some? ==>
          && |result.proposal.value| <= MAX_RAW
          && c.sha(result.proposal.value) == result.evidence.stdoutHash
          && |result.proposal.value| == result.evidence.stdoutRead)
    && |c.encode(ReceiptFor(c, result))| <= MAX_RECEIPT
  }

  class Store {
    const codec: Codec
    var files: map<Path, Bytes>

    constructor (codec: Codec)
      ensures Valid() && files == map[] && this.codec == codec
    {
      this.codec := codec;
      files := map[];
    }

    /** Every file holds what its name says. */
    ghost predicate Valid()
      reads this
    {
      && (forall d | RawOutput(d) in files :: codec.sha(files[RawOutput(d)]) == d)
      && forall d | ReceiptFile(d) in files ::
           exists r :: codec.identity(r) == d && files[ReceiptFile(d)] == codec.encode(r)
    }

    /** `_publish_once`, without interference. */
    method PublishOnce(path: Path, payload: Bytes) returns (ok: bool)
      modifies this
      ensures ok <==> (path in old(files) ==> old(files)[path] == payload)
      ensures ok ==> files == old(files)[path := payload]
      ensures !ok ==> files == old(files)
    {
      if path in files {
        ok := files[path] == payload;
      } else {
        files := files[path := payload];
        ok := true;
      }
      assert ok ==> files == old(files)[path := payload];
    }

    method Publish(result: AgentRunResult) returns (r: Option<Reference>)
      requires Valid() && Sound(codec)
      modifies this
      ensures Valid()
      ensures r.Some? <==> Publishable(codec, result)
      ensures r.Some? ==> r.value == ReferenceFor(codec, ReceiptFor(codec, result)) && Holds(ReceiptFor(codec, result))
      ensures forall p | p in old(files) :: p in files && files[p] == old(files)[p]
    {
      hide RecordOk;
      var e := result.evidence;
      if !RecordOk(e) { return None; }
      var receipt := Receipt(codec.idFor(e.ids.attempt), e, None, None, 0);
      if e.status == Succeeded {
        if result.proposal.None? { return None; }
        var raw := result.proposal.value;
        if |raw| > MAX_RAW { return None; }
        var digest := codec.sha(raw);
        if digest != e.stdoutHash || |raw| != e.stdoutRead { return None; }
        var published := PublishOnce(RawOutput(digest), raw);
        assert published;
        receipt := receipt.(rawUri := Some(RawOutput(digest)), rawHash := Some(digest), rawBytes := |raw|);
      } else if result.proposal.Some? {
        return None;
      }
      assert receipt == ReceiptFor(codec, result);
      var contentHash := codec.identity(receipt);
      var payload := codec.encode(receipt);
      if |payload| > MAX_RECEIPT { return None; }
      var ok := PublishOnce(ReceiptFile(contentHash), payload);
      assert ok;
      var reference := Reference(receipt.id, e.ids, ReceiptFile(contentHash), contentHash);
      assert Holds(receipt) && reference == ReferenceFor(codec, receipt);
      var again := Load(reference);
      assert codec.identity(again.value) == codec.identity(receipt);
      return Some(reference);
    }

    /** The receipt, and the output it names, are in the store. */
    ghost predicate Holds(r: Receipt)
      reads this
    {
      && ReceiptOk(codec, r) && |codec.encode(r)| <= MAX_RECEIPT
      && ReceiptFile(codec.identity(r)) in files && files[ReceiptFile(codec.identity(r))] == codec.encode(r)
      && (r.rawHash.Some? ==>
            && r.rawUri == Some(RawOutput(r.rawHash.value)) && RawOutput(r.rawHash.value) in files
            && |files[RawOutput(r.rawHash.value)]| == r.rawBytes <= MAX_RAW)
    }

    /** Everything is reread and checked again. */
    method Load(reference: Reference) returns (r: Option<Receipt>)
      requires Valid() && Sound(codec)
      ensures r.Some? <==> exists s :: Holds(s) && reference == ReferenceFor(codec, s)
      ensures r.Some? ==> Holds(r.value) && reference == ReferenceFor(codec, r.value)
    {
      hide RecordOk;
      var path := ReceiptFile(reference.contentHash);
      if path !in files || reference.uri != path { return None; }
      var payload := files[path];
      if |payload| > MAX_RECEIPT { return None; }
      var parsed := codec.decode(payload);
      ghost var held: Receipt :| codec.identity(held) == reference.contentHash && payload == codec.encode(held);
      assert parsed == Some(held);
      var receipt := parsed.value;
      if !ReceiptOk(codec, receipt) { return None; }
      if codec.identity(receipt) != reference.contentHash { return None; }
      if receipt.id != reference.id || receipt.execution.ids != reference.ids { return None; }
      if receipt.rawUri.Some? {
        var raw := RawOutput(receipt.rawHash.value);
        if raw !in files || receipt.rawUri != Some(raw) { return None; }
        var output := files[raw];
        if |output| > MAX_RAW || codec.sha(output) != receipt.rawHash.value || |output| != receipt.rawBytes {
          return None;
        }
      }
      assert Holds(receipt) && reference == ReferenceFor(codec, receipt);
      return Some(receipt);
    }
  }

  /** What `run` returns, after a failed removal too, is refused in two cases
      only: the output or the receipt is past its size limit. */
  lemma RunnerResultPublishable(c: Codec, l: RunLimits, w: World, ids: Ids, env: Env, removal: Option<Message>)
    requires Possible(l, w) && env.sha == c.sha && Run(l, w, ids, env, removal).Some?
    ensures var r := Run(l, w, ids, env, removal).value;
            Publishable(c, r) <==>
              && (r.evidence.status == Succeeded ==> |Out(w)| <= 104_857_600)
              && |c.encode(ReceiptFor(c, r))| <= 2_097_152
  {
    hide RecordOk, Possible, Execute, Redact, Visible, Finish;
    ExecuteYields(l, w, ids, env);
    var r := Execute(l, w, ids, env).value;
    if r.evidence.status == Succeeded { SucceededComplete(l, w, ids, env); }
    match removal
    case Some(message) => RemovalReported(r, message, env);
    case None => Undisturbed(r, env);
  }

  lemma Undisturbed(r: AgentRunResult, env: Env)
    ensures Finish(r, None, env) == Some(r)
  {
  }

  /** A plan's output limit is at most 100 000 000 bytes, below the store's own. */
  lemma PlannedOutputFits(c: Codec, l: RunLimits, w: World, ids: Ids, env: Env, removal: Option<Message>)
    requires Possible(l, w) && env.sha == c.sha && l.output.stdout <= 100_000_000
    requires Run(l, w, ids, env, removal).Some?
    requires |c.encode(ReceiptFor(c, Run(l, w, ids, env, removal).value))| <= 2_097_152
    ensures Publishable(c, Run(l, w, ids, env, removal).value)
  {
    hide RecordOk, Possible, Execute, Finish, Publishable, Redact, Visible;
    RunnerResultPublishable(c, l, w, ids, env, removal);
    ExecuteYields(l, w, ids, env);
    var r := Execute(l, w, ids, env).value;
    match removal
    case Some(message) => RemovalReported(r, message, env);
    case None => Undisturbed(r, env);
    if r.evidence.status == Succeeded { SucceededComplete(l, w, ids, env); }
  }
}
