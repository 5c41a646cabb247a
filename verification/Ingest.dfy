/** From a model's reply to a batch of proposals: all of them, or none. */
module Ingest {
  import opened Text
  import opened Octets
  import opened Applier
  import opened PatchIdentity
  import opened Printer
  import opened Builder

  // ---------- The reply

  /** A field of the provider's usage record. */
  datatype Count = Missing | NotInteger | Integer(n: int)

  datatype Usage = NoUsage | Usage(input: Count, output: Count, cacheCreation: Count, cacheRead: Count)

  datatype Block = TextBlock(text: string) | OtherBlock

  /** A JSON object, as far as it is looked at: `message` says that type and role
      are right, `complete` that the model ended its turn. */
  datatype Reply = Reply(usage: Usage, message: bool, model: string, complete: bool, blocks: seq<Block>)

  function Counted(c: Count, optional: bool): Option<nat> {
    match c
    case Missing => if optional then Some(0) else None
    case NotInteger => None
    case Integer(n) => if n < 0 then None else Some(n)
  }

  /** All four kinds of tokens; the two of the cache may be missing. */
  function UsageTokens(u: Usage): Option<nat> {
    if u.NoUsage? then None
    else
      var input :- Counted(u.input, false);
      var output :- Counted(u.output, false);
      var creation :- Counted(u.cacheCreation, true);
      var read :- Counted(u.cacheRead, true);
      Some(input + output + creation + read)
  }

  /** A field that says `n`; a missing one says zero where it may be missing. */
  predicate Says(c: Count, optional: bool, n: nat) { c == Integer(n) || (optional && c == Missing && n == 0) }

  lemma CountedIs(c: Count, optional: bool, n: nat)
    ensures Counted(c, optional) == Some(n) <==> Says(c, optional, n)
  {
  }

  /** The tokens are those four fields' sum, and nothing if one cannot be read. */
  lemma UsageTokensIs(input: Count, output: Count, creation: Count, read: Count, t: nat)
    ensures UsageTokens(Usage(input, output, creation, read)) == Some(t) <==>
            exists a: nat, b: nat, c: nat, d: nat ::
              Says(input, false, a) && Says(output, false, b) && Says(creation, true, c) && Says(read, true, d)
              && t == a + b + c + d
  {
    hide Counted, Says;
    var u := Usage(input, output, creation, read);
    forall n: nat
      ensures Counted(input, false) == Some(n) <==> Says(input, false, n)
      ensures Counted(output, false) == Some(n) <==> Says(output, false, n)
      ensures Counted(creation, true) == Some(n) <==> Says(creation, true, n)
      ensures Counted(read, true) == Some(n) <==> Says(read, true, n)
    {
      CountedIs(input, false, n);
      CountedIs(output, false, n);
      CountedIs(creation, true, n);
      CountedIs(read, true, n);
    }
    if UsageTokens(u) == Some(t) {
      var a, b := Counted(input, false).value, Counted(output, false).value;
      var c, d := Counted(creation, true).value, Counted(read, true).value;
      assert Says(input, false, a) && Says(output, false, b) && Says(creation, true, c) && Says(read, true, d);
    }
  }

  function Joined(blocks: seq<Block>): string {
    if blocks == [] then "" else (if blocks[0].TextBlock? then blocks[0].text else "") + Joined(blocks[1..])
  }

  function ProposalText(r: Reply, model: string): Option<string> {
    if !r.message || r.model != model || !r.complete || r.blocks == [] || OtherBlock in r.blocks then None
    else Some(Joined(r.blocks))
  }

  // ---------- One proposal

  /** A proposal as the model wrote it; `opcodes` is the diff library's report
      for its replacement. */
  datatype Item = Item(
    intent: string, rationale: string, risk: string, patch: Option<string>, oldText: Option<string>,
    newText: Option<string>, opcodes: seq<Op>)

  predicate Bounded(s: string, most: nat) { 1 <= |s| <= most }

  predicate BoundedIf(s: Option<string>, most: nat) { s.Some? ==> Bounded(s.value, most) }

  /** Exactly one edit encoding, within its bounds. */
  predicate WellFormed(i: Item) {
    && Bounded(i.intent, 2000) && Bounded(i.rationale, 10_000) && Bounded(i.risk, 4000)
    && BoundedIf(i.patch, 1_000_000) && BoundedIf(i.oldText, 256_000) && BoundedIf(i.newText, 256_000)
    && i.oldText.Some? == i.newText.Some? && i.patch.Some? != i.oldText.Some?
  }

  /** No outer whitespace. */
  predicate Trim(s: string) { StripRight(StripLeft(s)) == s }

  /** The parts of `value.split("/")`. */
  function PathParts(path: string): (parts: seq<string>)
    ensures parts != []
  {
    if path == "" then [""]
    else if path[0] == '/' then [""] + PathParts(path[1..])
    else
      var rest := PathParts(path[1..]);
      [[path[0]] + rest[0]] + rest[1..]
  }

  predicate EndsWith(s: string, end: string) { |end| <= |s| && s[|s| - |end|..] == end }

  predicate PythonPath(path: string) {
    && '\\' !in path && (forall part | part in PathParts(path) :: part != "" && part != "." && part != "..")
    && (EndsWith(path, ".py") || EndsWith(path, ".pyi"))
  }

  /** What the frozen input and plan say: the source shown, its path, the
      replacement point, the model, the recorded tokens and the smaller of the
      two proposal limits. */
  datatype Asked = Asked(source: string, path: string, point: string, model: string, tokens: nat, limit: nat)

  function PatchOf(q: Asked, i: Item): Option<string>
    requires WellFormed(i)
  {
    if i.patch.Some? then i.patch
    else
      match BuildSingleReplacementPatch(q.source, q.path, i.oldText.value, i.newText.value, i.opcodes)
      case Ok(patch) => Some(patch)
      case Err(_) => None
  }

  /** The edit yields a patch that applies to the source that was shown, and the
      proposal meets its contract. */
  predicate Acceptable(q: Asked, i: Item) {
    && WellFormed(i) && PatchOf(q, i).Some? && Outcome(q.source, PatchOf(q, i).value, q.path).Some?
    && Trim(i.intent) && Trim(i.rationale) && Trim(i.risk) && Trim(q.point) && Bounded(q.point, 1000)
    && PythonPath(q.path)
  }

  // ---------- The batch

  datatype Proposal = Proposal(
    ordinal: nat, intent: string, rationale: string, risk: string, patchHash: nat, normalizedHash: nat)

  datatype BatchError = NoProposals | InvalidProposal

  datatype Batch = FailedBatch(error: BatchError) | SucceededBatch(proposals: seq<Proposal>)

  /** Strict JSON of the reply and of its text, and the digest. */
  datatype Reader = Reader(reply: Bytes -> Option<Reply>, items: string -> Option<seq<Item>>, digest: string -> nat)

  /** The proposals of a reply whose usage is the recorded one. */
  function ItemsOf(rd: Reader, q: Asked, raw: Bytes): Option<seq<Item>> {
    var reply :- rd.reply(raw);
    if UsageTokens(reply.usage) != Some(q.tokens) then None
    else
      var text :- ProposalText(reply, q.model);
      var items :- rd.items(text);
      if |items| > 8 || exists i :: i in items && !WellFormed(i) then None else Some(items)
  }

  predicate AllAcceptable(q: Asked, items: seq<Item>) { forall k | 0 <= k < |items| :: Acceptable(q, items[k]) }

  function ProposalOf(rd: Reader, q: Asked, i: Item, ordinal: nat): Proposal
    requires Acceptable(q, i)
  {
    var patch := PatchOf(q, i).value;
    Proposal(ordinal, i.intent, i.rationale, i.risk, rd.digest(patch), rd.digest(Normalize(patch)))
  }

  /** What a reply comes to. */
  function Ingested(rd: Reader, q: Asked, raw: Bytes): Batch {
    var items := ItemsOf(rd, q, raw);
    if items == Some([]) then FailedBatch(NoProposals)
    else if items.None? || |items.value| > q.limit || !AllAcceptable(q, items.value) then FailedBatch(InvalidProposal)
    else
      SucceededBatch(seq(|items.value|, k requires 0 <= k < |items.value| => ProposalOf(rd, q, items.value[k], k)))
  }

  /** The loop of `ingest`: one malformed member rejects the whole response, and
      then no patch is written. */
  method IngestProposals(rd: Reader, q: Asked, raw: Bytes) returns (batch: Batch, stored: seq<string>)
    ensures batch == Ingested(rd, q, raw)
    ensures batch.FailedBatch? ==> stored == []
    ensures batch.SucceededBatch? ==>
              && ItemsOf(rd, q, raw).Some? && AllAcceptable(q, ItemsOf(rd, q, raw).value)
              && |stored| == |ItemsOf(rd, q, raw).value|
              && forall k | 0 <= k < |stored| :: Some(stored[k]) == PatchOf(q, ItemsOf(rd, q, raw).value[k])
  {
    hide Outcome, Normalize, Acceptable, PatchOf, WellFormed, ItemsOf;
    var items := ItemsOf(rd, q, raw);
    if items.None? { return FailedBatch(InvalidProposal), []; }
    if items.value == [] { return FailedBatch(NoProposals), []; }
    if |items.value| > q.limit { return FailedBatch(InvalidProposal), []; }
    var proposals: seq<Proposal> := [];
    stored := [];
    for k := 0 to |items.value|
      invariant |proposals| == |stored| == k
      invariant forall m | 0 <= m < k :: Acceptable(q, items.value[m])
      invariant forall m | 0 <= m < k ::
                  && proposals[m] == ProposalOf(rd, q, items.value[m], m)
                  && WellFormed(items.value[m]) && Some(stored[m]) == PatchOf(q, items.value[m])
    {
      if !Acceptable(q, items.value[k]) { return FailedBatch(InvalidProposal), []; }
      AcceptableParts(q, items.value[k]);
      proposals := proposals + [ProposalOf(rd, q, items.value[k], k)];
      stored := stored + [PatchOf(q, items.value[k]).value];
    }
    return SucceededBatch(proposals), stored;
  }

  lemma AcceptableParts(q: Asked, i: Item)
    requires Acceptable(q, i)
    ensures WellFormed(i) && PatchOf(q, i).Some? && Outcome(q.source, PatchOf(q, i).value, q.path).Some?
  {
    hide Outcome;
  }

  /** A replacement is one line-aligned occurrence, and its patch makes exactly
      that edit. */
  predicate MakesEdit(q: Asked, i: Item)
    requires WellFormed(i) && PatchOf(q, i).Some?
  {
    i.oldText.Some? ==>
      && Precheck(q.source, i.oldText.value, i.newText.value) == None
      && Outcome(q.source, PatchOf(q, i).value, q.path)
           == Some(Candidate(q.source, i.oldText.value, i.newText.value))
  }

  /** A succeeded batch holds every proposal of the reply, in order, under the
      digests of its patch; each patch applies, and a replacement makes its edit. */
  lemma SucceededMeans(rd: Reader, q: Asked, raw: Bytes)
    requires Ingested(rd, q, raw).SucceededBatch?
    ensures ItemsOf(rd, q, raw).Some?
    ensures var items, ps := ItemsOf(rd, q, raw).value, Ingested(rd, q, raw).proposals;
            && 0 < |items| == |ps| <= 8 && |ps| <= q.limit
            && forall k | 0 <= k < |items| ::
                 && Acceptable(q, items[k]) && MakesEdit(q, items[k])
                 && ps[k].ordinal == k && ps[k].intent == items[k].intent && ps[k].rationale == items[k].rationale
                 && ps[k].risk == items[k].risk
                 && ps[k].patchHash == rd.digest(PatchOf(q, items[k]).value)
                 && ps[k].normalizedHash == rd.digest(Normalize(PatchOf(q, items[k]).value))
  {
    hide Outcome, Normalize, Acceptable, PatchOf, MakesEdit, ItemsOf;
    var items := ItemsOf(rd, q, raw).value;
    ItemsFew(rd, q, raw);
    forall k | 0 <= k < |items|
      ensures Acceptable(q, items[k]) && WellFormed(items[k]) && PatchOf(q, items[k]).Some? && MakesEdit(q, items[k])
    {
      AcceptableParts(q, items[k]);
      BuiltMeans(q, items[k]);
    }
  }

  lemma ItemsFew(rd: Reader, q: Asked, raw: Bytes)
    ensures ItemsOf(rd, q, raw).Some? ==>
              |ItemsOf(rd, q, raw).value| <= 8 && forall i | i in ItemsOf(rd, q, raw).value :: WellFormed(i)
  {
    hide WellFormed;
  }

  lemma BuiltMeans(q: Asked, i: Item)
    requires Acceptable(q, i)
    ensures MakesEdit(q, i)
  {
    hide Outcome, UnifiedDiff, Utf8Length, PythonPath, StripLeft, StripRight;
  }

  lemma {:induction false} Utf8AtMost(s: string)
    ensures Utf8Length(s) <= 4 * |s|
  {
    if s != "" { Utf8AtMost(s[1..]); }
  }

  /** The patch store, which is written to after everything was accepted, never
      refuses one for its size. */
  lemma PatchesFitStore(q: Asked, i: Item)
    requires Acceptable(q, i)
    ensures Utf8Length(PatchOf(q, i).value) <= 4_194_304
  {
    hide Outcome, UnifiedDiff, Utf8Length, PythonPath, StripLeft, StripRight, Candidate, Precheck;
    if i.patch.Some? { Utf8AtMost(i.patch.value); }
  }
}
