/** Starting a scripted rehearsal from one browser tab: a frozen request, saved
    before it is sent, and at most one call in flight. */
module ScriptedStart {
  import opened Text

  datatype Request = Request(
    preview: nat, planHash: nat, actor: string, key: string, acknowledged: seq<string>, identity: nat)

  datatype Receipt = Receipt(
    preview: nat, planHash: nat, actor: string, key: string, identity: nat, synthetic: bool,
    automaticRelease: bool, intent: Option<nat>, round: Option<nat>, knownState: bool)

  /** `validateStartReceipt`. */
  predicate ReceiptMatches(r: Receipt, q: Request) {
    && r.preview == q.preview && r.planHash == q.planHash && r.actor == q.actor && r.key == q.key
    && r.identity == q.identity && r.synthetic && !r.automaticRelease && r.intent.Some? && r.round.Some?
    && r.knownState
  }

  /** The tab's session storage. */
  datatype Storage = Unavailable | Corrupt | Rows(rows: seq<Request>)

  function FirstRow(rows: seq<Request>, preview: nat): Option<Request> {
    if rows == [] then None
    else if rows[0].preview == preview then Some(rows[0])
    else FirstRow(rows[1..], preview)
  }

  datatype SaveError = NoStorage | Unreadable | DifferentRequest | WriteFailed

  function Saved(storage: Storage, request: Request, writeOk: bool): Result<seq<Request>, SaveError> {
    match storage
    case Unavailable => Err(NoStorage)
    case Corrupt => Err(Unreadable)
    case Rows(rows) =>
      var previous := FirstRow(rows, request.preview);
      if previous.Some? && previous.value != request then Err(DifferentRequest)
      else if !writeOk then Err(WriteFailed)
      else Ok(if previous.Some? then rows else rows + [request])
  }

  /** `saveStartRequest`, in a browser. */
  method SaveStartRequest(storage: Storage, request: Request, writeOk: bool)
    returns (r: Result<seq<Request>, SaveError>)
    ensures r == Saved(storage, request, writeOk)
  {
    if storage == Unavailable { return Err(NoStorage); }
    if storage == Corrupt { return Err(Unreadable); }
    var rows := storage.rows;
    var i := 0;
    assert rows[0..] == rows;
    while i < |rows| && rows[i].preview != request.preview
      invariant 0 <= i <= |rows|
      invariant FirstRow(rows, request.preview) == FirstRow(rows[i..], request.preview)
    {
      assert rows[i..][0] == rows[i] && rows[i..][1..] == rows[i + 1..];
      i := i + 1;
    }
    assert i < |rows| ==> rows[i..][0] == rows[i];
    if i < |rows| && rows[i] != request { return Err(DifferentRequest); }
    if !writeOk { return Err(WriteFailed); }
    r := Ok(if i < |rows| then rows else rows + [request]);
  }

  // ---------- The tab

  datatype Session = Session(request: Option<Request>, receipt: Option<Receipt>, pending: Option<nat>, broken: bool)

  /** One POST, in the order sent; `open` until its answer came. */
  datatype Post = Post(page: nat, request: Request, open: bool)

  datatype Tab = Tab(storage: Storage, page: nat, sessions: map<nat, Session>, posts: seq<Post>)

  datatype Step =
    | Open(preview: nat)
    | Submit(request: Request, writeOk: bool)
    | Respond(post: nat, receipt: Option<Receipt>)
    | Clear(preview: nat)
    | Reload

  function OpenStep(t: Tab, preview: nat): Tab {
    if preview in t.sessions then t
    else
      var row := if t.storage.Rows? then FirstRow(t.storage.rows, preview) else None;
      t.(sessions := t.sessions[preview := Session(row, None, None, t.storage == Corrupt)])
  }

  /** `submitScriptedStart`, up to the call it makes. */
  function SubmitStep(t: Tab, request: Request, writeOk: bool): Tab {
    var p := request.preview;
    if p !in t.sessions then t
    else
      var s := t.sessions[p];
      var saved := Saved(t.storage, request, writeOk);
      if s.broken || (s.request.Some? && s.request.value != request) || saved.Err? then t
      else if s.receipt.Some? || s.pending.Some? then
        t.(storage := Rows(saved.value), sessions := t.sessions[p := s.(request := Some(request))])
      else
        t.(storage := Rows(saved.value), posts := t.posts + [Post(t.page, request, true)],
           sessions := t.sessions[p := s.(request := Some(request), pending := Some(|t.posts|))])
  }

  /** The answer, or a failure. Only the page that sent the call sees it. */
  function RespondStep(t: Tab, i: nat, receipt: Option<Receipt>): Tab {
    if i >= |t.posts| || !t.posts[i].open then t
    else
      var post := t.posts[i];
      var p := post.request.preview;
      var u := t.(posts := t.posts[i := post.(open := false)]);
      if post.page != t.page || p !in t.sessions || receipt.None? || !ReceiptMatches(receipt.value, post.request)
      then u
      else u.(sessions := t.sessions[p := t.sessions[p].(receipt := receipt)])
  }

  /** The `finally` of the call that sent the POST, once it is answered. */
  function ClearStep(t: Tab, preview: nat): Tab {
    if preview !in t.sessions || t.sessions[preview].pending.None? then t
    else
      var i := t.sessions[preview].pending.value;
      if i < |t.posts| && t.posts[i].open then t
      else t.(sessions := t.sessions[preview := t.sessions[preview].(pending := None)])
  }

  function Apply(t: Tab, step: Step): Tab {
    match step
    case Open(p) => OpenStep(t, p)
    case Submit(request, writeOk) => SubmitStep(t, request, writeOk)
    case Respond(i, receipt) => RespondStep(t, i, receipt)
    case Clear(p) => ClearStep(t, p)
    case Reload => t.(page := t.page + 1, sessions := map[])
  }

  function Run(t: Tab, steps: seq<Step>): Tab
    decreases |steps|
  {
    if steps == [] then t else Run(Apply(t, steps[0]), steps[1..])
  }

  function Fresh(storage: Storage): Tab { Tab(storage, 0, map[], []) }

  // ---------- The invariant

  predicate SessionOk(t: Tab, p: nat)
    requires p in t.sessions
  {
    var s := t.sessions[p];
    && (s.request.Some? ==> t.storage.Rows? && FirstRow(t.storage.rows, p) == s.request)
    && (s.pending.Some? ==>
          s.pending.value < |t.posts| && t.posts[s.pending.value].page == t.page
          && t.posts[s.pending.value].request.preview == p)
    && (s.receipt.Some? ==> s.request.Some? && ReceiptMatches(s.receipt.value, s.request.value))
  }

  /** The request is the saved row of its preview. */
  predicate Stored(t: Tab, q: Request) { t.storage.Rows? && FirstRow(t.storage.rows, q.preview) == Some(q) }

  predicate PostOk(t: Tab, i: nat)
    requires i < |t.posts|
  {
    var post := t.posts[i];
    && Stored(t, post.request)
    && post.page <= t.page
    && (post.page == t.page ==>
          post.request.preview in t.sessions && t.sessions[post.request.preview].request == Some(post.request))
    && (post.open && post.page == t.page ==> t.sessions[post.request.preview].pending == Some(i))
  }

  predicate Inv(t: Tab) {
    && (forall p | p in t.sessions :: SessionOk(t, p))
    && forall i | 0 <= i < |t.posts| :: PostOk(t, i)
  }

  lemma {:induction false} FirstRowAppend(rows: seq<Request>, q: Request, p: nat)
    ensures FirstRow(rows + [q], p) ==
              if FirstRow(rows, p).Some? then FirstRow(rows, p) else if q.preview == p then Some(q) else None
  {
    if rows == [] {
      assert rows + [q] == [q] && [q][1..] == [];
    } else {
      FirstRowAppend(rows[1..], q, p);
      assert (rows + [q])[1..] == rows[1..] + [q];
    }
  }

  /** What saving guarantees: the request is the row of its preview, and no
      other row moved. */
  lemma SavedRows(storage: Storage, request: Request, writeOk: bool)
    ensures var saved := Saved(storage, request, writeOk);
            saved.Ok? ==>
              && storage.Rows? && FirstRow(saved.value, request.preview) == Some(request)
              && forall p | FirstRow(storage.rows, p).Some? :: FirstRow(saved.value, p) == FirstRow(storage.rows, p)
  {
    if storage.Rows? {
      forall p ensures FirstRow(storage.rows + [request], p) ==
                         if FirstRow(storage.rows, p).Some? then FirstRow(storage.rows, p)
                         else if request.preview == p then Some(request) else None
      {
        FirstRowAppend(storage.rows, request, p);
      }
    }
  }

  lemma SubmitKeeps(t: Tab, request: Request, writeOk: bool)
    requires Inv(t)
    ensures Inv(SubmitStep(t, request, writeOk))
  {
    SavedRows(t.storage, request, writeOk);
    var u := SubmitStep(t, request, writeOk);
    hide Saved, FirstRow, ReceiptMatches;
    if u != t {
      forall p | p in u.sessions ensures SessionOk(u, p) { assert SessionOk(t, p); }
      forall i | 0 <= i < |u.posts| ensures PostOk(u, i) {
        if i < |t.posts| { assert PostOk(t, i); }
      }
    }
  }

  lemma OpenKeeps(t: Tab, preview: nat)
    requires Inv(t)
    ensures Inv(OpenStep(t, preview))
  {
    var u := OpenStep(t, preview);
    hide FirstRow, ReceiptMatches;
    forall p | p in u.sessions ensures SessionOk(u, p) {
      if p in t.sessions { assert SessionOk(t, p); }
    }
    forall i | 0 <= i < |u.posts| ensures PostOk(u, i) { assert PostOk(t, i); }
  }

  lemma RespondKeeps(t: Tab, n: nat, receipt: Option<Receipt>)
    requires Inv(t)
    ensures Inv(RespondStep(t, n, receipt))
  {
    var u := RespondStep(t, n, receipt);
    hide FirstRow, ReceiptMatches;
    if n < |t.posts| { assert PostOk(t, n); }
    forall p | p in u.sessions ensures SessionOk(u, p) { assert SessionOk(t, p); }
    forall i | 0 <= i < |u.posts| ensures PostOk(u, i) { assert PostOk(t, i); }
  }

  lemma ClearKeeps(t: Tab, preview: nat)
    requires Inv(t)
    ensures Inv(ClearStep(t, preview))
  {
    var u := ClearStep(t, preview);
    hide FirstRow, ReceiptMatches;
    forall p | p in u.sessions ensures SessionOk(u, p) { assert SessionOk(t, p); }
    forall i | 0 <= i < |u.posts| ensures PostOk(u, i) { assert PostOk(t, i); }
  }

  lemma ApplyKeeps(t: Tab, step: Step)
    requires Inv(t)
    ensures Inv(Apply(t, step))
  {
    match step
    case Open(p) => OpenKeeps(t, p);
    case Submit(request, writeOk) => SubmitKeeps(t, request, writeOk);
    case Respond(i, receipt) => RespondKeeps(t, i, receipt);
    case Clear(p) => ClearKeeps(t, p);
    case Reload =>
      var u := Apply(t, step);
      forall i | 0 <= i < |u.posts| ensures PostOk(u, i) { assert PostOk(t, i); }
  }

  lemma {:induction false} RunKeeps(t: Tab, steps: seq<Step>)
    requires Inv(t)
    ensures Inv(Run(t, steps))
    decreases |steps|
  {
    hide Inv, Apply;
    if steps != [] {
      ApplyKeeps(t, steps[0]);
      RunKeeps(Apply(t, steps[0]), steps[1..]);
    }
  }

  // ---------- The theorems

  /** Across submits, failures and reloads, every POST for a preview carries the
      same request, the one in storage; and a loaded page has at most one POST
      for it in flight. */
  lemma OneFrozenRequest(storage: Storage, steps: seq<Step>)
    ensures var t := Run(Fresh(storage), steps);
            && (forall i, j | 0 <= i < j < |t.posts| && t.posts[i].request.preview == t.posts[j].request.preview ::
                  t.posts[i].request == t.posts[j].request)
            && (forall i | 0 <= i < |t.posts| :: Stored(t, t.posts[i].request))
            && forall i, j | 0 <= i < j < |t.posts| && t.posts[i].request.preview == t.posts[j].request.preview
                             && t.posts[i].page == t.page == t.posts[j].page ::
                 !(t.posts[i].open && t.posts[j].open)
  {
    hide Run, FirstRow, SessionOk;
    RunKeeps(Fresh(storage), steps);
    var t := Run(Fresh(storage), steps);
    forall i | 0 <= i < |t.posts|
      ensures Stored(t, t.posts[i].request)
    {
      assert PostOk(t, i);
    }
    forall i, j | 0 <= i < j < |t.posts| && t.posts[i].request.preview == t.posts[j].request.preview
      ensures t.posts[i].request == t.posts[j].request
      ensures t.posts[i].page == t.page == t.posts[j].page ==> !(t.posts[i].open && t.posts[j].open)
    {
      assert PostOk(t, i) && PostOk(t, j);
    }
  }

  /** A validated receipt ends the matter for the page. */
  predicate ReceiptHeld(t: Tab, u: Tab, p: nat) {
    && t.page <= u.page && |t.posts| <= |u.posts|
    && (u.page == t.page ==> p in u.sessions && u.sessions[p].receipt.Some?)
    && forall i | |t.posts| <= i < |u.posts| && u.posts[i].page == t.page :: u.posts[i].request.preview != p
  }

  lemma StepHolds(t: Tab, u: Tab, p: nat, step: Step)
    requires ReceiptHeld(t, u, p)
    ensures ReceiptHeld(t, Apply(u, step), p)
  {
    hide Saved, FirstRow, ReceiptMatches;
  }

  lemma {:induction false} RunHolds(t: Tab, u: Tab, p: nat, steps: seq<Step>)
    requires ReceiptHeld(t, u, p)
    ensures ReceiptHeld(t, Run(u, steps), p)
    decreases |steps|
  {
    hide ReceiptHeld, Apply;
    if steps != [] {
      StepHolds(t, u, p, steps[0]);
      RunHolds(t, Apply(u, steps[0]), p, steps[1..]);
    }
  }

  /** Once a page holds a validated receipt for a preview, that page sends no
      further POST for it, and the receipt matches the request that was sent. */
  lemma NoPostAfterReceipt(storage: Storage, steps: seq<Step>, more: seq<Step>, p: nat)
    requires p in Run(Fresh(storage), steps).sessions && Run(Fresh(storage), steps).sessions[p].receipt.Some?
    ensures var t := Run(Fresh(storage), steps);
            var u := Run(t, more);
            && (forall i | |t.posts| <= i < |u.posts| && u.posts[i].page == t.page :: u.posts[i].request.preview != p)
            && t.sessions[p].request.Some? && ReceiptMatches(t.sessions[p].receipt.value, t.sessions[p].request.value)
  {
    hide Run, FirstRow, ReceiptMatches;
    var t := Run(Fresh(storage), steps);
    RunKeeps(Fresh(storage), steps);
    assert SessionOk(t, p);
    RunHolds(t, t, p, more);
  }

  // ---------- what a submit does, and that a start can complete

  /** A submit sends one POST, with its own request, exactly when the page knows
      the preview and its saved row could be read, no other request was frozen
      for it, it can be saved, and there is neither a receipt nor a call in
      flight; otherwise it sends none. */
  lemma SubmitSendsIff(t: Tab, request: Request, writeOk: bool)
    ensures var u := SubmitStep(t, request, writeOk);
            var p := request.preview;
            var sends := && p in t.sessions && !t.sessions[p].broken
                         && (t.sessions[p].request == None || t.sessions[p].request == Some(request))
                         && t.storage.Rows? && writeOk
                         && (FirstRow(t.storage.rows, p) == None || FirstRow(t.storage.rows, p) == Some(request))
                         && t.sessions[p].receipt == None && t.sessions[p].pending == None;
            && u.posts == t.posts + (if sends then [Post(t.page, request, true)] else [])
            && (sends ==> u.sessions == t.sessions[p := t.sessions[p].(request := Some(request), pending := Some(|t.posts|))]
                          && u.storage == Rows(if FirstRow(t.storage.rows, p).Some? then t.storage.rows
                                               else t.storage.rows + [request]))
  {
    hide FirstRow;
  }

  /** Every field of the receipt that must agree with the request. */
  predicate Agrees(r: Receipt, q: Request) {
    r == Receipt(q.preview, q.planHash, q.actor, q.key, q.identity, true, false, r.intent, r.round, true)
    && r.intent != None && r.round != None
  }

  /** A restart: the page is loaded anew, the preview opened, the request
      submitted, its call answered, and the call cleared. */
  function Restart(t: Tab, q: Request, answer: Option<Receipt>): seq<Step> {
    [Reload, Open(q.preview), Submit(q, true), Respond(|t.posts|, answer), Clear(q.preview)]
  }

  /** After any run a restart ends with the receipt on the page exactly when the
      storage can be read, holds no other request for the preview, and the
      receipt agrees with the request; then nothing is left in flight. */
  lemma RestartCompletesIff(storage: Storage, steps: seq<Step>, q: Request, answer: Option<Receipt>)
    ensures var t := Run(Fresh(storage), steps);
            var u := Run(t, Restart(t, q, answer));
            var free := Free(t, q);
            && q.preview in u.sessions && u.sessions[q.preview].pending == None
            && u.sessions[q.preview].broken == (t.storage == Corrupt)
            && u.sessions[q.preview].receipt
                 == (if free && answer.Some? && Agrees(answer.value, q) then answer else None)
            && u.posts == t.posts + (if free then [Post(t.page + 1, q, false)] else [])
  {
    hide Run, FirstRow, Apply;
    var t := Run(Fresh(storage), steps);
    FiveSteps(t, Restart(t, q, answer));
    Submitted(t, q);
    Answered(t, Apply(Apply(Apply(t, Reload), Open(q.preview)), Submit(q, true)), q, answer);
  }

  /** The storage can be read and holds no other request for the preview. */
  predicate Free(t: Tab, q: Request) {
    t.storage.Rows? && (FirstRow(t.storage.rows, q.preview) == None || FirstRow(t.storage.rows, q.preview) == Some(q))
  }

  /** After the submit the call is in flight, or nothing was sent. */
  predicate Asked(t: Tab, c: Tab, q: Request) {
    && q.preview in c.sessions && c.page == t.page + 1
    && c.sessions[q.preview].broken == (t.storage == Corrupt) && c.sessions[q.preview].receipt == None
    && c.sessions[q.preview].pending == (if Free(t, q) then Some(|t.posts|) else None)
    && c.posts == t.posts + (if Free(t, q) then [Post(t.page + 1, q, true)] else [])
  }

  lemma Submitted(t: Tab, q: Request)
    ensures Asked(t, Apply(Apply(Apply(t, Reload), Open(q.preview)), Submit(q, true)), q)
  {
    hide FirstRow;
    RowIs(t, q.preview);
    SubmitSendsIff(Apply(Apply(t, Reload), Open(q.preview)), q, true);
  }

  lemma Answered(t: Tab, c: Tab, q: Request, answer: Option<Receipt>)
    requires Asked(t, c, q)
    ensures var u := Apply(Apply(c, Respond(|t.posts|, answer)), Clear(q.preview));
            var free := Free(t, q);
            && q.preview in u.sessions && u.sessions[q.preview].pending == None
            && u.sessions[q.preview].broken == (t.storage == Corrupt)
            && u.sessions[q.preview].receipt
                 == (if free && answer.Some? && Agrees(answer.value, q) then answer else None)
            && u.posts == t.posts + (if free then [Post(t.page + 1, q, false)] else [])
  {
    hide FirstRow, Free;
    assert |c.posts| > |t.posts| ==> c.posts[|t.posts|] == Post(t.page + 1, q, true);
  }

  lemma RowIs(t: Tab, p: nat)
    ensures t.storage.Rows? && FirstRow(t.storage.rows, p).Some? ==> FirstRow(t.storage.rows, p).value.preview == p
  {
    if t.storage.Rows? { RowNamed(t.storage.rows, p); }
  }

  lemma {:induction false} RowNamed(rows: seq<Request>, p: nat)
    ensures FirstRow(rows, p).Some? ==> FirstRow(rows, p).value.preview == p && FirstRow(rows, p).value in rows
  {
    if rows != [] { RowNamed(rows[1..], p); }
  }

  lemma FiveSteps(t: Tab, steps: seq<Step>)
    requires |steps| == 5
    ensures Run(t, steps) == Apply(Apply(Apply(Apply(Apply(t, steps[0]), steps[1]), steps[2]), steps[3]), steps[4])
  {
    hide Apply;
    OneStep(t, steps);
    var b := Apply(t, steps[0]);
    OneStep(b, steps[1..]);
    var c := Apply(b, steps[1]);
    OneStep(c, steps[1..][1..]);
    var d := Apply(c, steps[2]);
    OneStep(d, steps[1..][1..][1..]);
    var e := Apply(d, steps[3]);
    OneStep(e, steps[1..][1..][1..][1..]);
    assert steps[1..][1..][1..][1..][1..] == [];
  }

  lemma OneStep(t: Tab, steps: seq<Step>)
    requires steps != []
    ensures Run(t, steps) == Run(Apply(t, steps[0]), steps[1..])
    ensures Run(t, []) == t
  {
    hide Apply;
  }
}
