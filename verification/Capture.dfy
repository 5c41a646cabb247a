/** Two reader threads share byte counters under one lock. */
module Capture {
  import opened Text
  import opened Octets

  datatype Stream = Stdout | Stderr

  datatype Reason = StreamLimit(stream: Stream) | TotalLimit

  datatype Limits = Limits(stdout: nat, stderr: nat, total: nat)
  {
    function For(s: Stream): nat { if s == Stdout then stdout else stderr }
  }

  /** What one reader owns, and what both share. */
  datatype Local = Local(content: Bytes, read: nat)

  datatype Shared = Shared(total: nat, reason: Option<Reason>, overflow: bool)

  function Prefix(s: Bytes, n: nat): Bytes { if |s| <= n then s else s[..n] }

  /** The reader's locked section, as a function. */
  function TakeLocal(limit: nat, mine: Local, chunk: Bytes): Local {
    Local(mine.content + Prefix(chunk, if limit > |mine.content| then limit - |mine.content| else 0),
          mine.read + |chunk|)
  }

  function TakeShared(s: Stream, limit: nat, totalLimit: nat, read: nat, ours: Shared, chunk: Bytes): Shared {
    var total := ours.total + |chunk|;
    var first := if read > limit && ours.reason == None then Some(StreamLimit(s)) else ours.reason;
    var second := if total > totalLimit && first == None then Some(TotalLimit) else first;
    Shared(total, second, ours.overflow || second != ours.reason)
  }

  class CapturedStream {
    var content: Bytes
    var bytesRead: nat

    constructor ()
      ensures View() == Local([], 0)
    {
      content := [];
      bytesRead := 0;
    }

    function View(): Local
      reads this
    {
      Local(content, bytesRead)
    }
  }

  class OutputState {
    var overflow: bool
    var totalBytes: nat
    var overflowReason: Option<Reason>

    constructor ()
      ensures View() == Shared(0, None, false)
    {
      overflow := false;
      totalBytes := 0;
      overflowReason := None;
    }

    function View(): Shared
      reads this
    {
      Shared(totalBytes, overflowReason, overflow)
    }
  }

  /** What `_capture_stream` does while it holds the lock. */
  method TakeChunk(s: Stream, limit: nat, totalLimit: nat, captured: CapturedStream, state: OutputState, chunk: Bytes)
    modifies captured, state
    ensures captured.View() == TakeLocal(limit, old(captured.View()), chunk)
    ensures state.View() == TakeShared(s, limit, totalLimit, captured.bytesRead, old(state.View()), chunk)
  {
    captured.bytesRead := captured.bytesRead + |chunk|;
    state.totalBytes := state.totalBytes + |chunk|;
    var remaining := if limit > |captured.content| then limit - |captured.content| else 0;
    captured.content := captured.content + Prefix(chunk, remaining);
    if captured.bytesRead > limit && state.overflowReason == None {
      state.overflowReason := Some(StreamLimit(s));
      state.overflow := true;
    }
    if state.totalBytes > totalLimit && state.overflowReason == None {
      state.overflowReason := Some(TotalLimit);
      state.overflow := true;
    }
  }

  // ---------- Every interleaving of the two readers

  datatype Event = Event(stream: Stream, chunk: Bytes)

  datatype Captures = Captures(out: Local, err: Local, shared: Shared)
  {
    function Of(s: Stream): Local { if s == Stdout then out else err }
  }

  function Step(l: Limits, c: Captures, e: Event): Captures {
    var mine := TakeLocal(l.For(e.stream), c.Of(e.stream), e.chunk);
    var shared := TakeShared(e.stream, l.For(e.stream), l.total, mine.read, c.shared, e.chunk);
    match e.stream
    case Stdout => Captures(mine, c.err, shared)
    case Stderr => Captures(c.out, mine, shared)
  }

  /** The state after the locked sections ran in this order. */
  function After(l: Limits, events: seq<Event>): Captures {
    if events == [] then Captures(Local([], 0), Local([], 0), Shared(0, None, false))
    else Step(l, After(l, events[..|events| - 1]), events[|events| - 1])
  }

  /** All the bytes one stream delivered. */
  function Delivered(events: seq<Event>, s: Stream): Bytes {
    if events == [] then []
    else
      var e := events[|events| - 1];
      Delivered(events[..|events| - 1], s) + if e.stream == s then e.chunk else []
  }

  predicate Exceeds(l: Limits, out: nat, err: nat) { out > l.stdout || err > l.stderr || out + err > l.total }

  lemma TakeLocalPrefix(limit: nat, mine: Local, sofar: Bytes, chunk: Bytes)
    requires mine == Local(Prefix(sofar, limit), |sofar|)
    ensures TakeLocal(limit, mine, chunk) == Local(Prefix(sofar + chunk, limit), |sofar + chunk|)
  {
    if |sofar| > limit {
      assert (sofar + chunk)[..limit] == sofar[..limit] + chunk[..0];
    } else if |sofar + chunk| > limit {
      assert (sofar + chunk)[..limit] == sofar + chunk[..limit - |sofar|];
    }
  }

  /** What is true of the captures, given what was delivered. */
  predicate Faithful(l: Limits, c: Captures, out: Bytes, err: Bytes) {
    && c.out == Local(Prefix(out, l.stdout), |out|)
    && c.err == Local(Prefix(err, l.stderr), |err|)
    && c.shared.total == |out| + |err|
    && (c.shared.overflow <==> c.shared.reason.Some?)
    && (c.shared.reason.Some? <==> Exceeds(l, |out|, |err|))
    && (c.shared.reason == Some(StreamLimit(Stdout)) ==> |out| > l.stdout)
    && (c.shared.reason == Some(StreamLimit(Stderr)) ==> |err| > l.stderr)
    && (c.shared.reason == Some(TotalLimit) ==> |out| + |err| > l.total)
  }

  lemma StepFaithful(l: Limits, c: Captures, out: Bytes, err: Bytes, e: Event)
    requires Faithful(l, c, out, err)
    ensures Faithful(l, Step(l, c, e), if e.stream == Stdout then out + e.chunk else out,
                     if e.stream == Stderr then err + e.chunk else err)
  {
    hide Prefix;
    match e.stream
    case Stdout => TakeLocalPrefix(l.stdout, c.out, out, e.chunk);
    case Stderr => TakeLocalPrefix(l.stderr, c.err, err, e.chunk);
  }

  /** In every interleaving each capture is the prefix of its stream cut at its
      limit, the total is the sum, and an overflow reason is set exactly when
      some limit was passed. */
  lemma {:induction false} CaptureExact(l: Limits, events: seq<Event>)
    ensures Faithful(l, After(l, events), Delivered(events, Stdout), Delivered(events, Stderr))
  {
    hide Faithful, Step;
    if events == [] {
      NothingRead(l);
    } else {
      var n := |events| - 1;
      CaptureExact(l, events[..n]);
      var out, err := Delivered(events[..n], Stdout), Delivered(events[..n], Stderr);
      StepFaithful(l, After(l, events[..n]), out, err, events[n]);
      assert out + [] == out && err + [] == err;
    }
  }

  lemma NothingRead(l: Limits)
    ensures Faithful(l, After(l, []), [], [])
  {
  }

  /** Which thread got the lock first shows only in the reason's name. */
  lemma InterleavingsAgree(l: Limits, a: seq<Event>, b: seq<Event>)
    requires Delivered(a, Stdout) == Delivered(b, Stdout) && Delivered(a, Stderr) == Delivered(b, Stderr)
    ensures var c, d := After(l, a), After(l, b);
            && c.out == d.out && c.err == d.err && c.shared.total == d.shared.total
            && c.shared.overflow == d.shared.overflow && c.shared.reason.Some? == d.shared.reason.Some?
  {
    hide After, Delivered;
    CaptureExact(l, a);
    CaptureExact(l, b);
  }

  /** Deliveries only grow, and so do the counters; a reason, once set, stays. */
  lemma {:induction false} Grows(l: Limits, events: seq<Event>, n: nat)
    requires n <= |events|
    ensures After(l, events[..n]).shared.reason.Some? ==>
              After(l, events).shared.reason == After(l, events[..n]).shared.reason
    ensures |Delivered(events[..n], Stdout)| <= |Delivered(events, Stdout)|
    ensures |Delivered(events[..n], Stderr)| <= |Delivered(events, Stderr)|
    decreases |events|
  {
    hide Prefix;
    if n < |events| {
      var m := |events| - 1;
      Grows(l, events[..m], n);
      assert events[..m][..n] == events[..n];
    } else {
      assert events[..n] == events;
    }
  }
}
