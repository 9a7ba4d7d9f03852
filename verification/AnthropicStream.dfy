/** The fold from Anthropic's server-sent events to chat chunks. */
module AnthropicStream {

  /** One decoded `data:` line; `Ignored` is every line the reader skips or whose type is unknown. */
  datatype Event =
    | MessageStart(id: string, model: string, inputTokens: int)
    | ContentDelta(text: string)
    | MessageDelta(hasUsage: bool, outputTokens: int)
    | MessageStop
    | Ignored

  /** How reading ends when no stop event was seen. */
  datatype End = Eof | ReadError

  datatype Chunk =
    | Delta(id: string, model: string, text: string)
    | Final(id: string, model: string, input: int, output: int, total: int)
    | Failure

  /** The event asks for a channel send. */
  predicate Sends(e: Event) {
    (e.ContentDelta? && e.text != "") || e.MessageStop?
  }

  // ----- the fold -----

  /** The reader's variables after some events. */
  datatype Acc = Acc(id: string, model: string, input: int, output: int, chunks: seq<Chunk>, stopped: bool)

  function Step(a: Acc, e: Event): Acc {
    if a.stopped then a
    else
      match e
      case MessageStart(id, model, n) => a.(id := id, model := model, input := n)
      case ContentDelta(text) => if text != "" then a.(chunks := a.chunks + [Delta(a.id, a.model, text)]) else a
      case MessageDelta(hasUsage, n) => if hasUsage then a.(output := n) else a
      case MessageStop =>
        a.(chunks := a.chunks + [Final(a.id, a.model, a.input, a.output, a.input + a.output)], stopped := true)
      case Ignored => a
  }

  function Run(events: seq<Event>): Acc {
    if events == [] then Acc("", "", 0, 0, [], false)
    else Step(Run(events[..|events| - 1]), events[|events| - 1])
  }

  /** Every send before event `k` went through. */
  ghost predicate Passed(events: seq<Event>, open: seq<bool>, k: nat)
    requires k <= |events| == |open|
  {
    forall i :: 0 <= i < k && Sends(events[i]) && !Run(events[..i]).stopped ==> open[i]
  }

  /** `k` is where the stream was given up: its event wanted to send and the context was done. */
  ghost predicate GivenUpAt(events: seq<Event>, open: seq<bool>, k: nat) {
    && k <= |events| == |open|
    && Passed(events, open, k)
    && (k < |events| ==> Sends(events[k]) && !open[k] && !Run(events[..k]).stopped)
  }

  /** A read error is reported unless a stop came first or the context is done. */
  function Trailer(events: seq<Event>, k: nat, end: End, cancelled: bool): seq<Chunk> {
    if k == |events| && !Run(events).stopped && end == ReadError && !cancelled then [Failure] else []
  }

  /** What a client may receive: everything up to where the stream was given up, and the trailer. */
  ghost predicate Received(events: seq<Event>, open: seq<bool>, end: End, cancelled: bool, out: seq<Chunk>) {
    exists k: nat :: GivenUpAt(events, open, k) && out == Run(events[..k]).chunks + Trailer(events, k, end, cancelled)
  }

  /**
   * `open[i]` tells whether a send at event `i` goes through (otherwise the select takes the done
   * branch), `cancelled` whether the context is done when reading ends.
   */
  method StreamChat(events: seq<Event>, open: seq<bool>, end: End, cancelled: bool) returns (out: seq<Chunk>)
    requires |open| == |events|
    ensures Received(events, open, end, cancelled, out)
  {
    out := [];
    var msgId, model, inputTokens, outputTokens := "", "", 0, 0;
    for i := 0 to |events|
      invariant Run(events[..i]) == Acc(msgId, model, inputTokens, outputTokens, out, false)
      invariant Passed(events, open, i)
    {
      Advance(events, open, end, cancelled, i);
      match events[i] {
        case MessageStart(id, name, n) =>
          msgId, model, inputTokens := id, name, n;
        case ContentDelta(text) =>
          if text != "" {
            if !open[i] {
              return;
            }
            out := out + [Delta(msgId, model, text)];
          }
        case MessageDelta(hasUsage, n) =>
          if hasUsage {
            outputTokens := n;
          }
        case MessageStop =>
          if !open[i] {
            return;
          }
          out := out + [Final(msgId, model, inputTokens, outputTokens, inputTokens + outputTokens)];
          AfterStop(events, open, end, cancelled, i);
          return;
        case Ignored =>
      }
    }
    assert events[..|events|] == events;
    ReadToTheEnd(events, open, end, cancelled);
    out := out + (if end == ReadError && !cancelled then [Failure] else []);
  }

  /** Event `i` is read: either it is given up, or it is folded in and every send so far went through. */
  lemma Advance(events: seq<Event>, open: seq<bool>, end: End, cancelled: bool, i: nat)
    requires i < |events| == |open| && Passed(events, open, i) && !Run(events[..i]).stopped
    ensures Run(events[..i + 1]) == Step(Run(events[..i]), events[i])
    ensures if Sends(events[i]) && !open[i] then Received(events, open, end, cancelled, Run(events[..i]).chunks)
            else Passed(events, open, i + 1)
  {
    assert events[..i + 1][..i] == events[..i];
    if Sends(events[i]) && !open[i] {
      GivingUp(events, open, end, cancelled, i);
    }
  }

  lemma GivingUp(events: seq<Event>, open: seq<bool>, end: End, cancelled: bool, i: nat)
    requires GivenUpAt(events, open, i) && i < |events|
    ensures Received(events, open, end, cancelled, Run(events[..i]).chunks)
  {
    assert Run(events[..i]).chunks == Run(events[..i]).chunks + Trailer(events, i, end, cancelled);
  }

  lemma ReadToTheEnd(events: seq<Event>, open: seq<bool>, end: End, cancelled: bool)
    requires |open| == |events| && Passed(events, open, |events|)
    ensures Received(events, open, end, cancelled,
                     Run(events).chunks
                     + (if !Run(events).stopped && end == ReadError && !cancelled then [Failure] else []))
    ensures Run(events).stopped ==> Received(events, open, end, cancelled, Run(events).chunks)
  {
    assert events[..|events|] == events;
    assert GivenUpAt(events, open, |events|);
    assert Run(events).chunks + [] == Run(events).chunks;
  }

  lemma {:induction false} StoppedForever(events: seq<Event>, i: nat, j: nat)
    requires i <= j <= |events| && Run(events[..i]).stopped
    ensures Run(events[..j]) == Run(events[..i])
  {
    if i < j {
      StoppedForever(events, i, j - 1);
      assert events[..j][..j - 1] == events[..j - 1];
    }
  }

  lemma AfterStop(events: seq<Event>, open: seq<bool>, end: End, cancelled: bool, i: nat)
    requires i < |events| == |open| && Run(events[..i + 1]).stopped && Passed(events, open, i + 1)
    ensures Received(events, open, end, cancelled, Run(events[..i + 1]).chunks)
  {
    assert events[..|events|] == events;
    StoppedForever(events, i + 1, |events|);
    forall j | i < j < |events| ensures Run(events[..j]).stopped {
      StoppedForever(events, i + 1, j);
    }
    ReadToTheEnd(events, open, end, cancelled);
  }

  // ----- the reference: everything before the first stop -----

  function BeforeStop(events: seq<Event>): seq<Event> {
    if events == [] || events[0].MessageStop? then [] else [events[0]] + BeforeStop(events[1..])
  }

  ghost predicate HasStop(events: seq<Event>) {
    exists i :: 0 <= i < |events| && events[i].MessageStop?
  }

  function Text(events: seq<Event>): string {
    if events == [] then ""
    else
      var n := |events| - 1;
      Text(events[..n]) + (if events[n].ContentDelta? then events[n].text else "")
  }

  /** The last announced values; a stream that announces none counts from zero. */
  function LastStart(events: seq<Event>): (string, string, int) {
    if events == [] then ("", "", 0)
    else
      var n := |events| - 1;
      if events[n].MessageStart? then (events[n].id, events[n].model, events[n].inputTokens) else LastStart(events[..n])
  }

  function LastUsage(events: seq<Event>): int {
    if events == [] then 0
    else
      var n := |events| - 1;
      if events[n].MessageDelta? && events[n].hasUsage then events[n].outputTokens else LastUsage(events[..n])
  }

  function Deltas(events: seq<Event>): seq<Chunk> {
    if events == [] then []
    else
      var n := |events| - 1;
      var start := LastStart(events[..n]);
      Deltas(events[..n])
      + (if events[n].ContentDelta? && events[n].text != "" then [Delta(start.0, start.1, events[n].text)] else [])
  }

  function FinalFor(events: seq<Event>): Chunk {
    var start := LastStart(events);
    Final(start.0, start.1, start.2, LastUsage(events), start.2 + LastUsage(events))
  }

  /** The text a client reads off its chunks. */
  function Heard(chunks: seq<Chunk>): string {
    if chunks == [] then ""
    else
      var n := |chunks| - 1;
      Heard(chunks[..n]) + (if chunks[n].Delta? then chunks[n].text else "")
  }

  lemma {:induction false} BeforeStopSnoc(events: seq<Event>, e: Event)
    ensures HasStop(events + [e]) <==> HasStop(events) || e.MessageStop?
    ensures BeforeStop(events + [e])
         == if HasStop(events) then BeforeStop(events) else if e.MessageStop? then events else events + [e]
  {
    HasStopSnoc(events, e);
    if events == [] {
      assert [e][1..] == [];
    } else if !events[0].MessageStop? {
      BeforeStopSnoc(events[1..], e);
      HasStopTail(events);
      assert (events + [e])[1..] == events[1..] + [e];
    }
  }

  lemma HasStopSnoc(events: seq<Event>, e: Event)
    ensures HasStop(events + [e]) <==> HasStop(events) || e.MessageStop?
  {
    assert (events + [e])[|events|] == e;
    assert forall i :: 0 <= i < |events| ==> (events + [e])[i] == events[i];
  }

  lemma HasStopTail(events: seq<Event>)
    requires events != []
    ensures HasStop(events) <==> events[0].MessageStop? || HasStop(events[1..])
  {
    assert forall i :: 0 < i < |events| ==> events[1..][i - 1] == events[i];
  }

  /** The reader's variables, read off the events `b` before any stop. */
  function Reference(b: seq<Event>, stopped: bool): Acc {
    var start := LastStart(b);
    Acc(start.0, start.1, start.2, LastUsage(b), Deltas(b) + (if stopped then [FinalFor(b)] else []), stopped)
  }

  lemma ReferenceStep(b: seq<Event>, e: Event)
    ensures Step(Reference(b, false), e) == if e.MessageStop? then Reference(b, true) else Reference(b + [e], false)
  {
    var c := b + [e];
    assert c[..|b|] == b && c[|b|] == e;
    assert Deltas(b) + [] == Deltas(b);
  }

  /** The fold is the reference on the events before the first stop, closed by one usage chunk if there is a stop. */
  lemma {:induction false} RunExactly(events: seq<Event>)
    ensures Run(events) == Reference(BeforeStop(events), HasStop(events))
  {
    if events != [] {
      var n := |events| - 1;
      RunExactly(events[..n]);
      assert events == events[..n] + [events[n]];
      BeforeStopSnoc(events[..n], events[n]);
      NoStopIsWhole(events[..n]);
      ReferenceStep(events[..n], events[n]);
    }
  }

  lemma {:induction false} NoStopIsWhole(events: seq<Event>)
    ensures !HasStop(events) ==> BeforeStop(events) == events
  {
    if events != [] && !HasStop(events) {
      HasStopTail(events);
      NoStopIsWhole(events[1..]);
    }
  }

  // ----- an ordinary stream, written out -----

  function TextEvents(texts: seq<string>): seq<Event> {
    seq(|texts|, i requires 0 <= i < |texts| => ContentDelta(texts[i]))
  }

  function TextChunks(id: string, model: string, texts: seq<string>): seq<Chunk> {
    seq(|texts|, i requires 0 <= i < |texts| => Delta(id, model, texts[i]))
  }

  lemma {:induction false} TextsPass(id: string, model: string, input: int, texts: seq<string>)
    requires forall i :: 0 <= i < |texts| ==> texts[i] != ""
    ensures Run([MessageStart(id, model, input)] + TextEvents(texts))
         == Acc(id, model, input, 0, TextChunks(id, model, texts), false)
  {
    var start := [MessageStart(id, model, input)];
    if texts == [] {
      assert start + TextEvents(texts) == start && start[..0] == [];
    } else {
      var n := |texts| - 1;
      var events := start + TextEvents(texts);
      TextsPass(id, model, input, texts[..n]);
      assert events[..n + 1] == start + TextEvents(texts[..n]) && events[n + 1] == ContentDelta(texts[n]);
      assert TextChunks(id, model, texts) == TextChunks(id, model, texts[..n]) + [Delta(id, model, texts[n])];
    }
  }

  lemma RunSnoc(events: seq<Event>, e: Event)
    ensures Run(events + [e]) == Step(Run(events), e)
  {
    assert (events + [e])[..|events|] == events;
  }

  /**
   * A start, any texts, the usage and a stop: the client gets each text under the announced id and
   * model, in order, and at the end the tokens in, the tokens out, and their sum.
   */
  lemma OrdinaryStream(id: string, model: string, input: int, texts: seq<string>, output: int)
    requires forall i :: 0 <= i < |texts| ==> texts[i] != ""
    ensures var events := [MessageStart(id, model, input)] + TextEvents(texts) + [MessageDelta(true, output)]
                          + [MessageStop];
      Run(events).chunks == TextChunks(id, model, texts) + [Final(id, model, input, output, input + output)]
  {
    var body := [MessageStart(id, model, input)] + TextEvents(texts);
    TextsPass(id, model, input, texts);
    RunSnoc(body, MessageDelta(true, output));
    RunSnoc(body + [MessageDelta(true, output)], MessageStop);
  }

  // ----- what a client receives -----

  lemma {:induction false} DeltasSpellText(events: seq<Event>)
    ensures Heard(Deltas(events)) == Text(events)
    ensures forall c :: c in Deltas(events) ==> c.Delta?
  {
    if events != [] {
      var n := |events| - 1;
      var before, start := Deltas(events[..n]), LastStart(events[..n]);
      DeltasSpellText(events[..n]);
      if events[n].ContentDelta? && events[n].text != "" {
        HeardSnoc(before, Delta(start.0, start.1, events[n].text));
      } else {
        assert before + [] == before && Text(events[..n]) + "" == Text(events[..n]);
      }
    }
  }

  lemma HeardSnoc(chunks: seq<Chunk>, c: Chunk)
    ensures Heard(chunks + [c]) == Heard(chunks) + (if c.Delta? then c.text else "")
  {
    assert (chunks + [c])[..|chunks|] == chunks;
  }

  lemma HeardWithTrailer(b: seq<Event>, last: Chunk)
    requires !last.Delta?
    ensures Heard(Deltas(b) + [last]) == Text(b)
  {
    DeltasSpellText(b);
    HeardSnoc(Deltas(b), last);
  }

  /** The reference describes an uninterrupted stream completely. */
  lemma UninterruptedStream(events: seq<Event>, open: seq<bool>, end: End, cancelled: bool, out: seq<Chunk>)
    requires Received(events, open, end, cancelled, out)
    requires forall i :: 0 <= i < |open| ==> open[i]
    ensures var b := BeforeStop(events);
            && Heard(out) == Text(b)
            && (HasStop(events) ==> out == Deltas(b) + [FinalFor(b)])
            && (!HasStop(events) ==> out == Deltas(b) + (if end == ReadError && !cancelled then [Failure] else []))
  {
    var k: nat :| GivenUpAt(events, open, k) && out == Run(events[..k]).chunks + Trailer(events, k, end, cancelled);
    var b := BeforeStop(events);
    assert events[..k] == events;
    RunExactly(events);
    DeltasSpellText(b);
    assert Deltas(b) + [] == Deltas(b);
    if HasStop(events) {
      HeardWithTrailer(b, FinalFor(b));
      assert Trailer(events, k, end, cancelled) == [];
      assert out == Deltas(b) + [FinalFor(b)];
    } else {
      HeardWithTrailer(b, Failure);
    }
  }

  lemma {:induction false} RunGrows(events: seq<Event>, k: nat)
    requires k <= |events|
    ensures Run(events[..k]).chunks <= Run(events).chunks
  {
    if k < |events| {
      var n := |events| - 1;
      RunGrows(events[..n], k);
      assert events[..n][..k] == events[..k];
    } else {
      assert events[..k] == events;
    }
  }

  /**
   * A stream of `events` ending in `end`, of which only the first `k` events are read because the
   * context is done, whether that stops a send or a read: the client has a prefix of what an
   * uncancelled reader of the whole stream would have sent.
   */
  lemma CancelledIsPrefix(
    events: seq<Event>, end: End, k: nat, open: seq<bool>, cut: End, cancelled: bool, out: seq<Chunk>)
    requires k <= |events| && Received(events[..k], open, cut, cancelled, out)
    requires cancelled || (k == |events| && cut == end)
    ensures out <= Run(events).chunks + Trailer(events, |events|, end, false)
  {
    var read := events[..k];
    var j: nat :| GivenUpAt(read, open, j) && out == Run(read[..j]).chunks + Trailer(read, j, cut, cancelled);
    assert read[..j] == events[..j];
    RunGrows(events, j);
    if !cancelled {
      assert read == events;
      assert events[..|events|] == events;
    }
  }

  /** Delta chunks, then at most one chunk of another kind. */
  ghost predicate DeltasThen(out: seq<Chunk>, last: seq<Chunk>) {
    exists deltas :: out == deltas + last && |last| <= 1 && forall c :: c in deltas ==> c.Delta?
  }

  function Closing(events: seq<Event>): seq<Chunk> {
    if Run(events).stopped then [FinalFor(BeforeStop(events))] else []
  }

  lemma RunShape(events: seq<Event>)
    ensures DeltasThen(Run(events).chunks, Closing(events))
    ensures Run(events).stopped ==> HasStop(events)
  {
    RunExactly(events);
    DeltasSpellText(BeforeStop(events));
    assert Run(events).chunks == Deltas(BeforeStop(events)) + Closing(events);
  }

  ghost predicate Honest(events: seq<Event>, last: seq<Chunk>) {
    forall c :: c in last && c.Final? ==> HasStop(events) && c.total == c.input + c.output
  }

  lemma ClosingIsHonest(events: seq<Event>, k: nat)
    requires k <= |events|
    ensures Honest(events, Closing(events[..k]))
  {
    RunShape(events[..k]);
    if i :| 0 <= i < k && events[..k][i].MessageStop? {
      assert events[i].MessageStop?;
    }
  }

  lemma FailureAfterDeltas(chunks: seq<Chunk>)
    requires DeltasThen(chunks, [])
    ensures DeltasThen(chunks + [Failure], [Failure])
  {
    var deltas: seq<Chunk> :| chunks == deltas + [] && forall c :: c in deltas ==> c.Delta?;
    assert chunks + [Failure] == deltas + [Failure];
  }

  ghost predicate UsageLast(events: seq<Event>, out: seq<Chunk>) {
    exists last: seq<Chunk> :: DeltasThen(out, last) && Honest(events, last)
  }

  lemma ReceivedShape(events: seq<Event>, k: nat, end: End, cancelled: bool)
    requires k <= |events|
    ensures UsageLast(events, Run(events[..k]).chunks + Trailer(events, k, end, cancelled))
  {
    RunShape(events[..k]);
    ClosingIsHonest(events, k);
    var out, trailer := Run(events[..k]).chunks, Trailer(events, k, end, cancelled);
    if trailer == [] {
      assert out + trailer == out;
    } else {
      assert events[..k] == events;
      FailureAfterDeltas(out);
      assert Honest(events, [Failure]);
    }
  }

  /** Usage is reported at most once, last, only after a stop, and its total is the sum of its parts. */
  lemma UsageComesLast(events: seq<Event>, open: seq<bool>, end: End, cancelled: bool, out: seq<Chunk>)
    requires Received(events, open, end, cancelled, out)
    ensures UsageLast(events, out)
  {
    var k: nat :| GivenUpAt(events, open, k) && out == Run(events[..k]).chunks + Trailer(events, k, end, cancelled);
    ReceivedShape(events, k, end, cancelled);
  }
}
