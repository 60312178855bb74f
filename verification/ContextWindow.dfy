/** The window of live messages: what no longer fits is compacted into summaries, under independent caps. */
module ContextWindow {
  import opened Prelude
  import opened Utf8Text
  import opened WholeNumbers

  const MAX_CONTEXT_MESSAGE_BYTES: nat := 256 * 1024
  const MAX_CONTEXT_SUMMARY_BYTES: nat := 256 * 1024
  const MAX_COMPACTED_SUMMARIES: nat := 32
  const MAX_PENDING_COMPACTIONS: nat := 8

  datatype Role = System | User | Assistant | Tool

  datatype Message = Message(role: Role, content: Bytes, name: Option<Bytes>)

  /** A summary of messages that left the window; `digest` stands for everything read out of their texts. */
  datatype Compaction = Compaction(sequence: nat, messageCount: nat, digest: Bytes, memoryId: Option<Bytes>)

  /** How a text is cut to a number of bytes, and what is read out of the messages of a chunk. */
  datatype Texts = Texts(bound: (Bytes, nat) -> Bytes, digest: seq<Message> -> Bytes)

  ghost predicate Bounds(texts: Texts) {
    forall value: Bytes, maxBytes: nat ::
      && |texts.bound(value, maxBytes)| <= maxBytes
      && (|value| <= maxBytes ==> texts.bound(value, maxBytes) == value)
  }

  function BoundMessage(texts: Texts, m: Message): Message {
    m.(content := texts.bound(m.content, MAX_CONTEXT_MESSAGE_BYTES))
  }

  function BoundAll(texts: Texts, messages: seq<Message>): (bounded: seq<Message>)
    ensures |bounded| == |messages|
  {
    if messages == [] then []
    else BoundAll(texts, messages[..|messages| - 1]) + [BoundMessage(texts, messages[|messages| - 1])]
  }

  predicate MessagesWithin(messages: seq<Message>) {
    forall i :: 0 <= i < |messages| ==> |messages[i].content| <= MAX_CONTEXT_MESSAGE_BYTES
  }

  lemma {:induction false} BoundAllExact(texts: Texts, messages: seq<Message>)
    requires Bounds(texts)
    ensures MessagesWithin(BoundAll(texts, messages))
    ensures BoundAll(texts, messages) == messages <==> MessagesWithin(messages)
  {
    if messages != [] {
      var front, last := messages[..|messages| - 1], messages[|messages| - 1];
      BoundAllExact(texts, front);
      assert messages == front + [last];
      assert BoundMessage(texts, last) == last <==> |last.content| <= MAX_CONTEXT_MESSAGE_BYTES;
    }
  }

  // ---------------------------------------------------------------- the window as a value

  /** `chunks` logs the messages handed to each compaction. */
  datatype Window = Window(
    summary: Bytes,
    messages: seq<Message>,
    summaries: seq<Compaction>,
    pending: seq<Compaction>,
    chunks: seq<seq<Message>>)

  /** The number of messages the window may hold. */
  function Limit(maxMessages: nat): (limit: nat)
    ensures limit >= 1
  {
    Max(maxMessages, 1)
  }

  /** The number of messages it holds right after a compaction. */
  function Keep(maxMessages: nat): (keep: nat)
    ensures 1 <= keep <= Limit(maxMessages) <= 2 * keep + 1
    ensures keep == 1 || 2 * keep <= Limit(maxMessages)
  {
    Max(Limit(maxMessages) / 2, 1)
  }

  function RebuiltSummary(texts: Texts, summary: Bytes, summaries: seq<Compaction>): Bytes {
    if summaries == [] then texts.bound(summary, MAX_CONTEXT_SUMMARY_BYTES) else []
  }

  function Summarize(texts: Texts, sequence: nat, stale: seq<Message>): Compaction {
    Compaction(sequence, |stale|, texts.digest(stale), None)
  }

  /** All but the newest `keep` messages become one more summary. */
  function CompactTo(texts: Texts, w: Window, keep: nat): Window
    requires keep <= |w.messages|
  {
    var cut := |w.messages| - keep;
    var stale := w.messages[..cut];
    var summary := Summarize(texts, |w.summaries| + 1, stale);
    Window([], w.messages[cut..], w.summaries + [summary], w.pending + [summary], w.chunks + [stale])
  }

  function Compact(texts: Texts, w: Window, maxMessages: nat): Window {
    if |w.messages| <= Limit(maxMessages) then w else CompactTo(texts, w, Keep(maxMessages))
  }

  /** The caps on the two lists of summaries, and the plain summary brought up to date. */
  function Cap(texts: Texts, w: Window): Window {
    var summaries := LastOf(w.summaries, MAX_COMPACTED_SUMMARIES);
    Window(RebuiltSummary(texts, w.summary, summaries), w.messages, summaries,
           LastOf(w.pending, MAX_PENDING_COMPACTIONS), w.chunks)
  }

  function Enforce(texts: Texts, w: Window, maxMessages: nat): Window {
    Cap(texts, Compact(texts, w.(messages := BoundAll(texts, w.messages)), maxMessages))
  }

  function Added(texts: Texts, w: Window, maxMessages: nat, m: Message): Window {
    Enforce(texts, Compact(texts, w.(messages := w.messages + [BoundMessage(texts, m)]), maxMessages), maxMessages)
  }

  function MarkOne(c: Compaction, sequence: nat, memoryId: Bytes): Compaction {
    if c.sequence == sequence then c.(memoryId := Some(memoryId)) else c
  }

  function MarkAll(summaries: seq<Compaction>, sequence: nat, memoryId: Bytes): (marked: seq<Compaction>)
    ensures |marked| == |summaries|
    ensures forall i :: 0 <= i < |summaries| ==> marked[i] == MarkOne(summaries[i], sequence, memoryId)
  {
    if summaries == [] then []
    else
      MarkAll(summaries[..|summaries| - 1], sequence, memoryId)
      + [MarkOne(summaries[|summaries| - 1], sequence, memoryId)]
  }

  function Mark(texts: Texts, w: Window, sequence: nat, memoryId: Bytes): Window {
    var summaries := MarkAll(w.summaries, sequence, memoryId);
    w.(summaries := summaries, summary := RebuiltSummary(texts, w.summary, summaries))
  }

  // ---------------------------------------------------------------- limits, from any state

  predicate WindowWithin(w: Window, maxMessages: nat) {
    && MessagesWithin(w.messages) && |w.messages| <= Limit(maxMessages)
    && |w.summaries| <= MAX_COMPACTED_SUMMARIES && |w.pending| <= MAX_PENDING_COMPACTIONS
    && |w.summary| <= MAX_CONTEXT_SUMMARY_BYTES && (w.summaries != [] ==> w.summary == [])
  }

  lemma CompactWithin(texts: Texts, w: Window, maxMessages: nat)
    requires MessagesWithin(w.messages)
    ensures MessagesWithin(Compact(texts, w, maxMessages).messages)
    ensures |Compact(texts, w, maxMessages).messages| <= Limit(maxMessages)
  {
  }

  /** One compaction is enough, and none is made when none is needed. */
  lemma CompactWithinLimit(texts: Texts, w: Window, maxMessages: nat)
    ensures |Compact(texts, w, maxMessages).messages| <= Limit(maxMessages)
    ensures |w.messages| <= Limit(maxMessages) ==> Compact(texts, w, maxMessages) == w
    ensures |w.messages| > Limit(maxMessages) ==> |Compact(texts, w, maxMessages).messages| < |w.messages|
  {
  }

  lemma CapWithin(texts: Texts, w: Window)
    requires Bounds(texts)
    ensures Cap(texts, w).messages == w.messages && Cap(texts, w).chunks == w.chunks
    ensures |Cap(texts, w).summaries| <= MAX_COMPACTED_SUMMARIES && |Cap(texts, w).pending| <= MAX_PENDING_COMPACTIONS
    ensures |Cap(texts, w).summary| <= MAX_CONTEXT_SUMMARY_BYTES
    ensures Cap(texts, w).summaries != [] ==> Cap(texts, w).summary == []
  {
  }

  lemma WithinIsKept(texts: Texts, w: Window, maxMessages: nat)
    requires Bounds(texts) && WindowWithin(w, maxMessages)
    ensures Enforce(texts, w, maxMessages) == w
  {
    BoundAllExact(texts, w.messages);
    assert w.(messages := BoundAll(texts, w.messages)) == w;
    assert Compact(texts, w, maxMessages) == w;
  }

  /** From any state, such as one read from an old checkpoint, the limits hold afterwards; a state within them is kept.
      */
  lemma EnforceWithin(texts: Texts, w: Window, maxMessages: nat)
    requires Bounds(texts)
    ensures WindowWithin(Enforce(texts, w, maxMessages), maxMessages)
    ensures Enforce(texts, w, maxMessages) == w <==> WindowWithin(w, maxMessages)
  {
    var bounded := w.(messages := BoundAll(texts, w.messages));
    BoundAllExact(texts, w.messages);
    CompactWithin(texts, bounded, maxMessages);
    CapWithin(texts, Compact(texts, bounded, maxMessages));
    if WindowWithin(w, maxMessages) { WithinIsKept(texts, w, maxMessages); }
  }

  /** And no message is lost on the way: what leaves the window is in the log of chunks. */
  lemma EnforceConserves(texts: Texts, w: Window, maxMessages: nat)
    ensures Concat(Enforce(texts, w, maxMessages).chunks) + Enforce(texts, w, maxMessages).messages
            == Concat(w.chunks) + BoundAll(texts, w.messages)
  {
    CompactConserves(texts, w.(messages := BoundAll(texts, w.messages)), maxMessages);
  }

  function Concat<T>(chunks: seq<seq<T>>): seq<T> {
    if chunks == [] then [] else Concat(chunks[..|chunks| - 1]) + chunks[|chunks| - 1]
  }

  lemma CompactConserves(texts: Texts, w: Window, maxMessages: nat)
    ensures Concat(Compact(texts, w, maxMessages).chunks) + Compact(texts, w, maxMessages).messages
            == Concat(w.chunks) + w.messages
  {
    if |w.messages| > Limit(maxMessages) {
      var cut := |w.messages| - Keep(maxMessages);
      var stale, live := w.messages[..cut], w.messages[cut..];
      assert (w.chunks + [stale])[..|w.chunks|] == w.chunks;
      assert stale + live == w.messages;
    }
  }

  // ---------------------------------------------------------------- whole runs

  datatype Op = AddMessage(message: Message) | TakePending | MarkPersisted(sequence: nat, memoryId: Bytes)

  function Step(texts: Texts, w: Window, maxMessages: nat, op: Op): Window {
    match op
    case AddMessage(m) => Added(texts, w, maxMessages, m)
    case TakePending => w.(pending := [])
    case MarkPersisted(sequence, memoryId) => Mark(texts, w, sequence, memoryId)
  }

  /** The window after `ops`, from a new one. */
  function Run(texts: Texts, maxMessages: nat, ops: seq<Op>): Window {
    if ops == [] then Window([], [], [], [], [])
    else Step(texts, Run(texts, maxMessages, ops[..|ops| - 1]), maxMessages, ops[|ops| - 1])
  }

  /** Every message given to the window, bounded, in order. */
  function Given(texts: Texts, ops: seq<Op>): seq<Message> {
    if ops == [] then []
    else
      Given(texts, ops[..|ops| - 1])
      + match ops[|ops| - 1] case AddMessage(m) => [BoundMessage(texts, m)] case _ => []
  }

  /** The summary of the compaction numbered `j`, from zero, as it was made. */
  function Made(texts: Texts, chunks: seq<seq<Message>>, j: nat): Compaction
    requires j < |chunks|
  {
    Summarize(texts, Min(j + 1, MAX_COMPACTED_SUMMARIES + 1), chunks[j])
  }

  /** `list` holds the newest compactions in order, up to where they have since been stored. */
  predicate NewestMade(texts: Texts, chunks: seq<seq<Message>>, list: seq<Compaction>) {
    && |list| <= |chunks|
    && forall i :: 0 <= i < |list| ==> list[i].(memoryId := None) == Made(texts, chunks, |chunks| - |list| + i)
  }

  predicate ChunksFull(chunks: seq<seq<Message>>, maxMessages: nat) {
    forall i :: 0 <= i < |chunks| ==> |chunks[i]| == Limit(maxMessages) + 1 - Keep(maxMessages)
  }

  /** What a compaction leaves is not less than it keeps, and additions only make it more. */
  predicate KeepsEnough(w: Window, maxMessages: nat) {
    w.chunks != [] ==> |w.messages| >= Keep(maxMessages)
  }

  predicate Reached(texts: Texts, w: Window, maxMessages: nat, given: seq<Message>) {
    && Concat(w.chunks) + w.messages == given && WindowWithin(w, maxMessages) && ChunksFull(w.chunks, maxMessages)
    && KeepsEnough(w, maxMessages) && |w.summaries| == Min(|w.chunks|, MAX_COMPACTED_SUMMARIES)
    && NewestMade(texts, w.chunks, w.summaries) && NewestMade(texts, w.chunks, w.pending)
  }

  lemma NewestMadeGrows(texts: Texts, chunks: seq<seq<Message>>, list: seq<Compaction>, stale: seq<Message>,
                        chunksAfter: seq<seq<Message>>, summary: Compaction)
    requires NewestMade(texts, chunks, list) && chunksAfter == chunks + [stale]
    requires summary == Made(texts, chunksAfter, |chunks|)
    ensures NewestMade(texts, chunksAfter, list + [summary])
  {
    var longer := list + [summary];
    forall i | 0 <= i < |longer|
      ensures longer[i].(memoryId := None) == Made(texts, chunksAfter, |chunksAfter| - |longer| + i)
    {
      if i < |list| { assert longer[i] == list[i]; }
    }
  }

  lemma NewestMadeLast(texts: Texts, chunks: seq<seq<Message>>, list: seq<Compaction>, count: nat)
    requires NewestMade(texts, chunks, list)
    ensures NewestMade(texts, chunks, LastOf(list, count))
  {
    var last := LastOf(list, count);
    forall i | 0 <= i < |last|
      ensures last[i].(memoryId := None) == Made(texts, chunks, |chunks| - |last| + i)
    {
      assert last[i] == list[|list| - |last| + i];
    }
  }

  lemma AddReached(texts: Texts, w: Window, maxMessages: nat, given: seq<Message>, m: Message)
    requires Bounds(texts) && Reached(texts, w, maxMessages, given)
    ensures Reached(texts, Added(texts, w, maxMessages, m), maxMessages, given + [BoundMessage(texts, m)])
  {
    var bounded := BoundMessage(texts, m);
    var pushed := w.(messages := w.messages + [bounded]);
    var compacted := Compact(texts, pushed, maxMessages);
    assert (Concat(w.chunks) + w.messages) + [bounded] == Concat(w.chunks) + pushed.messages;
    CompactConserves(texts, pushed, maxMessages);
    CompactReached(texts, w, maxMessages, pushed, compacted);
    EnforceReached(texts, compacted, maxMessages);
  }

  /** The window between the compaction of an addition and the caps. */
  predicate Compacted(texts: Texts, w: Window, maxMessages: nat) {
    && MessagesWithin(w.messages) && |w.messages| <= Limit(maxMessages) && ChunksFull(w.chunks, maxMessages)
    && |w.summary| <= MAX_CONTEXT_SUMMARY_BYTES && (w.summaries != [] ==> w.summary == [])
    && KeepsEnough(w, maxMessages)
    && Min(|w.summaries|, MAX_COMPACTED_SUMMARIES) == Min(|w.chunks|, MAX_COMPACTED_SUMMARIES)
    && NewestMade(texts, w.chunks, w.summaries) && NewestMade(texts, w.chunks, w.pending)
  }

  lemma CompactReached(texts: Texts, w: Window, maxMessages: nat, pushed: Window, compacted: Window)
    requires Reached(texts, w, maxMessages, Concat(w.chunks) + w.messages)
    requires pushed.messages != [] && pushed == w.(messages := pushed.messages) && MessagesWithin(pushed.messages)
    requires |pushed.messages| == |w.messages| + 1 && compacted == Compact(texts, pushed, maxMessages)
    ensures Compacted(texts, compacted, maxMessages)
  {
    CompactWithin(texts, pushed, maxMessages);
    if |pushed.messages| > Limit(maxMessages) {
      var cut := |pushed.messages| - Keep(maxMessages);
      var stale := pushed.messages[..cut];
      var summary := Summarize(texts, |w.summaries| + 1, stale);
      assert summary == Made(texts, w.chunks + [stale], |w.chunks|);
      NewestMadeGrows(texts, w.chunks, w.summaries, stale, w.chunks + [stale], summary);
      NewestMadeGrows(texts, w.chunks, w.pending, stale, w.chunks + [stale], summary);
    }
  }

  lemma EnforceReached(texts: Texts, w: Window, maxMessages: nat)
    requires Bounds(texts) && Compacted(texts, w, maxMessages)
    ensures Reached(texts, Enforce(texts, w, maxMessages), maxMessages, Concat(w.chunks) + w.messages)
  {
    BoundAllExact(texts, w.messages);
    assert w.(messages := BoundAll(texts, w.messages)) == w;
    NewestMadeLast(texts, w.chunks, w.summaries, MAX_COMPACTED_SUMMARIES);
    NewestMadeLast(texts, w.chunks, w.pending, MAX_PENDING_COMPACTIONS);
    CapWithin(texts, w);
  }

  lemma StepReached(texts: Texts, w: Window, maxMessages: nat, given: seq<Message>, op: Op)
    requires Bounds(texts) && Reached(texts, w, maxMessages, given)
    ensures Reached(texts, Step(texts, w, maxMessages, op), maxMessages,
                    given + match op case AddMessage(m) => [BoundMessage(texts, m)] case _ => [])
  {
    match op
    case AddMessage(m) => AddReached(texts, w, maxMessages, given, m);
    case TakePending => assert given + [] == given;
    case MarkPersisted(sequence, memoryId) => assert given + [] == given;
  }

  /** Over every run: what was compacted, chunk after chunk, and what is live make up every message ever given, in
      order; all caps hold; and both lists hold the newest compactions, numbered up to 33. */
  lemma {:induction false} RunConserves(texts: Texts, maxMessages: nat, ops: seq<Op>)
    requires Bounds(texts)
    ensures Reached(texts, Run(texts, maxMessages, ops), maxMessages, Given(texts, ops))
  {
    if ops != [] {
      var before := ops[..|ops| - 1];
      RunConserves(texts, maxMessages, before);
      StepReached(texts, Run(texts, maxMessages, before), maxMessages, Given(texts, before), ops[|ops| - 1]);
    }
  }

  // ---------------------------------------------------------------- counting compactions by messages

  /** How many messages one compaction takes out of the window. */
  function ChunkSize(maxMessages: nat): (size: nat)
    ensures size >= 1
  {
    Limit(maxMessages) + 1 - Keep(maxMessages)
  }

  /** How many compactions there have been once `given` messages were given. */
  function CompactionsFor(maxMessages: nat, given: nat): nat {
    if given <= Limit(maxMessages) then 0 else (given - Limit(maxMessages) - 1) / ChunkSize(maxMessages) + 1
  }

  lemma {:induction false} ConcatLength(chunks: seq<seq<Message>>, maxMessages: nat)
    requires ChunksFull(chunks, maxMessages)
    ensures |Concat(chunks)| == |chunks| * ChunkSize(maxMessages)
  {
    if chunks != [] {
      var front := chunks[..|chunks| - 1];
      assert forall i :: 0 <= i < |front| ==> front[i] == chunks[i];
      ConcatLength(front, maxMessages);
      OneMoreTimes(|front|, |chunks|, ChunkSize(maxMessages));
    }
  }

  lemma CountFor(made: nat, size: nat, live: nat, keep: nat, limit: nat, given: nat)
    requires given == made * size + live && live <= limit && (made > 0 ==> live >= keep) && size == limit + 1 - keep
    requires size >= 1
    ensures given <= limit ==> made == 0
    ensures given > limit ==> made == (given - limit - 1) / size + 1
  {
    if made > 0 {
      OneMoreTimes(made - 1, made, size);
      QuotientIs(given - limit - 1, size, made - 1);
    } else {
      assert made * size == 0;
    }
  }

  /** Over every run, the number of messages given determines the number of compactions made. */
  lemma CompactionsMade(texts: Texts, maxMessages: nat, ops: seq<Op>)
    requires Bounds(texts)
    ensures |Run(texts, maxMessages, ops).chunks| == CompactionsFor(maxMessages, |Given(texts, ops)|)
  {
    var w := Run(texts, maxMessages, ops);
    RunConserves(texts, maxMessages, ops);
    ConcatLength(w.chunks, maxMessages);
    var given := |Given(texts, ops)|;
    assert given == |Concat(w.chunks)| + |w.messages|;
    CountFor(|w.chunks|, ChunkSize(maxMessages), |w.messages|, Keep(maxMessages), Limit(maxMessages), given);
  }

  /** The number of compactions since the pending ones were last taken. */
  function SinceTaken(texts: Texts, maxMessages: nat, ops: seq<Op>): int {
    if ops == [] || ops[|ops| - 1].TakePending? then 0
    else
      var before := ops[..|ops| - 1];
      SinceTaken(texts, maxMessages, before)
      + CompactionsFor(maxMessages, |Given(texts, ops)|) - CompactionsFor(maxMessages, |Given(texts, before)|)
  }

  lemma EnforceIsCap(texts: Texts, w: Window, maxMessages: nat)
    requires Bounds(texts) && MessagesWithin(w.messages) && |w.messages| <= Limit(maxMessages)
    ensures Enforce(texts, w, maxMessages) == Cap(texts, w)
  {
    BoundAllExact(texts, w.messages);
    assert w.(messages := BoundAll(texts, w.messages)) == w;
  }

  lemma CompactGrows(texts: Texts, w: Window, maxMessages: nat, after: Window)
    requires after == Compact(texts, w, maxMessages)
    ensures |w.chunks| <= |after.chunks| <= |w.chunks| + 1
    ensures |after.pending| == |w.pending| + |after.chunks| - |w.chunks|
  {
  }

  lemma CapCounts(texts: Texts, w: Window, after: Window)
    requires after == Cap(texts, w)
    ensures after.chunks == w.chunks && |after.pending| == Min(|w.pending|, MAX_PENDING_COMPACTIONS)
  {
  }

  lemma AddGrows(texts: Texts, w: Window, maxMessages: nat, given: seq<Message>, m: Message, after: Window)
    requires Bounds(texts) && Reached(texts, w, maxMessages, given) && after == Added(texts, w, maxMessages, m)
    ensures |w.chunks| <= |after.chunks| <= |w.chunks| + 1
    ensures |after.pending| == Min(|w.pending| + |after.chunks| - |w.chunks|, MAX_PENDING_COMPACTIONS)
  {
    var pushed := w.(messages := w.messages + [BoundMessage(texts, m)]);
    var compacted := Compact(texts, pushed, maxMessages);
    assert MessagesWithin(pushed.messages);
    CompactWithin(texts, pushed, maxMessages);
    EnforceIsCap(texts, compacted, maxMessages);
    CompactGrows(texts, pushed, maxMessages, compacted);
    CapCounts(texts, compacted, after);
  }

  /** Over every run, as many compactions wait to be taken as were made since the last time, but at most eight: with
      more, the oldest are dropped without having been handed out. */
  lemma {:induction false} PendingSinceTaken(texts: Texts, maxMessages: nat, ops: seq<Op>)
    requires Bounds(texts)
    ensures 0 <= SinceTaken(texts, maxMessages, ops)
    ensures |Run(texts, maxMessages, ops).pending| == Min(SinceTaken(texts, maxMessages, ops), MAX_PENDING_COMPACTIONS)
  {
    if ops != [] {
      var before, op := ops[..|ops| - 1], ops[|ops| - 1];
      var w := Run(texts, maxMessages, before);
      PendingSinceTaken(texts, maxMessages, before);
      RunConserves(texts, maxMessages, before);
      CompactionsMade(texts, maxMessages, before);
      CompactionsMade(texts, maxMessages, ops);
      if op.AddMessage? {
        AddGrows(texts, w, maxMessages, Given(texts, before), op.message, Run(texts, maxMessages, ops));
      }
    }
  }

  predicate SequencesDiffer(summaries: seq<Compaction>) {
    forall i, j :: 0 <= i < j < |summaries| ==> summaries[i].sequence != summaries[j].sequence
  }

  /** The most messages that can be given before sequence numbers repeat. */
  function MostDistinct(maxMessages: nat): nat {
    Limit(maxMessages) + (MAX_COMPACTED_SUMMARIES + 1) * ChunkSize(maxMessages)
  }

  lemma CompactionsAtMost(maxMessages: nat, given: nat)
    ensures CompactionsFor(maxMessages, given) <= MAX_COMPACTED_SUMMARIES + 1 <==> given <= MostDistinct(maxMessages)
  {
    if given > Limit(maxMessages) {
      QuotientAtMost(given - Limit(maxMessages) - 1, ChunkSize(maxMessages), MAX_COMPACTED_SUMMARIES);
    }
  }

  /** Sequence numbers tell the summaries apart if and only if no more messages were given than thirty-three compactions
      take, and then as many as the window holds. */
  lemma SequencesDifferIff(texts: Texts, maxMessages: nat, ops: seq<Op>)
    requires Bounds(texts)
    ensures SequencesDiffer(Run(texts, maxMessages, ops).summaries)
            <==> |Given(texts, ops)| <= MostDistinct(maxMessages)
  {
    var w := Run(texts, maxMessages, ops);
    RunConserves(texts, maxMessages, ops);
    SequencesDifferWithin(texts, w.chunks, w.summaries);
    CompactionsMade(texts, maxMessages, ops);
    CompactionsAtMost(maxMessages, |Given(texts, ops)|);
  }

  /** Whatever number is marked with whatever id, one summary at most changes. */
  ghost predicate MarksOne(summaries: seq<Compaction>) {
    forall sequence: nat, memoryId: Bytes, i, j :: 0 <= i < j < |summaries| ==>
      || MarkAll(summaries, sequence, memoryId)[i] == summaries[i]
      || MarkAll(summaries, sequence, memoryId)[j] == summaries[j]
  }

  function Longer(a: Option<Bytes>, b: Option<Bytes>): (longer: Bytes)
    ensures Some(longer) != a && Some(longer) != b
  {
    var longer := (if a.Some? then a.value else []) + (if b.Some? then b.value else []) + [0];
    assert (a.Some? ==> |longer| > |a.value|) && (b.Some? ==> |longer| > |b.value|);
    longer
  }

  lemma MarksOneIfDiffer(summaries: seq<Compaction>)
    ensures MarksOne(summaries) <==> SequencesDiffer(summaries)
  {
    if !SequencesDiffer(summaries) {
      var i, j :| 0 <= i < j < |summaries| && summaries[i].sequence == summaries[j].sequence;
      var sequence, memoryId := summaries[i].sequence, Longer(summaries[i].memoryId, summaries[j].memoryId);
      assert MarkAll(summaries, sequence, memoryId)[i] == MarkOne(summaries[i], sequence, memoryId) != summaries[i];
      assert MarkAll(summaries, sequence, memoryId)[j] == MarkOne(summaries[j], sequence, memoryId) != summaries[j];
    }
  }

  /** Marking a compaction as persisted changes one summary at most under the same condition; beyond it, marking number
      33 marks the two newest alike. */
  lemma MarksOneIff(texts: Texts, maxMessages: nat, ops: seq<Op>, memoryId: Bytes)
    requires Bounds(texts)
    ensures MarksOne(Run(texts, maxMessages, ops).summaries) <==> |Given(texts, ops)| <= MostDistinct(maxMessages)
    ensures |Given(texts, ops)| > MostDistinct(maxMessages) ==>
              var marked := Mark(texts, Run(texts, maxMessages, ops), MAX_COMPACTED_SUMMARIES + 1, memoryId).summaries;
              |marked| == MAX_COMPACTED_SUMMARIES
              && marked[|marked| - 1].memoryId == marked[|marked| - 2].memoryId == Some(memoryId)
  {
    var w := Run(texts, maxMessages, ops);
    SequencesDifferIff(texts, maxMessages, ops);
    MarksOneIfDiffer(w.summaries);
    if |Given(texts, ops)| > MostDistinct(maxMessages) {
      RunConserves(texts, maxMessages, ops);
      CompactionsMade(texts, maxMessages, ops);
      CompactionsAtMost(maxMessages, |Given(texts, ops)|);
      NewestNumbered(texts, w.chunks, w.summaries);
    }
  }

  lemma NewestNumbered(texts: Texts, chunks: seq<seq<Message>>, summaries: seq<Compaction>)
    requires NewestMade(texts, chunks, summaries) && |summaries| == MAX_COMPACTED_SUMMARIES
    requires |chunks| > MAX_COMPACTED_SUMMARIES + 1
    ensures summaries[|summaries| - 1].sequence == summaries[|summaries| - 2].sequence == MAX_COMPACTED_SUMMARIES + 1
  {
    assert summaries[|summaries| - 1].(memoryId := None) == Made(texts, chunks, |chunks| - 1);
    assert summaries[|summaries| - 2].(memoryId := None) == Made(texts, chunks, |chunks| - 2);
  }

  lemma SequencesDifferWithin(texts: Texts, chunks: seq<seq<Message>>, summaries: seq<Compaction>)
    requires NewestMade(texts, chunks, summaries) && |summaries| == Min(|chunks|, MAX_COMPACTED_SUMMARIES)
    ensures SequencesDiffer(summaries) <==> |chunks| <= MAX_COMPACTED_SUMMARIES + 1
  {
    forall i | 0 <= i < |summaries|
      ensures summaries[i].sequence == Min(|chunks| - |summaries| + i + 1, MAX_COMPACTED_SUMMARIES + 1)
    {
      assert summaries[i].(memoryId := None) == Made(texts, chunks, |chunks| - |summaries| + i);
    }
    if |chunks| > MAX_COMPACTED_SUMMARIES + 1 {
      assert summaries[|summaries| - 2].sequence == summaries[|summaries| - 1].sequence;
    }
  }

  // ---------------------------------------------------------------- the manager

  method BoundEach(texts: Texts, list: seq<Message>) returns (bounded: seq<Message>)
    ensures bounded == BoundAll(texts, list)
  {
    bounded := [];
    var i := 0;
    while i < |list|
      invariant 0 <= i <= |list| && bounded == BoundAll(texts, list[..i])
    {
      assert list[..i + 1][..i] == list[..i];
      bounded := bounded + [BoundMessage(texts, list[i])];
      i := i + 1;
    }
    assert list[..i] == list;
  }

  method MarkEach(list: seq<Compaction>, sequence: nat, memoryId: Bytes) returns (marked: seq<Compaction>)
    ensures marked == MarkAll(list, sequence, memoryId)
  {
    marked := list;
    var i := 0;
    while i < |list|
      invariant 0 <= i <= |list| == |marked|
      invariant forall j :: 0 <= j < i ==> marked[j] == MarkOne(list[j], sequence, memoryId)
      invariant forall j :: i <= j < |list| ==> marked[j] == list[j]
    {
      if marked[i].sequence == sequence {
        marked := marked[i := marked[i].(memoryId := Some(memoryId))];
      }
      i := i + 1;
    }
  }

  class ContextManager {
    const maxMessages: nat
    var summary: Bytes
    var messages: seq<Message>
    var compactedSummaries: seq<Compaction>
    var pendingCompactions: seq<Compaction>
    ghost var chunks: seq<seq<Message>>

    ghost function Value(): Window
      reads this
    {
      Window(summary, messages, compactedSummaries, pendingCompactions, chunks)
    }

    constructor (maxMessages: nat)
      ensures this.maxMessages == maxMessages && Value() == Window([], [], [], [], [])
    {
      this.maxMessages := maxMessages;
      summary, messages, compactedSummaries, pendingCompactions, chunks := [], [], [], [], [];
    }

    method RebuildSummaryText(texts: Texts)
      modifies this`summary
      ensures summary == RebuiltSummary(texts, old(summary), compactedSummaries)
    {
      summary := if compactedSummaries == [] then texts.bound(summary, MAX_CONTEXT_SUMMARY_BYTES) else [];
    }

    method CompactIfNeeded(texts: Texts)
      modifies this
      ensures Value() == Compact(texts, old(Value()), maxMessages)
    {
      if |messages| <= Limit(maxMessages) {
        return;
      }
      var cut := |messages| - Keep(maxMessages);
      var stale := messages[..cut];
      messages := messages[cut..];
      chunks := chunks + [stale];
      var made := Summarize(texts, |compactedSummaries| + 1, stale);
      pendingCompactions := pendingCompactions + [made];
      compactedSummaries := compactedSummaries + [made];
      RebuildSummaryText(texts);
    }

    /** The newest summaries stay, the oldest are dropped. */
    method CapLists(texts: Texts)
      modifies this
      ensures Value() == Cap(texts, old(Value()))
    {
      if |compactedSummaries| > MAX_COMPACTED_SUMMARIES {
        compactedSummaries := compactedSummaries[|compactedSummaries| - MAX_COMPACTED_SUMMARIES..];
      }
      if |pendingCompactions| > MAX_PENDING_COMPACTIONS {
        pendingCompactions := pendingCompactions[|pendingCompactions| - MAX_PENDING_COMPACTIONS..];
      }
      RebuildSummaryText(texts);
    }

    method EnforceLimits(texts: Texts)
      modifies this
      ensures Value() == Enforce(texts, old(Value()), maxMessages)
    {
      messages := BoundEach(texts, messages);
      ghost var bounded := Value();
      while |messages| > Limit(maxMessages)
        invariant Value() == bounded || Value() == Compact(texts, bounded, maxMessages)
        decreases |messages|
      {
        CompactWithinLimit(texts, bounded, maxMessages);
        CompactIfNeeded(texts);
      }
      CompactWithinLimit(texts, bounded, maxMessages);
      CapLists(texts);
    }

    method Add(texts: Texts, message: Message)
      modifies this
      ensures Value() == Added(texts, old(Value()), maxMessages, message)
    {
      messages := messages + [BoundMessage(texts, message)];
      CompactIfNeeded(texts);
      EnforceLimits(texts);
    }

    method TakePendingCompactions() returns (taken: seq<Compaction>)
      modifies this
      ensures taken == old(pendingCompactions) && Value() == old(Value()).(pending := [])
    {
      taken := pendingCompactions;
      pendingCompactions := [];
    }

    method MarkCompactionPersisted(texts: Texts, sequence: nat, memoryId: Bytes)
      modifies this
      ensures Value() == Mark(texts, old(Value()), sequence, memoryId)
    {
      compactedSummaries := MarkEach(compactedSummaries, sequence, memoryId);
      RebuildSummaryText(texts);
    }
  }
}
