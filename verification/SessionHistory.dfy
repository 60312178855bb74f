/** Keeping a session's transcript, attachments and input history within their limits. */
module SessionHistory {
  import opened NewestFirst
  import opened SessionAttachments
  import opened Utf8Text

  const MAX_SESSION_MESSAGES: nat := 512
  const MAX_SESSION_MESSAGE_BYTES: nat := 512 * 1024
  const MAX_SESSION_HISTORY_BYTES: nat := 4 * 1024 * 1024
  const MAX_INPUT_HISTORY_ENTRIES: nat := 256
  const MAX_INPUT_HISTORY_ENTRY_BYTES: nat := 64 * 1024
  const MAX_INPUT_HISTORY_BYTES: nat := 2 * 1024 * 1024
  const SESSION_HISTORY_MARKER_BYTES: nat := 1024

  // ---------------------------------------------------------------- each message and each entry on its own

  function BoundContent(texts: Texts, m: Message): Message {
    if |m.content| > MAX_SESSION_MESSAGE_BYTES
    then m.(content := texts.truncate(m.content, MAX_SESSION_MESSAGE_BYTES, SessionMessage))
    else m
  }

  function BoundContents(texts: Texts, messages: seq<Message>): (bounded: seq<Message>)
    ensures |bounded| == |messages|
    ensures forall i :: 0 <= i < |messages| ==> bounded[i] == BoundContent(texts, messages[i])
  {
    if messages == [] then []
    else BoundContents(texts, messages[..|messages| - 1]) + [BoundContent(texts, messages[|messages| - 1])]
  }

  function BoundEntry(texts: Texts, entry: Bytes): Bytes {
    if |entry| > MAX_INPUT_HISTORY_ENTRY_BYTES
    then texts.truncate(entry, MAX_INPUT_HISTORY_ENTRY_BYTES, InputHistoryEntry)
    else entry
  }

  function BoundEntries(texts: Texts, history: seq<Bytes>): (bounded: seq<Bytes>)
    ensures |bounded| == |history|
    ensures forall i :: 0 <= i < |history| ==> bounded[i] == BoundEntry(texts, history[i])
  {
    if history == [] then []
    else BoundEntries(texts, history[..|history| - 1]) + [BoundEntry(texts, history[|history| - 1])]
  }

  // ---------------------------------------------------------------- the transcript

  /** Judged before any message is cut. */
  predicate OverLimit(messages: seq<Message>) {
    |messages| > MAX_SESSION_MESSAGES || Total(messages, ContentSize) > MAX_SESSION_HISTORY_BYTES
  }

  function HistoryMarkerMessage(texts: Texts, count: nat, bytes: nat, now: int): Message {
    Message(System, texts.truncate(texts.notice(count, bytes), SESSION_HISTORY_MARKER_BYTES, HistoryMarker), [], now)
  }

  function ShrinkTo(texts: Texts, budget: nat): Message -> Message {
    (m: Message) => m.(content := texts.truncate(m.content, budget, RetainedMessage))
  }

  /** Subtraction that stops at zero. */
  function Remaining(limit: nat, used: nat): nat {
    if used <= limit then limit - used else 0
  }

  /** A marker, and the newest messages that the marker leaves room for. */
  function MarkedHistory(texts: Texts, messages: seq<Message>, marker: Message): seq<Message> {
    var budget := Remaining(MAX_SESSION_HISTORY_BYTES, |marker.content|);
    [marker] + Newest(messages, MAX_SESSION_MESSAGES - 1, budget, ContentSize, ShrinkTo(texts, budget))
  }

  /** The messages after sharing the attachments, `shared`, bounded in size and in number. */
  function BoundShared(texts: Texts, shared: seq<Message>, now: int): seq<Message> {
    var cut := BoundContents(texts, shared);
    if !OverLimit(shared) then cut
    else MarkedHistory(texts, cut, HistoryMarkerMessage(texts, |shared|, Total(shared, ContentSize), now))
  }

  function BoundHistory(texts: Texts, messages: seq<Message>, now: int): seq<Message> {
    BoundShared(texts, ShareAttachments(texts, messages, MAX_SESSION_ATTACHMENTS), now)
  }

  predicate MessageWithin(m: Message) {
    |m.content| <= MAX_SESSION_MESSAGE_BYTES && AttachmentsFit(m)
  }

  predicate EachWithin(messages: seq<Message>) {
    forall i :: 0 <= i < |messages| ==> MessageWithin(messages[i])
  }

  predicate SomeTooLong(messages: seq<Message>) {
    exists i :: 0 <= i < |messages| && |messages[i].content| > MAX_SESSION_MESSAGE_BYTES
  }

  predicate HistoryWithin(messages: seq<Message>) {
    && |messages| <= MAX_SESSION_MESSAGES && Total(messages, ContentSize) <= MAX_SESSION_HISTORY_BYTES
    && Total(messages, AttachmentCount) <= MAX_SESSION_ATTACHMENTS && EachWithin(messages)
  }

  // ---------------------------------------------------------------- what the bounded transcript is

  lemma CutContents(texts: Texts, shared: seq<Message>, cut: seq<Message>)
    requires Truncates(texts) && cut == BoundContents(texts, shared) && AllAttachmentsFit(shared)
    ensures EachWithin(cut) && |cut| == |shared|
    ensures Total(cut, ContentSize) <= Total(shared, ContentSize)
    ensures Total(cut, AttachmentCount) <= Total(shared, AttachmentCount)
    ensures cut == shared <==> EachWithin(shared)
  {
    forall i | 0 <= i < |cut| ensures MessageWithin(cut[i]) && |cut[i].content| <= |shared[i].content|
                                      && cut[i].attachments == shared[i].attachments
                                      && (cut[i] == shared[i] <==> MessageWithin(shared[i]))
    {
      assert AttachmentsFit(shared[i]);
    }
    TotalShrinks(shared, cut, ContentSize);
    TotalShrinks(shared, cut, AttachmentCount);
  }

  /** Over the limit, what is kept is the marker and an unbroken run of the newest messages, as long as the limits
      allow. */
  lemma MarkedKeepsNewest(texts: Texts, cut: seq<Message>, marker: Message) returns (start: nat)
    requires Truncates(texts) && cut != [] && EachWithin(cut)
    requires |marker.content| <= SESSION_HISTORY_MARKER_BYTES
    ensures start < |cut| && MarkedHistory(texts, cut, marker) == [marker] + cut[start..]
    ensures |cut| - start < MAX_SESSION_MESSAGES
    ensures |marker.content| + Total(cut[start..], ContentSize) <= MAX_SESSION_HISTORY_BYTES
    ensures start == 0 || |cut| - start == MAX_SESSION_MESSAGES - 1
            || |marker.content| + Total(cut[start..], ContentSize)
               + |cut[start - 1].content| > MAX_SESSION_HISTORY_BYTES
  {
    var budget := Remaining(MAX_SESSION_HISTORY_BYTES, |marker.content|);
    var last := cut[|cut| - 1];
    assert MessageWithin(last);
    start := NewestIsSuffix(cut, MAX_SESSION_MESSAGES - 1, budget, ContentSize, ShrinkTo(texts, budget));
  }

  lemma MarkedWithin(texts: Texts, cut: seq<Message>, marker: Message)
    requires Truncates(texts) && cut != [] && EachWithin(cut) && Total(cut, AttachmentCount) <= MAX_SESSION_ATTACHMENTS
    requires |marker.content| <= SESSION_HISTORY_MARKER_BYTES && marker.attachments == []
    ensures HistoryWithin(MarkedHistory(texts, cut, marker))
  {
    var start := MarkedKeepsNewest(texts, cut, marker);
    var kept := cut[start..];
    TotalSuffix(cut, start, AttachmentCount);
    TotalConcat([marker], kept, ContentSize);
    TotalConcat([marker], kept, AttachmentCount);
    TotalOne(marker, ContentSize);
    TotalOne(marker, AttachmentCount);
  }

  lemma BoundSharedExact(texts: Texts, shared: seq<Message>, now: int)
    requires Truncates(texts) && AllAttachmentsFit(shared) && Total(shared, AttachmentCount) <= MAX_SESSION_ATTACHMENTS
    ensures HistoryWithin(BoundShared(texts, shared, now))
    ensures HistoryWithin(shared) ==> BoundShared(texts, shared, now) == shared
  {
    var cut := BoundContents(texts, shared);
    CutContents(texts, shared, cut);
    if OverLimit(shared) {
      var marker := HistoryMarkerMessage(texts, |shared|, Total(shared, ContentSize), now);
      MarkedWithin(texts, cut, marker);
    }
  }

  /** Every limit holds afterwards, and a transcript within the limits is left as it is. */
  lemma BoundHistoryExact(texts: Texts, messages: seq<Message>, now: int)
    requires Truncates(texts)
    ensures HistoryWithin(BoundHistory(texts, messages, now))
    ensures BoundHistory(texts, messages, now) == messages <==> HistoryWithin(messages)
  {
    var shared := ShareAttachments(texts, messages, MAX_SESSION_ATTACHMENTS);
    SharedFits(texts, messages, MAX_SESSION_ATTACHMENTS, shared);
    SharedTotals(texts, messages, MAX_SESSION_ATTACHMENTS, shared);
    BoundSharedExact(texts, shared, now);
    if HistoryWithin(messages) {
      AttachmentsOfWithin(messages);
      SharedKeeps(texts, messages, MAX_SESSION_ATTACHMENTS);
    }
  }

  lemma AttachmentsOfWithin(messages: seq<Message>)
    requires EachWithin(messages)
    ensures AllAttachmentsFit(messages)
  {
    forall i | 0 <= i < |messages| ensures AttachmentsFit(messages[i]) { assert MessageWithin(messages[i]); }
  }

  lemma EachWithinIff(messages: seq<Message>)
    requires AllAttachmentsFit(messages)
    ensures EachWithin(messages) <==> !SomeTooLong(messages)
  {
    forall i | 0 <= i < |messages| && |messages[i].content| <= MAX_SESSION_MESSAGE_BYTES
      ensures MessageWithin(messages[i])
    {
      assert AttachmentsFit(messages[i]);
    }
    if i :| 0 <= i < |messages| && |messages[i].content| > MAX_SESSION_MESSAGE_BYTES {
      assert !MessageWithin(messages[i]);
    }
  }

  /** The three reasons to report a change are together the same as being outside a limit. */
  lemma ChangedIff(texts: Texts, messages: seq<Message>, shared: seq<Message>)
    requires Truncates(texts) && shared == ShareAttachments(texts, messages, MAX_SESSION_ATTACHMENTS)
    ensures shared != messages || OverLimit(shared) || SomeTooLong(shared) <==> !HistoryWithin(messages)
  {
    SharedFits(texts, messages, MAX_SESSION_ATTACHMENTS, shared);
    SharedTotals(texts, messages, MAX_SESSION_ATTACHMENTS, shared);
    EachWithinIff(shared);
    if HistoryWithin(messages) {
      AttachmentsOfWithin(messages);
      SharedKeeps(texts, messages, MAX_SESSION_ATTACHMENTS);
    }
  }

  /** Within the count and the total, no message is lost: each keeps its place, and its text when that was short
      enough. */
  lemma UnderLimitKeepsEveryMessage(texts: Texts, messages: seq<Message>, now: int, i: nat)
    requires Truncates(texts) && !OverLimit(messages) && i < |messages|
    ensures |BoundHistory(texts, messages, now)| == |messages|
    ensures BoundHistory(texts, messages, now)[i].role == messages[i].role
    ensures |messages[i].content| <= MAX_SESSION_MESSAGE_BYTES
            ==> BoundHistory(texts, messages, now)[i].content == messages[i].content
  {
    var shared := ShareAttachments(texts, messages, MAX_SESSION_ATTACHMENTS);
    SharedTotals(texts, messages, MAX_SESSION_ATTACHMENTS, shared);
    SharedKeepsContents(texts, messages, MAX_SESSION_ATTACHMENTS, shared, i);
  }

  lemma {:induction false} SharedKeepsContents(texts: Texts, messages: seq<Message>, remaining: nat,
                                               shared: seq<Message>, i: nat)
    requires Truncates(texts) && i < |messages| && shared == ShareAttachments(texts, messages, remaining)
    ensures shared[i].content == messages[i].content && shared[i].role == messages[i].role
    decreases |messages|
  {
    var older, m, left, limited := ShareNewest(texts, messages, remaining);
    var front := ShareAttachments(texts, older, left);
    if i < |older| {
      SharedKeepsContents(texts, older, left, front, i);
      assert shared[i] == front[i] && messages[i] == older[i];
    } else {
      assert shared[i] == limited && messages[i] == m;
    }
  }

  /** Over the count or the total, a marker stands for what was left out. It is worded for the count of all the old
      messages, though fewer were left out: the newest one is always kept. */
  lemma OverLimitKeepsNewest(texts: Texts, messages: seq<Message>, now: int)
    returns (omitted: nat, marker: Message, cut: seq<Message>)
    requires Truncates(texts) && OverLimit(messages)
    ensures cut == BoundContents(texts, ShareAttachments(texts, messages, MAX_SESSION_ATTACHMENTS))
    ensures marker == HistoryMarkerMessage(texts, |messages|, Total(messages, ContentSize), now)
    ensures omitted < |messages| == |cut| && BoundHistory(texts, messages, now) == [marker] + cut[omitted..]
    ensures omitted == 0 || |messages| - omitted == MAX_SESSION_MESSAGES - 1
            || Total(BoundHistory(texts, messages, now), ContentSize)
               + |cut[omitted - 1].content| > MAX_SESSION_HISTORY_BYTES
  {
    var shared := ShareAttachments(texts, messages, MAX_SESSION_ATTACHMENTS);
    SharedFits(texts, messages, MAX_SESSION_ATTACHMENTS, shared);
    SharedTotals(texts, messages, MAX_SESSION_ATTACHMENTS, shared);
    cut := BoundContents(texts, shared);
    CutContents(texts, shared, cut);
    marker := HistoryMarkerMessage(texts, |messages|, Total(messages, ContentSize), now);
    omitted := MarkedKeepsNewest(texts, cut, marker);
    TotalConcat([marker], cut[omitted..], ContentSize);
    TotalOne(marker, ContentSize);
  }

  /** The limit is judged before anything is cut: one message alone gets a marker, although nothing is left out, if and
      only if it is over the limit of the whole transcript. */
  lemma HugeMessageGetsMarker(texts: Texts, m: Message, now: int)
    requires Truncates(texts)
    ensures |BoundHistory(texts, [m], now)| == if |m.content| > MAX_SESSION_HISTORY_BYTES then 2 else 1
    ensures |m.content| > MAX_SESSION_HISTORY_BYTES ==>
              var bounded := BoundHistory(texts, [m], now);
              && bounded[0] == HistoryMarkerMessage(texts, 1, |m.content|, now)
              && bounded[1].content == texts.truncate(m.content, MAX_SESSION_MESSAGE_BYTES, SessionMessage)
  {
    TotalOne(m, ContentSize);
    if |m.content| > MAX_SESSION_HISTORY_BYTES {
      var shared := ShareAttachments(texts, [m], MAX_SESSION_ATTACHMENTS);
      SharedKeepsContents(texts, [m], MAX_SESSION_ATTACHMENTS, shared, 0);
      var omitted, marker, cut := OverLimitKeepsNewest(texts, [m], now);
      assert omitted == 0 && cut[0..] == cut;
      assert cut[0] == BoundContent(texts, shared[0]);
    } else {
      UnderLimitKeepsEveryMessage(texts, [m], now, 0);
    }
  }

  // ---------------------------------------------------------------- the input history

  function EntrySize(entry: Bytes): nat {
    |entry|
  }

  function ShrinkEntry(texts: Texts): Bytes -> Bytes {
    (entry: Bytes) => texts.truncate(entry, MAX_INPUT_HISTORY_BYTES, InputHistory)
  }

  /** Judged after every entry has been cut. */
  predicate InputFits(history: seq<Bytes>) {
    |history| <= MAX_INPUT_HISTORY_ENTRIES && Total(history, EntrySize) <= MAX_INPUT_HISTORY_BYTES
  }

  function BoundInput(texts: Texts, history: seq<Bytes>): seq<Bytes> {
    var cut := BoundEntries(texts, history);
    if InputFits(cut) then cut
    else Newest(cut, MAX_INPUT_HISTORY_ENTRIES, MAX_INPUT_HISTORY_BYTES, EntrySize, ShrinkEntry(texts))
  }

  predicate EntriesWithin(history: seq<Bytes>) {
    forall i :: 0 <= i < |history| ==> |history[i]| <= MAX_INPUT_HISTORY_ENTRY_BYTES
  }

  predicate InputWithin(history: seq<Bytes>) {
    InputFits(history) && EntriesWithin(history)
  }

  lemma CutEntries(texts: Texts, history: seq<Bytes>, cut: seq<Bytes>)
    requires Truncates(texts) && cut == BoundEntries(texts, history)
    ensures EntriesWithin(cut) && (cut == history <==> EntriesWithin(history))
  {
    forall i | 0 <= i < |cut|
      ensures |cut[i]| <= MAX_INPUT_HISTORY_ENTRY_BYTES
      ensures cut[i] == history[i] <==> |history[i]| <= MAX_INPUT_HISTORY_ENTRY_BYTES
    {
    }
  }

  lemma BoundInputSuffix(texts: Texts, history: seq<Bytes>, cut: seq<Bytes>) returns (dropped: nat)
    requires Truncates(texts) && cut == BoundEntries(texts, history)
    ensures dropped <= |cut| && BoundInput(texts, history) == cut[dropped..] && InputFits(cut[dropped..])
    ensures dropped == 0 <==> InputFits(cut)
    ensures dropped == 0 || |cut| - dropped == MAX_INPUT_HISTORY_ENTRIES
            || Total(cut[dropped..], EntrySize) + |cut[dropped - 1]| > MAX_INPUT_HISTORY_BYTES
  {
    CutEntries(texts, history, cut);
    if InputFits(cut) {
      dropped := 0;
      assert cut[0..] == cut;
    } else {
      assert cut != [];
      dropped := NewestIsSuffix(cut, MAX_INPUT_HISTORY_ENTRIES, MAX_INPUT_HISTORY_BYTES, EntrySize, ShrinkEntry(texts));
      if dropped == 0 { assert cut[0..] == cut; }
    }
  }

  lemma SuffixEntriesWithin(cut: seq<Bytes>, dropped: nat, kept: seq<Bytes>)
    requires dropped <= |cut| && kept == cut[dropped..] && EntriesWithin(cut)
    ensures EntriesWithin(kept)
  {
  }

  /** The input history ends within its limits, changed exactly when it was not. */
  lemma BoundInputExact(texts: Texts, history: seq<Bytes>)
    requires Truncates(texts)
    ensures InputWithin(BoundInput(texts, history))
    ensures BoundInput(texts, history) == history <==> InputWithin(history)
  {
    var cut := BoundEntries(texts, history);
    CutEntries(texts, history, cut);
    var dropped := BoundInputSuffix(texts, history, cut);
    SuffixEntriesWithin(cut, dropped, cut[dropped..]);
    if InputWithin(history) {
      assert cut == history && dropped == 0 && cut[0..] == cut;
    }
  }

  /** Over the count or the total it is an unbroken run of the newest entries, and one entry more would break a limit.
      */
  lemma BoundInputKeepsNewest(texts: Texts, history: seq<Bytes>) returns (dropped: nat)
    requires Truncates(texts)
    ensures dropped <= |history| && BoundInput(texts, history) == BoundEntries(texts, history)[dropped..]
    ensures dropped == 0 || |history| - dropped == MAX_INPUT_HISTORY_ENTRIES
            || Total(BoundInput(texts, history), EntrySize)
               + |BoundEntries(texts, history)[dropped - 1]| > MAX_INPUT_HISTORY_BYTES
  {
    dropped := BoundInputSuffix(texts, history, BoundEntries(texts, history));
  }

  // ---------------------------------------------------------------- the session

  method CutMessages(texts: Texts, messages: seq<Message>) returns (cut: seq<Message>, changed: bool)
    ensures cut == BoundContents(texts, messages)
    ensures changed == SomeTooLong(messages)
  {
    cut, changed := [], false;
    var i := 0;
    while i < |messages|
      invariant 0 <= i <= |messages| && cut == BoundContents(texts, messages[..i])
      invariant changed == exists j :: 0 <= j < i && |messages[j].content| > MAX_SESSION_MESSAGE_BYTES
    {
      var message := messages[i];
      if |message.content| > MAX_SESSION_MESSAGE_BYTES {
        message := message.(content := texts.truncate(message.content, MAX_SESSION_MESSAGE_BYTES, SessionMessage));
        changed := true;
      }
      assert messages[..i + 1][..i] == messages[..i];
      cut := cut + [message];
      i := i + 1;
    }
    assert messages[..i] == messages;
  }

  method CutInput(texts: Texts, history: seq<Bytes>) returns (cut: seq<Bytes>, changed: bool)
    ensures cut == BoundEntries(texts, history) && changed == !EntriesWithin(history)
  {
    cut, changed := [], false;
    var i := 0;
    while i < |history|
      invariant 0 <= i <= |history| && cut == BoundEntries(texts, history[..i])
      invariant changed == exists j :: 0 <= j < i && |history[j]| > MAX_INPUT_HISTORY_ENTRY_BYTES
    {
      var entry := history[i];
      if |entry| > MAX_INPUT_HISTORY_ENTRY_BYTES {
        entry := texts.truncate(entry, MAX_INPUT_HISTORY_ENTRY_BYTES, InputHistoryEntry);
        changed := true;
      }
      assert history[..i + 1][..i] == history[..i];
      cut := cut + [entry];
      i := i + 1;
    }
    assert history[..i] == history;
  }

  method EnforceInputHistoryLimits(texts: Texts, history: seq<Bytes>) returns (bounded: seq<Bytes>, changed: bool)
    requires Truncates(texts)
    ensures bounded == BoundInput(texts, history) && InputWithin(bounded)
    ensures changed == !InputWithin(history) && (!changed ==> bounded == history)
  {
    bounded, changed := CutInput(texts, history);
    BoundInputExact(texts, history);
    CutEntries(texts, history, bounded);
    if |bounded| <= MAX_INPUT_HISTORY_ENTRIES && Total(bounded, EntrySize) <= MAX_INPUT_HISTORY_BYTES {
      return;
    }
    bounded := RetainNewest(bounded, MAX_INPUT_HISTORY_ENTRIES, MAX_INPUT_HISTORY_BYTES, EntrySize, ShrinkEntry(texts));
    changed := true;
  }

  method BoundTranscript(texts: Texts, shared: seq<Message>, now: int) returns (bounded: seq<Message>, changed: bool)
    requires Truncates(texts)
    ensures bounded == BoundShared(texts, shared, now)
    ensures changed == (OverLimit(shared) || SomeTooLong(shared))
  {
    var originalTotalBytes := Total(shared, ContentSize);
    var messagesOverLimit := |shared| > MAX_SESSION_MESSAGES || originalTotalBytes > MAX_SESSION_HISTORY_BYTES;
    bounded, changed := CutMessages(texts, shared);
    if !messagesOverLimit || bounded == [] {
      return;
    }
    var marker := HistoryMarkerMessage(texts, |shared|, originalTotalBytes, now);
    var budget := Remaining(MAX_SESSION_HISTORY_BYTES, |marker.content|);
    var retained := RetainNewest(bounded, MAX_SESSION_MESSAGES - 1, budget, ContentSize, ShrinkTo(texts, budget));
    bounded, changed := [marker] + retained, true;
  }

  method BoundMessages(texts: Texts, messages: seq<Message>, now: int) returns (bounded: seq<Message>, changed: bool)
    requires Truncates(texts)
    ensures bounded == BoundHistory(texts, messages, now) && HistoryWithin(bounded)
    ensures changed == !HistoryWithin(messages) && (!changed ==> bounded == messages)
  {
    var shared, sharedChanged := LimitAllAttachments(texts, messages);
    bounded, changed := BoundTranscript(texts, shared, now);
    changed := sharedChanged || changed;
    ChangedIff(texts, messages, shared);
    BoundHistoryExact(texts, messages, now);
  }

  method BoundPending(texts: Texts, list: seq<Attachment>) returns (bounded: seq<Attachment>, changed: bool)
    requires Truncates(texts)
    ensures bounded == LimitAttachments(texts, list, 0) && PendingWithin(bounded)
    ensures changed == !PendingWithin(list) && (!changed ==> bounded == list)
  {
    bounded, changed := EnforceAttachmentLimits(texts, list, 0);
    LimitAttachmentsExact(texts, list);
  }

  predicate PendingWithin(list: seq<Attachment>) {
    |list| <= MAX_SESSION_MESSAGE_ATTACHMENTS && AttachmentsWithin(list)
  }

  /** Enforcing the limits a second time does nothing. */
  lemma LimitsHoldOnce(texts: Texts, messages: seq<Message>, pending: seq<Attachment>, input: seq<Bytes>, now: int,
                       later: int)
    requires Truncates(texts)
    ensures BoundHistory(texts, BoundHistory(texts, messages, now), later) == BoundHistory(texts, messages, now)
    ensures LimitAttachments(texts, LimitAttachments(texts, pending, 0), 0) == LimitAttachments(texts, pending, 0)
    ensures BoundInput(texts, BoundInput(texts, input)) == BoundInput(texts, input)
  {
    BoundHistoryExact(texts, messages, now);
    BoundHistoryExact(texts, BoundHistory(texts, messages, now), later);
    LimitAttachmentsExact(texts, pending);
    LimitAttachmentsExact(texts, LimitAttachments(texts, pending, 0));
    BoundInputExact(texts, input);
    BoundInputExact(texts, BoundInput(texts, input));
  }

  predicate SessionWithin(messages: seq<Message>, pending: seq<Attachment>, input: seq<Bytes>) {
    HistoryWithin(messages) && PendingWithin(pending) && InputWithin(input)
  }

  class SessionState {
    var messages: seq<Message>
    var pendingAttachments: seq<Attachment>
    var inputHistory: seq<Bytes>

    constructor (messages: seq<Message>, pendingAttachments: seq<Attachment>, inputHistory: seq<Bytes>)
      ensures this.messages == messages && this.pendingAttachments == pendingAttachments
      ensures this.inputHistory == inputHistory
    {
      this.messages, this.pendingAttachments, this.inputHistory := messages, pendingAttachments, inputHistory;
    }

    /** Brings the session within every limit, and says whether it was outside one. */
    method EnforceHistoryLimits(texts: Texts, now: int) returns (changed: bool)
      requires Truncates(texts)
      modifies this
      ensures messages == BoundHistory(texts, old(messages), now)
      ensures pendingAttachments == LimitAttachments(texts, old(pendingAttachments), 0)
      ensures inputHistory == BoundInput(texts, old(inputHistory))
      ensures SessionWithin(messages, pendingAttachments, inputHistory)
      ensures changed == !SessionWithin(old(messages), old(pendingAttachments), old(inputHistory))
      ensures !changed ==> messages == old(messages)
      ensures !changed ==> pendingAttachments == old(pendingAttachments) && inputHistory == old(inputHistory)
    {
      var inputChanged, attachmentsChanged, messagesChanged;
      inputHistory, inputChanged := EnforceInputHistoryLimits(texts, inputHistory);
      pendingAttachments, attachmentsChanged := BoundPending(texts, pendingAttachments);
      messages, messagesChanged := BoundMessages(texts, messages, now);
      changed := inputChanged || attachmentsChanged || messagesChanged;
    }
  }
}
