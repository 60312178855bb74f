/** Messages and their attachments, and sharing the session's attachments between its messages. */
module SessionAttachments {
  import opened NewestFirst
  import opened Prelude
  import opened Utf8Text

  const MAX_SESSION_ATTACHMENTS: nat := 128
  const MAX_SESSION_MESSAGE_ATTACHMENTS: nat := 16
  const MAX_ATTACHMENT_FIELD_BYTES: nat := 8 * 1024

  datatype Attachment = Attachment(path: Bytes, kind: Bytes, mimeType: Option<Bytes>, name: Option<Bytes>,
                                   sizeBytes: Option<nat>)

  datatype Message = Message(role: Role, content: Bytes, attachments: seq<Attachment>, createdAt: int)

  datatype Role = System | Other(name: string)

  /** What a truncated text says it is. */
  datatype Label =
    | AttachmentPath | AttachmentKind | AttachmentMimeType | AttachmentName
    | SessionMessage | RetainedMessage | HistoryMarker | InputHistoryEntry | InputHistory

  /** How the session cuts a text down to a number of bytes, and how it words the notice of what was left out. */
  datatype Texts = Texts(truncate: (Bytes, nat, Label) -> Bytes, notice: (nat, nat) -> Bytes)

  /** Cut texts are within the limit, and texts within the limit are not cut. */
  ghost predicate Truncates(texts: Texts) {
    forall value: Bytes, maxBytes: nat, what: Label ::
      && |texts.truncate(value, maxBytes, what)| <= maxBytes
      && (|value| <= maxBytes ==> texts.truncate(value, maxBytes, what) == value)
  }

  // ---------------------------------------------------------------- attachments

  function BoundField(texts: Texts, value: Bytes, what: Label): Bytes {
    texts.truncate(value, MAX_ATTACHMENT_FIELD_BYTES, what)
  }

  function BoundOptional(texts: Texts, value: Option<Bytes>, what: Label): Option<Bytes> {
    match value
    case None => None
    case Some(field) => Some(BoundField(texts, field, what))
  }

  function BoundAttachment(texts: Texts, a: Attachment): Attachment {
    Attachment(
      BoundField(texts, a.path, AttachmentPath), BoundField(texts, a.kind, AttachmentKind),
      BoundOptional(texts, a.mimeType, AttachmentMimeType), BoundOptional(texts, a.name, AttachmentName), a.sizeBytes)
  }

  predicate OptionalWithin(value: Option<Bytes>) {
    value.Some? ==> |value.value| <= MAX_ATTACHMENT_FIELD_BYTES
  }

  predicate AttachmentWithin(a: Attachment) {
    && |a.path| <= MAX_ATTACHMENT_FIELD_BYTES && |a.kind| <= MAX_ATTACHMENT_FIELD_BYTES
    && OptionalWithin(a.mimeType) && OptionalWithin(a.name)
  }

  predicate AttachmentsWithin(list: seq<Attachment>) {
    forall i :: 0 <= i < |list| ==> AttachmentWithin(list[i])
  }

  function BoundAttachments(texts: Texts, list: seq<Attachment>): (bounded: seq<Attachment>)
    ensures |bounded| == |list|
  {
    if list == [] then []
    else BoundAttachments(texts, list[..|list| - 1]) + [BoundAttachment(texts, list[|list| - 1])]
  }

  lemma BoundAttachmentExact(texts: Texts, a: Attachment)
    requires Truncates(texts)
    ensures AttachmentWithin(BoundAttachment(texts, a))
    ensures BoundAttachment(texts, a) == a <==> AttachmentWithin(a)
  {
  }

  lemma {:induction false} BoundAttachmentsExact(texts: Texts, list: seq<Attachment>)
    requires Truncates(texts)
    ensures AttachmentsWithin(BoundAttachments(texts, list))
    ensures BoundAttachments(texts, list) == list <==> AttachmentsWithin(list)
  {
    if list != [] {
      var front, last := list[..|list| - 1], list[|list| - 1];
      BoundAttachmentsExact(texts, front);
      BoundAttachmentExact(texts, last);
      assert list == front + [last];
    }
  }

  /** The number of attachments kept of `count`; a limit of zero stands for the session's own. */
  function KeptAttachments(count: nat, available: nat): (keep: nat)
    ensures keep <= count && keep <= MAX_SESSION_MESSAGE_ATTACHMENTS
    ensures 0 < available ==> keep <= available
  {
    Min(Min(count, MAX_SESSION_MESSAGE_ATTACHMENTS), if available == 0 then MAX_SESSION_ATTACHMENTS else available)
  }

  function LimitAttachments(texts: Texts, list: seq<Attachment>, available: nat): seq<Attachment> {
    BoundAttachments(texts, LastOf(list, KeptAttachments(|list|, available)))
  }

  lemma LimitAttachmentsExact(texts: Texts, list: seq<Attachment>)
    requires Truncates(texts)
    ensures |LimitAttachments(texts, list, 0)| <= MAX_SESSION_MESSAGE_ATTACHMENTS
    ensures AttachmentsWithin(LimitAttachments(texts, list, 0))
    ensures LimitAttachments(texts, list, 0) == list
            <==> |list| <= MAX_SESSION_MESSAGE_ATTACHMENTS && AttachmentsWithin(list)
  {
    var kept := LastOf(list, KeptAttachments(|list|, 0));
    BoundAttachmentsExact(texts, kept);
    if |list| <= MAX_SESSION_MESSAGE_ATTACHMENTS { assert kept == list; }
  }

  method BoundAttachmentFields(texts: Texts, a: Attachment) returns (bounded: Attachment, changed: bool)
    ensures bounded == BoundAttachment(texts, a) && changed == (bounded != a)
  {
    bounded, changed := a, false;
    var path := texts.truncate(a.path, MAX_ATTACHMENT_FIELD_BYTES, AttachmentPath);
    if path != a.path {
      bounded, changed := bounded.(path := path), true;
    }
    var kind := texts.truncate(a.kind, MAX_ATTACHMENT_FIELD_BYTES, AttachmentKind);
    if kind != a.kind {
      bounded, changed := bounded.(kind := kind), true;
    }
    if a.mimeType.Some? {
      var mimeType := texts.truncate(a.mimeType.value, MAX_ATTACHMENT_FIELD_BYTES, AttachmentMimeType);
      if mimeType != a.mimeType.value {
        bounded, changed := bounded.(mimeType := Some(mimeType)), true;
      }
    }
    if a.name.Some? {
      var name := texts.truncate(a.name.value, MAX_ATTACHMENT_FIELD_BYTES, AttachmentName);
      if name != a.name.value {
        bounded, changed := bounded.(name := Some(name)), true;
      }
    }
  }

  method BoundEachAttachment(texts: Texts, list: seq<Attachment>) returns (bounded: seq<Attachment>, changed: bool)
    ensures bounded == BoundAttachments(texts, list) && changed == (bounded != list)
  {
    bounded, changed := [], false;
    var i := 0;
    while i < |list|
      invariant 0 <= i <= |list|
      invariant bounded == BoundAttachments(texts, list[..i]) && changed == (bounded != list[..i])
    {
      var attachment, fieldChanged := BoundAttachmentFields(texts, list[i]);
      assert list[..i + 1] == list[..i] + [list[i]] && list[..i + 1][..i] == list[..i];
      AppendSame(bounded, attachment, list[..i], list[i]);
      bounded := bounded + [attachment];
      changed := changed || fieldChanged;
      i := i + 1;
    }
    assert list[..i] == list;
  }

  method EnforceAttachmentLimits(texts: Texts, list: seq<Attachment>, available: nat)
    returns (bounded: seq<Attachment>, changed: bool)
    ensures bounded == LimitAttachments(texts, list, available) && changed == (bounded != list)
  {
    var keep := KeptAttachments(|list|, available);
    bounded, changed := BoundEachAttachment(texts, LastOf(list, keep));
    if |list| > keep {
      changed := true;
    } else {
      assert LastOf(list, keep) == list;
    }
  }

  // ---------------------------------------------------------------- messages share the attachments

  function ContentSize(m: Message): nat {
    |m.content|
  }

  function AttachmentCount(m: Message): nat {
    |m.attachments|
  }

  function SharedCount(count: nat, remaining: nat): (keep: nat)
    ensures keep <= count && keep <= MAX_SESSION_MESSAGE_ATTACHMENTS && keep <= remaining
    ensures keep == count || keep == MAX_SESSION_MESSAGE_ATTACHMENTS || keep == remaining
  {
    Min(Min(count, MAX_SESSION_MESSAGE_ATTACHMENTS), remaining)
  }

  /** `m` with its newest `keep` attachments. */
  function LimitMessage(texts: Texts, m: Message, keep: nat): Message
    requires keep <= |m.attachments|
  {
    m.(attachments := LimitAttachments(texts, LastOf(m.attachments, keep), keep))
  }

  predicate AttachmentsFit(m: Message) {
    |m.attachments| <= MAX_SESSION_MESSAGE_ATTACHMENTS && AttachmentsWithin(m.attachments)
  }

  predicate AllAttachmentsFit(messages: seq<Message>) {
    forall i :: 0 <= i < |messages| ==> AttachmentsFit(messages[i])
  }

  lemma LimitMessageExact(texts: Texts, m: Message, keep: nat)
    requires Truncates(texts) && keep <= |m.attachments| && keep <= MAX_SESSION_MESSAGE_ATTACHMENTS
    ensures |LimitMessage(texts, m, keep).attachments| == keep && AttachmentsFit(LimitMessage(texts, m, keep))
    ensures LimitMessage(texts, m, keep).content == m.content
    ensures LimitMessage(texts, m, keep) == m <==> keep == |m.attachments| && AttachmentsWithin(m.attachments)
  {
    var kept := LastOf(m.attachments, keep);
    assert LastOf(kept, KeptAttachments(keep, keep)) == kept;
    BoundAttachmentsExact(texts, kept);
    if keep == |m.attachments| { assert kept == m.attachments; }
  }

  /** From the newest message to the oldest, each takes what it may of the attachments that remain. */
  function ShareAttachments(texts: Texts, messages: seq<Message>, remaining: nat): (shared: seq<Message>)
    ensures |shared| == |messages|
  {
    if messages == [] then []
    else
      var m := messages[|messages| - 1];
      var keep := SharedCount(|m.attachments|, remaining);
      ShareAttachments(texts, messages[..|messages| - 1], remaining - keep) + [LimitMessage(texts, m, keep)]
  }

  lemma ShareStep(texts: Texts, messages: seq<Message>, remaining: nat,
                  older: seq<Message>, m: Message, keep: nat, left: nat, limited: Message)
    requires messages == older + [m] && keep == SharedCount(|m.attachments|, remaining)
    requires left == remaining - keep && limited == LimitMessage(texts, m, keep)
    ensures ShareAttachments(texts, messages, remaining) == ShareAttachments(texts, older, left) + [limited]
  {
    assert messages[..|messages| - 1] == older;
  }

  lemma JoinFits(front: seq<Message>, last: Message, whole: seq<Message>)
    requires AllAttachmentsFit(front) && AttachmentsFit(last) && whole == front + [last]
    ensures AllAttachmentsFit(whole)
  {
  }

  /** What the newest message gets, and what it leaves to the others. */
  lemma ShareNewest(texts: Texts, messages: seq<Message>, remaining: nat)
    returns (older: seq<Message>, m: Message, left: nat, limited: Message)
    requires Truncates(texts) && messages != []
    ensures messages == older + [m] && |older| < |messages|
    ensures ShareAttachments(texts, messages, remaining) == ShareAttachments(texts, older, left) + [limited]
    ensures limited.content == m.content && limited.role == m.role && limited.createdAt == m.createdAt
    ensures AttachmentsFit(limited) && |limited.attachments| + left == remaining
  {
    older, m := messages[..|messages| - 1], messages[|messages| - 1];
    var keep := SharedCount(|m.attachments|, remaining);
    left, limited := remaining - keep, LimitMessage(texts, m, keep);
    ShareStep(texts, messages, remaining, older, m, keep, left, limited);
    LimitMessageExact(texts, m, keep);
  }

  /** No message has too many attachments. */
  lemma {:induction false} SharedFits(texts: Texts, messages: seq<Message>, remaining: nat, shared: seq<Message>)
    requires Truncates(texts) && shared == ShareAttachments(texts, messages, remaining)
    ensures AllAttachmentsFit(shared)
    decreases |messages|
  {
    if messages != [] {
      var older, m, left, limited := ShareNewest(texts, messages, remaining);
      var front := ShareAttachments(texts, older, left);
      SharedFits(texts, older, left, front);
      JoinFits(front, limited, shared);
    }
  }

  /** Together the messages have no more attachments than remained, and their contents are untouched. */
  lemma {:induction false} SharedTotals(texts: Texts, messages: seq<Message>, remaining: nat, shared: seq<Message>)
    requires Truncates(texts) && shared == ShareAttachments(texts, messages, remaining)
    ensures Total(shared, AttachmentCount) <= remaining && Total(shared, ContentSize) == Total(messages, ContentSize)
    decreases |messages|
  {
    if messages != [] {
      var older, m, left, limited := ShareNewest(texts, messages, remaining);
      var front := ShareAttachments(texts, older, left);
      SharedTotals(texts, older, left, front);
      TotalsAppend(front, limited, shared);
      TotalsAppend(older, m, messages);
    }
  }

  lemma TotalsAppend(front: seq<Message>, last: Message, whole: seq<Message>)
    requires whole == front + [last]
    ensures Total(whole, AttachmentCount) == Total(front, AttachmentCount) + |last.attachments|
    ensures Total(whole, ContentSize) == Total(front, ContentSize) + |last.content|
  {
    TotalAppend(front, last, AttachmentCount);
    TotalAppend(front, last, ContentSize);
  }

  /** Messages whose attachments fit are left as they are, and no others. */
  lemma {:induction false} SharedKeeps(texts: Texts, messages: seq<Message>, remaining: nat)
    requires Truncates(texts) && AllAttachmentsFit(messages) && Total(messages, AttachmentCount) <= remaining
    ensures ShareAttachments(texts, messages, remaining) == messages
    decreases |messages|
  {
    if messages != [] {
      var older, m := messages[..|messages| - 1], messages[|messages| - 1];
      assert messages == older + [m];
      TotalAppend(older, m, AttachmentCount);
      assert AttachmentsFit(m);
      var keep := |m.attachments|;
      var left: nat := remaining - keep;
      LimitMessageExact(texts, m, keep);
      SharedKeeps(texts, older, left);
      ShareStep(texts, messages, remaining, older, m, keep, left, m);
    }
  }

  lemma TotalAppend<T>(front: seq<T>, last: T, size: T -> nat)
    ensures Total(front + [last], size) == Total(front, size) + size(last)
  {
    assert (front + [last])[..|front|] == front;
  }

  method LimitMessageAttachments(texts: Texts, m: Message, keep: nat) returns (limited: Message, changed: bool)
    requires keep <= |m.attachments|
    ensures limited == LimitMessage(texts, m, keep) && changed == (limited != m)
  {
    var kept := LastOf(m.attachments, keep);
    var attachments, fieldChanged := EnforceAttachmentLimits(texts, kept, keep);
    limited := m.(attachments := attachments);
    if |m.attachments| > keep {
      changed := true;
    } else {
      assert kept == m.attachments;
      changed := fieldChanged;
    }
  }

  method LimitNewest(texts: Texts, older: seq<Message>, remaining: nat)
    returns (front: seq<Message>, left: nat, limited: Message, changed: bool)
    requires older != []
    ensures older == front + [older[|older| - 1]] && changed == (limited != older[|older| - 1])
    ensures ShareAttachments(texts, older, remaining) == ShareAttachments(texts, front, left) + [limited]
  {
    front := older[..|older| - 1];
    var message := older[|older| - 1];
    var keep := SharedCount(|message.attachments|, remaining);
    limited, changed := LimitMessageAttachments(texts, message, keep);
    left := remaining - keep;
    ShareStep(texts, older, remaining, front, message, keep, left, limited);
  }

  method LimitAllAttachments(texts: Texts, messages: seq<Message>) returns (shared: seq<Message>, changed: bool)
    ensures shared == ShareAttachments(texts, messages, MAX_SESSION_ATTACHMENTS) && changed == (shared != messages)
  {
    shared, changed := [], false;
    ghost var whole := ShareAttachments(texts, messages, MAX_SESSION_ATTACHMENTS);
    ghost var done: seq<Message> := [];
    var older, remaining: nat := messages, MAX_SESSION_ATTACHMENTS;
    while older != []
      invariant older + done == messages && |shared| == |done| && changed == (shared != done)
      invariant ShareAttachments(texts, older, remaining) + shared == whole
      decreases |older|
    {
      var message := older[|older| - 1];
      var front, left, limited, limitedChanged := LimitNewest(texts, older, remaining);
      MoveOne(ShareAttachments(texts, front, left), limited, shared, ShareAttachments(texts, older, remaining));
      MoveOne(front, message, done, older);
      PrependSame(limited, shared, message, done);
      changed := changed || limitedChanged;
      shared, done := [limited] + shared, [message] + done;
      older, remaining := front, left;
    }
  }

  lemma PrependSame<T>(a: T, s: seq<T>, b: T, t: seq<T>)
    requires |s| == |t|
    ensures [a] + s == [b] + t <==> a == b && s == t
  {
    if [a] + s == [b] + t {
      assert ([a] + s)[0] == a && ([b] + t)[0] == b;
      assert ([a] + s)[1..] == s && ([b] + t)[1..] == t;
    }
  }

  lemma AppendSame<T>(s: seq<T>, a: T, t: seq<T>, b: T)
    requires |s| == |t|
    ensures s + [a] == t + [b] <==> a == b && s == t
  {
    if s + [a] == t + [b] {
      assert (s + [a])[|s|] == a && (t + [b])[|t|] == b;
      assert (s + [a])[..|s|] == s && (t + [b])[..|t|] == t;
    }
  }

  lemma MoveOne<T>(front: seq<T>, item: T, rest: seq<T>, whole: seq<T>)
    requires whole == front + [item]
    ensures whole + rest == front + ([item] + rest)
  {
  }
}
