/** The texts the session really uses: the middle truncator, its labels and the wording of the notice. */
module SessionTexts {
  import opened SessionAttachments
  import opened Utf8Text

  function LabelText(what: Label): string {
    match what
    case AttachmentPath => "attachment path"
    case AttachmentKind => "attachment kind"
    case AttachmentMimeType => "attachment MIME type"
    case AttachmentName => "attachment name"
    case SessionMessage => "session message"
    case RetainedMessage => "session history"
    case HistoryMarker => "history marker"
    case InputHistoryEntry => "input history entry"
    case InputHistory => "input history"
  }

  function TruncateLabelled(value: Bytes, maxBytes: nat, what: Label): Bytes {
    Truncated(value, maxBytes, Ascii(LabelText(what)))
  }

  function HistoryNotice(messages: nat, bytes: nat): Bytes {
    Ascii("Earlier session history was bounded by Vegvisir. Omitted ") + Decimal(messages)
    + Ascii(" older message(s) (") + Decimal(bytes)
    + Ascii(" bytes); detailed tool output remains in run/task artifacts.")
  }

  function SessionTexts(): Texts {
    Texts(TruncateLabelled, HistoryNotice)
  }

  /** So everything proved of a session holds with its own truncator. */
  lemma SessionTextsTruncate()
    ensures Truncates(SessionTexts())
  {
    forall value: Bytes, maxBytes: nat, what: Label
      ensures |TruncateLabelled(value, maxBytes, what)| <= maxBytes
      ensures |value| <= maxBytes ==> TruncateLabelled(value, maxBytes, what) == value
    {
      TruncatedFits(value, maxBytes, Ascii(LabelText(what)));
    }
  }

  /** Bounded texts are still well-formed UTF-8, whatever they are a text of. */
  lemma BoundedTextsAreUtf8(value: Bytes, maxBytes: nat, what: Label)
    requires ValidUtf8(value)
    ensures ValidUtf8(SessionTexts().truncate(value, maxBytes, what))
  {
    AsciiValid(LabelText(what));
    TruncatedFits(value, maxBytes, Ascii(LabelText(what)));
  }
}
