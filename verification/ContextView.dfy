/** What a model is shown of the window: the newest summaries that fit a byte budget, then the live messages. */
module ContextView {
  import opened ContextWindow
  import opened Prelude
  import opened Utf8Text

  /** How a summary is written out, and which texts are nothing but white space. */
  datatype View = View(texts: Texts, render: Compaction -> Bytes, blank: Bytes -> bool)

  ghost predicate Shows(view: View) {
    Bounds(view.texts) && view.blank([])
  }

  function Separator(): Bytes {
    [0x0A, 0x0A]
  }

  function Joined(pieces: seq<Bytes>): Bytes {
    if pieces == [] then []
    else if |pieces| == 1 then pieces[0]
    else pieces[0] + Separator() + Joined(pieces[1..])
  }

  function SeparatorLength(pieces: seq<Bytes>): nat {
    if pieces == [] then 0 else 2
  }

  lemma JoinedPrepend(piece: Bytes, pieces: seq<Bytes>, longer: seq<Bytes>)
    requires longer == [piece] + pieces
    ensures |Joined(longer)| == |piece| + SeparatorLength(pieces) + |Joined(pieces)|
  {
    assert longer[1..] == pieces;
  }

  /** What fits of `summaries`, from the newest to the oldest, before the `pieces` that already use `used` bytes. */
  function Pieces(view: View, summaries: seq<Compaction>, used: nat, pieces: seq<Bytes>): seq<Bytes> {
    if summaries == [] then pieces
    else
      var older, rendered := summaries[..|summaries| - 1], view.render(summaries[|summaries| - 1]);
      if view.blank(rendered) then Pieces(view, older, used, pieces)
      else if used + SeparatorLength(pieces) >= MAX_CONTEXT_SUMMARY_BYTES then pieces
      else
        var piece := view.texts.bound(rendered, MAX_CONTEXT_SUMMARY_BYTES - (used + SeparatorLength(pieces)));
        var usedNow := used + SeparatorLength(pieces) + |piece|;
        if usedNow >= MAX_CONTEXT_SUMMARY_BYTES then [piece] + pieces
        else Pieces(view, older, usedNow, [piece] + pieces)
  }

  function VisibleSummary(view: View, summary: Bytes, summaries: seq<Compaction>): Bytes {
    if summaries == [] then view.texts.bound(summary, MAX_CONTEXT_SUMMARY_BYTES)
    else Joined(Pieces(view, summaries, 0, []))
  }

  // ---------------------------------------------------------------- within the budget, and complete when it can be

  predicate UsedExactly(used: nat, pieces: seq<Bytes>) {
    used == |Joined(pieces)| <= MAX_CONTEXT_SUMMARY_BYTES
  }

  lemma {:induction false} PiecesFit(view: View, summaries: seq<Compaction>, used: nat, pieces: seq<Bytes>)
    requires Shows(view) && UsedExactly(used, pieces)
    ensures |Joined(Pieces(view, summaries, used, pieces))| <= MAX_CONTEXT_SUMMARY_BYTES
    decreases |summaries|
  {
    if summaries != [] {
      var older, rendered := summaries[..|summaries| - 1], view.render(summaries[|summaries| - 1]);
      if view.blank(rendered) {
        PiecesFit(view, older, used, pieces);
      } else if used + SeparatorLength(pieces) < MAX_CONTEXT_SUMMARY_BYTES {
        var piece := view.texts.bound(rendered, MAX_CONTEXT_SUMMARY_BYTES - (used + SeparatorLength(pieces)));
        var usedNow := used + SeparatorLength(pieces) + |piece|;
        JoinedPrepend(piece, pieces, [piece] + pieces);
        PiecesFit(view, older, usedNow, [piece] + pieces);
      }
    }
  }

  /** The summaries written out, without those that are only white space. */
  function Rendered(view: View, summaries: seq<Compaction>): seq<Bytes> {
    if summaries == [] then []
    else
      var rendered := view.render(summaries[|summaries| - 1]);
      Rendered(view, summaries[..|summaries| - 1]) + if view.blank(rendered) then [] else [rendered]
  }

  lemma {:induction false} JoinedGrows(front: seq<Bytes>, pieces: seq<Bytes>)
    ensures |Joined(front + pieces)| >= |Joined(pieces)| + if front == [] then 0 else SeparatorLength(pieces)
    decreases |front|
  {
    if front == [] {
      assert front + pieces == pieces;
    } else {
      JoinedGrows(front[1..], pieces);
      JoinedPrepend(front[0], front[1..] + pieces, front + pieces);
    }
  }

  lemma {:induction false} PiecesComplete(view: View, summaries: seq<Compaction>, used: nat, pieces: seq<Bytes>)
    requires Shows(view) && UsedExactly(used, pieces)
    requires |Joined(Rendered(view, summaries) + pieces)| <= MAX_CONTEXT_SUMMARY_BYTES
    ensures Pieces(view, summaries, used, pieces) == Rendered(view, summaries) + pieces
    decreases |summaries|
  {
    if summaries != [] {
      var older, rendered := summaries[..|summaries| - 1], view.render(summaries[|summaries| - 1]);
      var front := Rendered(view, older);
      if view.blank(rendered) {
        assert front + [] == front;
        PiecesComplete(view, older, used, pieces);
      } else {
        var longer := [rendered] + pieces;
        assert Rendered(view, summaries) + pieces == front + longer;
        JoinedGrows(front, longer);
        JoinedPrepend(rendered, pieces, longer);
        assert rendered != [];
        if |Joined(longer)| < MAX_CONTEXT_SUMMARY_BYTES {
          PiecesComplete(view, older, |Joined(longer)|, longer);
        } else {
          assert front == [] && front + longer == longer;
        }
      }
    }
  }

  /** The shown summary is within its budget, and when all the summaries fit it is all of them. */
  lemma VisibleSummaryFits(view: View, summary: Bytes, summaries: seq<Compaction>)
    requires Shows(view)
    ensures |VisibleSummary(view, summary, summaries)| <= MAX_CONTEXT_SUMMARY_BYTES
    ensures summaries != [] && |Joined(Rendered(view, summaries))| <= MAX_CONTEXT_SUMMARY_BYTES
            ==> VisibleSummary(view, summary, summaries) == Joined(Rendered(view, summaries))
  {
    PiecesFit(view, summaries, 0, []);
    if |Joined(Rendered(view, summaries))| <= MAX_CONTEXT_SUMMARY_BYTES {
      assert Rendered(view, summaries) + [] == Rendered(view, summaries);
      PiecesComplete(view, summaries, 0, []);
    }
  }

  lemma {:induction false} PiecesKeep(view: View, summaries: seq<Compaction>, used: nat, pieces: seq<Bytes>)
    requires pieces != []
    ensures |Pieces(view, summaries, used, pieces)| > 0
    ensures Pieces(view, summaries, used, pieces)[|Pieces(view, summaries, used, pieces)| - 1] == pieces[|pieces| - 1]
    decreases |summaries|
  {
    if summaries != [] {
      var older, rendered := summaries[..|summaries| - 1], view.render(summaries[|summaries| - 1]);
      if view.blank(rendered) {
        PiecesKeep(view, older, used, pieces);
      } else if used + SeparatorLength(pieces) < MAX_CONTEXT_SUMMARY_BYTES {
        var piece := view.texts.bound(rendered, MAX_CONTEXT_SUMMARY_BYTES - (used + SeparatorLength(pieces)));
        PiecesKeep(view, older, used + SeparatorLength(pieces) + |piece|, [piece] + pieces);
      }
    }
  }

  /** However long they are, the newest summary is always shown last, cut only to the whole budget. */
  lemma NewestIsShown(view: View, summaries: seq<Compaction>)
    requires Shows(view) && summaries != [] && !view.blank(view.render(summaries[|summaries| - 1]))
    ensures var shown := Pieces(view, summaries, 0, []);
            && shown != []
            && shown[|shown| - 1]
               == view.texts.bound(view.render(summaries[|summaries| - 1]), MAX_CONTEXT_SUMMARY_BYTES)
  {
    var piece := view.texts.bound(view.render(summaries[|summaries| - 1]), MAX_CONTEXT_SUMMARY_BYTES);
    PiecesKeep(view, summaries[..|summaries| - 1], |piece|, [piece] + []);
  }

  // ---------------------------------------------------------------- the loop

  method ShowSummary(view: View, summary: Bytes, compacted: seq<Compaction>) returns (shown: Bytes)
    requires Shows(view)
    ensures shown == VisibleSummary(view, summary, compacted)
  {
    if compacted == [] {
      return view.texts.bound(summary, MAX_CONTEXT_SUMMARY_BYTES);
    }
    var summaries: seq<Bytes> := [];
    var used: nat, left := 0, compacted;
    ghost var whole := Pieces(view, compacted, 0, []);
    while left != []
      invariant UsedExactly(used, summaries)
      invariant Pieces(view, left, used, summaries) == whole
      decreases |left|
    {
      var rendered := view.render(left[|left| - 1]);
      left := left[..|left| - 1];
      if view.blank(rendered) {
        continue;
      }
      var separator := SeparatorLength(summaries);
      var remaining: nat :=
        if used + separator < MAX_CONTEXT_SUMMARY_BYTES then MAX_CONTEXT_SUMMARY_BYTES - (used + separator) else 0;
      if remaining == 0 {
        return Joined(summaries);
      }
      rendered := view.texts.bound(rendered, remaining);
      JoinedPrepend(rendered, summaries, [rendered] + summaries);
      used := used + separator + |rendered|;
      summaries := [rendered] + summaries;
      if used >= MAX_CONTEXT_SUMMARY_BYTES {
        return Joined(summaries);
      }
    }
    shown := Joined(summaries);
  }

  // ---------------------------------------------------------------- the messages shown

  function Heading(): Bytes {
    Ascii("Prior context summary:\n")
  }

  function VisibleMessages(view: View, w: Window): seq<Message> {
    var summary := view.texts.bound(VisibleSummary(view, w.summary, w.summaries), MAX_CONTEXT_MESSAGE_BYTES - 64);
    if view.blank(summary) then w.messages
    else [Message(System, Heading() + summary, Some(Ascii("context_summary")))] + w.messages
  }

  /** Everything shown is within the limit of one message, the live messages are all there, and at most one more. */
  lemma VisibleMessagesFit(view: View, w: Window, maxMessages: nat)
    requires Shows(view) && WindowWithin(w, maxMessages)
    ensures MessagesWithin(VisibleMessages(view, w)) && |VisibleMessages(view, w)| <= Limit(maxMessages) + 1
    ensures w.messages == VisibleMessages(view, w)[|VisibleMessages(view, w)| - |w.messages|..]
  {
    var shown := VisibleMessages(view, w);
    assert |Heading()| == 23;
    if |shown| > |w.messages| {
      assert shown[1..] == w.messages && |shown[0].content| <= MAX_CONTEXT_MESSAGE_BYTES;
      assert forall i :: 0 < i < |shown| ==> shown[i] == w.messages[i - 1];
    }
  }

  /** So everything proved of a window holds with its own truncator, whatever is read out of the messages. */
  lemma BoundedBounds(digest: seq<Message> -> Bytes)
    ensures Bounds(Texts(Bounded, digest))
  {
    forall value: Bytes, maxBytes: nat
      ensures |Bounded(value, maxBytes)| <= maxBytes && (|value| <= maxBytes ==> Bounded(value, maxBytes) == value)
    {
      BoundedFits(value, maxBytes, ContextMarker());
    }
  }
}
