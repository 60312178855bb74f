/** UTF-8 text as bytes, and the two truncators that cut it at character boundaries. */
module Utf8Text {
  newtype byte = x: int | 0 <= x < 256

  type Bytes = seq<byte>

  // ---------------------------------------------------------------- UTF-8, RFC 3629

  predicate In(b: byte, low: byte, high: byte) {
    low <= b <= high
  }

  predicate IsTail(b: byte) {
    In(b, 0x80, 0xBF)
  }

  predicate Tails(s: Bytes, from: nat, to: nat) {
    to <= |s| && forall i :: from <= i < to ==> IsTail(s[i])
  }

  /** The length of the character `s` starts with, zero if it does not start with a well-formed one. */
  function CharLength(s: Bytes): (n: nat)
    ensures n <= |s| && n <= 4
    ensures forall i :: 0 < i < n ==> IsTail(s[i])
    ensures n > 0 ==> !IsTail(s[0])
  {
    if s == [] then 0
    else if s[0] <= 0x7F then 1
    else if In(s[0], 0xC2, 0xDF) && Tails(s, 1, 2) then 2
    else if In(s[0], 0xE0, 0xEF) && Tails(s, 1, 3)
            && (s[0] == 0xE0 ==> s[1] >= 0xA0) && (s[0] == 0xED ==> s[1] <= 0x9F) then 3
    else if In(s[0], 0xF0, 0xF4) && Tails(s, 1, 4)
            && (s[0] == 0xF0 ==> s[1] >= 0x90) && (s[0] == 0xF4 ==> s[1] <= 0x8F) then 4
    else 0
  }

  predicate ValidUtf8(s: Bytes)
    decreases |s|
  {
    s == [] || (CharLength(s) > 0 && ValidUtf8(s[CharLength(s)..]))
  }

  predicate IsBoundary(s: Bytes, i: nat) {
    i == 0 || i == |s| || (i < |s| && !IsTail(s[i]))
  }

  lemma CharLengthIsLocal(s: Bytes, more: Bytes)
    requires CharLength(s) > 0
    ensures CharLength(s + more) == CharLength(s)
    ensures forall i :: CharLength(s) <= i <= |s| ==> CharLength(s[..i]) == CharLength(s)
  {
    assert (s + more)[0] == s[0];
    assert forall i :: 0 <= i < |s| ==> (s + more)[i] == s[i];
    if |s| > 1 && |s + more| > 1 { assert (s + more)[1] == s[1]; }
  }

  lemma {:induction false} ValidConcat(a: Bytes, b: Bytes)
    requires ValidUtf8(a) && ValidUtf8(b)
    ensures ValidUtf8(a + b)
    decreases |a|
  {
    if a == [] {
      assert a + b == b;
    } else {
      var n := CharLength(a);
      CharLengthIsLocal(a, b);
      assert (a + b)[n..] == a[n..] + b;
      ValidConcat(a[n..], b);
    }
  }

  /** Cutting valid text at a character boundary leaves two valid texts. */
  lemma {:induction false} ValidSplit(s: Bytes, i: nat)
    requires ValidUtf8(s) && i <= |s| && IsBoundary(s, i)
    ensures ValidUtf8(s[..i]) && ValidUtf8(s[i..])
    decreases |s|
  {
    if i > 0 {
      var n := CharLength(s);
      assert i >= n;
      CharLengthIsLocal(s, []);
      var j := i - n;
      assert s[n..][j..] == s[i..] && s[n..][..j] == s[..i][n..];
      assert j < |s[n..]| ==> s[n..][j] == s[i];
      ValidSplit(s[n..], j);
    } else {
      assert s[..0] == [] && s[0..] == s;
    }
  }

  /** In valid text no position is more than three bytes past a boundary, nor more than three before one. */
  lemma {:induction false} BoundaryNear(s: Bytes, i: nat) returns (below: nat, above: nat)
    requires ValidUtf8(s) && i <= |s|
    ensures below <= i <= below + 3 && IsBoundary(s, below)
    ensures i <= above <= i + 3 && above <= |s| && IsBoundary(s, above)
    decreases |s|
  {
    if s == [] {
      below, above := 0, 0;
    } else {
      var n := CharLength(s);
      if i < n {
        below, above := 0, if i == 0 then 0 else n;
        if n < |s| {
          assert s[n..][0] == s[n];
          assert CharLength(s[n..]) > 0;
        }
      } else {
        var b, a := BoundaryNear(s[n..], i - n);
        below, above := n + b, n + a;
        assert forall k :: 0 <= k < |s[n..]| ==> s[n..][k] == s[n + k];
        if n < |s| { assert CharLength(s[n..]) > 0; }
      }
    }
  }

  // ---------------------------------------------------------------- walking to a boundary

  /** The last boundary at or before `i`. */
  function FloorBoundary(s: Bytes, i: nat): (b: nat)
    requires i <= |s|
    ensures b <= i && IsBoundary(s, b)
    ensures forall j :: b < j <= i ==> !IsBoundary(s, j)
  {
    if i == 0 || IsBoundary(s, i) then i else FloorBoundary(s, i - 1)
  }

  /** The first boundary at or after `i`. */
  function CeilBoundary(s: Bytes, i: nat): (b: nat)
    requires i <= |s|
    ensures i <= b <= |s| && IsBoundary(s, b)
    ensures forall j :: i <= j < b ==> !IsBoundary(s, j)
    decreases |s| - i
  {
    if i == |s| || IsBoundary(s, i) then i else CeilBoundary(s, i + 1)
  }

  method SafeBoundaryAtOrBefore(s: Bytes, index: nat) returns (at: nat)
    ensures at == FloorBoundary(s, if index < |s| then index else |s|)
  {
    at := if index < |s| then index else |s|;
    while at > 0 && !IsBoundary(s, at)
      invariant at <= |s|
      invariant FloorBoundary(s, at) == FloorBoundary(s, if index < |s| then index else |s|)
    {
      at := at - 1;
    }
  }

  method SafeBoundaryAtOrAfter(s: Bytes, index: nat) returns (at: nat)
    ensures at == CeilBoundary(s, if index < |s| then index else |s|)
  {
    at := if index < |s| then index else |s|;
    while at < |s| && !IsBoundary(s, at)
      invariant at <= |s|
      invariant CeilBoundary(s, at) == CeilBoundary(s, if index < |s| then index else |s|)
    {
      at := at + 1;
    }
  }

  lemma CutsAreNear(s: Bytes, head: nat, tail: nat)
    requires ValidUtf8(s) && head <= |s| && tail <= |s|
    ensures head <= FloorBoundary(s, head) + 3
    ensures CeilBoundary(s, tail) <= tail + 3
  {
    var below, _ := BoundaryNear(s, head);
    var _, above := BoundaryNear(s, tail);
  }

  // ---------------------------------------------------------------- keeping both ends

  /** How many bytes of a text to keep from its start and from its end. */
  datatype Share = Share(head: nat, tail: nat)

  function TailStart(s: Bytes, tail: nat): (to: nat)
    requires tail <= |s|
    ensures to <= |s| && IsBoundary(s, to) && |s| - to <= tail
    ensures forall j :: 0 <= j < to && |s| - j <= tail ==> !IsBoundary(s, j)
  {
    CeilBoundary(s, |s| - tail)
  }

  /** The start and the end of `s` around a marker, no more than the share of each. */
  function KeepEnds(s: Bytes, marker: Bytes, share: Share): Bytes
    requires share.head + share.tail <= |s|
  {
    s[..FloorBoundary(s, share.head)] + marker + s[TailStart(s, share.tail)..]
  }

  method CutEnds(s: Bytes, marker: Bytes, share: Share) returns (result: Bytes)
    requires share.head + share.tail <= |s|
    ensures result == KeepEnds(s, marker, share)
  {
    var headEnd := SafeBoundaryAtOrBefore(s, share.head);
    var tailStart := SafeBoundaryAtOrAfter(s, |s| - share.tail);
    result := s[..headEnd] + marker + s[tailStart..];
  }

  lemma KeepEndsFits(s: Bytes, marker: Bytes, share: Share)
    requires share.head + share.tail <= |s|
    ensures FloorBoundary(s, share.head) <= TailStart(s, share.tail)
    ensures |KeepEnds(s, marker, share)| <= share.head + |marker| + share.tail
    ensures ValidUtf8(s) ==> |KeepEnds(s, marker, share)| + 6 >= share.head + |marker| + share.tail
  {
    if ValidUtf8(s) {
      CutsAreNear(s, share.head, |s| - share.tail);
    }
  }

  lemma AroundValid(s: Bytes, marker: Bytes, from: nat, to: nat)
    requires ValidUtf8(s) && ValidUtf8(marker)
    requires from <= |s| && to <= |s| && IsBoundary(s, from) && IsBoundary(s, to)
    ensures ValidUtf8(s[..from] + marker + s[to..])
  {
    ValidSplit(s, from);
    ValidSplit(s, to);
    ValidConcat(s[..from], marker);
    ValidConcat(s[..from] + marker, s[to..]);
  }

  lemma KeepEndsValid(s: Bytes, marker: Bytes, share: Share)
    requires share.head + share.tail <= |s| && ValidUtf8(s) && ValidUtf8(marker)
    ensures ValidUtf8(KeepEnds(s, marker, share))
  {
    AroundValid(s, marker, FloorBoundary(s, share.head), TailStart(s, share.tail));
  }

  lemma PrefixFits(s: Bytes, maxBytes: nat)
    requires maxBytes <= |s| && ValidUtf8(s)
    ensures FloorBoundary(s, maxBytes) + 3 >= maxBytes
    ensures ValidUtf8(s[..FloorBoundary(s, maxBytes)])
  {
    CutsAreNear(s, maxBytes, 0);
    ValidSplit(s, FloorBoundary(s, maxBytes));
  }

  // ---------------------------------------------------------------- ASCII

  function Ascii(s: string): (bytes: Bytes)
    ensures |bytes| == |s|
  {
    seq(|s|, i requires 0 <= i < |s| => (s[i] as int % 128) as byte)
  }

  lemma {:induction false} AsciiValid(s: string)
    ensures ValidUtf8(Ascii(s))
    decreases |s|
  {
    if s != "" {
      assert Ascii(s)[0] <= 0x7F && CharLength(Ascii(s)) == 1;
      assert Ascii(s)[1..] == Ascii(s[1..]);
      AsciiValid(s[1..]);
    }
  }

  function Decimal(n: nat): (digits: Bytes)
    ensures |digits| > 0 && forall i :: 0 <= i < |digits| ==> In(digits[i], 0x30, 0x39)
  {
    (if n < 10 then [] else Decimal(n / 10)) + [(0x30 + n % 10) as byte]
  }

  lemma {:induction false} DigitsValid(digits: Bytes)
    requires forall i :: 0 <= i < |digits| ==> In(digits[i], 0x30, 0x39)
    ensures ValidUtf8(digits)
    decreases |digits|
  {
    if digits != [] {
      assert CharLength(digits) == 1;
      DigitsValid(digits[1..]);
    }
  }

  // ---------------------------------------------------------------- the session truncator

  function SessionMarker(text: Bytes, original: nat): Bytes {
    Ascii("\n[") + text + Ascii(" truncated by Vegvisir; original ") + Decimal(original) + Ascii(" bytes]\n")
  }

  lemma SessionMarkerValid(text: Bytes, original: nat)
    requires ValidUtf8(text)
    ensures ValidUtf8(SessionMarker(text, original))
  {
    AsciiValid("\n[");
    AsciiValid(" truncated by Vegvisir; original ");
    AsciiValid(" bytes]\n");
    DigitsValid(Decimal(original));
    ValidConcat(Ascii("\n["), text);
    ValidConcat(Ascii("\n[") + text, Ascii(" truncated by Vegvisir; original "));
    ValidConcat(Ascii("\n[") + text + Ascii(" truncated by Vegvisir; original "), Decimal(original));
    ValidConcat(Ascii("\n[") + text + Ascii(" truncated by Vegvisir; original ") + Decimal(original),
                Ascii(" bytes]\n"));
  }

  /** Two thirds of what the marker leaves go to the start of the text, the rest to its end. */
  function TwoThirds(maxBytes: nat, marker: Bytes): (share: Share)
    requires |marker| <= maxBytes
    ensures share.head + |marker| + share.tail == maxBytes
    ensures 3 * share.head <= 2 * (share.head + share.tail) < 3 * share.head + 3
  {
    var available := maxBytes - |marker|;
    var headTarget := available * 2 / 3;
    Share(headTarget, available - headTarget)
  }

  function TruncatedBy(value: Bytes, maxBytes: nat, marker: Bytes): Bytes {
    if |value| <= maxBytes then value
    else if maxBytes == 0 then []
    else if maxBytes <= |marker| then value[..FloorBoundary(value, maxBytes)]
    else KeepEnds(value, marker, TwoThirds(maxBytes, marker))
  }

  function Truncated(value: Bytes, maxBytes: nat, text: Bytes): Bytes {
    TruncatedBy(value, maxBytes, SessionMarker(text, |value|))
  }

  method TruncateAround(value: Bytes, maxBytes: nat, marker: Bytes) returns (result: Bytes)
    ensures result == TruncatedBy(value, maxBytes, marker)
  {
    if |value| <= maxBytes {
      return value;
    }
    if maxBytes == 0 {
      return [];
    }
    if maxBytes <= |marker| {
      var end := SafeBoundaryAtOrBefore(value, maxBytes);
      return value[..end];
    }
    result := CutEnds(value, marker, TwoThirds(maxBytes, marker));
  }

  method TruncateUtf8Middle(value: Bytes, maxBytes: nat, text: Bytes) returns (result: Bytes)
    ensures result == Truncated(value, maxBytes, text)
  {
    var marker := SessionMarker(text, |value|);
    result := TruncateAround(value, maxBytes, marker);
  }

  lemma TruncatedByFits(value: Bytes, maxBytes: nat, marker: Bytes)
    ensures |TruncatedBy(value, maxBytes, marker)| <= maxBytes
    ensures |value| <= maxBytes <==> TruncatedBy(value, maxBytes, marker) == value
    ensures ValidUtf8(value) && |value| > maxBytes ==> |TruncatedBy(value, maxBytes, marker)| + 6 >= maxBytes
  {
    if |value| > maxBytes > |marker| {
      KeepEndsFits(value, marker, TwoThirds(maxBytes, marker));
    } else if |value| > maxBytes > 0 && ValidUtf8(value) {
      PrefixFits(value, maxBytes);
    }
  }

  lemma TruncatedByValid(value: Bytes, maxBytes: nat, marker: Bytes)
    requires ValidUtf8(value) && ValidUtf8(marker)
    ensures ValidUtf8(TruncatedBy(value, maxBytes, marker))
  {
    if |value| > maxBytes > |marker| {
      KeepEndsValid(value, marker, TwoThirds(maxBytes, marker));
    } else if |value| > maxBytes > 0 {
      PrefixFits(value, maxBytes);
    }
  }

  /** What the session truncator keeps of any text, for any limit. */
  lemma TruncatedFits(value: Bytes, maxBytes: nat, text: Bytes)
    ensures |Truncated(value, maxBytes, text)| <= maxBytes
    ensures |value| <= maxBytes <==> Truncated(value, maxBytes, text) == value
    ensures ValidUtf8(value) && ValidUtf8(text) ==> ValidUtf8(Truncated(value, maxBytes, text))
    ensures ValidUtf8(value) && |value| > maxBytes ==> |Truncated(value, maxBytes, text)| + 6 >= maxBytes
  {
    TruncatedByFits(value, maxBytes, SessionMarker(text, |value|));
    if ValidUtf8(value) && ValidUtf8(text) {
      SessionMarkerValid(text, |value|);
      TruncatedByValid(value, maxBytes, SessionMarker(text, |value|));
    }
  }

  /** `from` and `to` leave the most of both ends of `s` that the share allows, cut between characters. */
  ghost predicate CutsTo(s: Bytes, share: Share, from: nat, to: nat) {
    && from <= to <= |s| && IsBoundary(s, from) && IsBoundary(s, to)
    && from <= share.head && |s| - to <= share.tail
    && (forall j :: from < j <= share.head && j <= |s| ==> !IsBoundary(s, j))
    && (forall j :: 0 <= j < to && |s| - j <= share.tail ==> !IsBoundary(s, j))
  }

  /** When the marker fits, the result is a start and an end of the text, two thirds and one third, with the marker
      between. */
  lemma TruncatedKeepsEnds(value: Bytes, maxBytes: nat, text: Bytes) returns (from: nat, to: nat)
    requires |value| > maxBytes > |SessionMarker(text, |value|)|
    ensures CutsTo(value, TwoThirds(maxBytes, SessionMarker(text, |value|)), from, to)
    ensures Truncated(value, maxBytes, text) == value[..from] + SessionMarker(text, |value|) + value[to..]
  {
    var marker := SessionMarker(text, |value|);
    var share := TwoThirds(maxBytes, marker);
    KeepEndsFits(value, marker, share);
    from, to := FloorBoundary(value, share.head), TailStart(value, share.tail);
  }

  /** Truncating twice is truncating once. */
  lemma TruncatedOnce(value: Bytes, maxBytes: nat, text: Bytes)
    ensures Truncated(Truncated(value, maxBytes, text), maxBytes, text) == Truncated(value, maxBytes, text)
  {
    var once := Truncated(value, maxBytes, text);
    TruncatedFits(value, maxBytes, text);
    TruncatedFits(once, maxBytes, text);
  }

  // ---------------------------------------------------------------- the context truncator

  /** The longest run of whole characters within `maxBytes`, taken one by one. */
  function WholeChars(value: Bytes, maxBytes: nat): nat
    ensures WholeChars(value, maxBytes) <= maxBytes && WholeChars(value, maxBytes) <= |value|
    decreases |value|
  {
    var n := CharLength(value);
    if n == 0 || n > maxBytes then 0 else n + WholeChars(value[n..], maxBytes - n)
  }

  /** `prefix` has been taken, `rest` is still to come, and the count of the whole is unchanged. */
  ghost predicate Taking(value: Bytes, prefix: Bytes, rest: Bytes, maxBytes: nat) {
    && |prefix| <= maxBytes && prefix + rest == value
    && |prefix| + WholeChars(rest, maxBytes - |prefix|) == WholeChars(value, maxBytes)
  }

  lemma CountStep(rest: Bytes, later: Bytes, n: nat, left: nat, leftLater: nat)
    requires n == CharLength(rest) && 0 < n <= left
    requires later == rest[n..] && leftLater == left - n
    ensures WholeChars(rest, left) == n + WholeChars(later, leftLater)
  {
  }

  lemma MoveAcross(value: Bytes, prefix: Bytes, rest: Bytes, n: nat)
    requires prefix + rest == value && n <= |rest|
    ensures (prefix + rest[..n]) + rest[n..] == value
  {
    assert rest[..n] + rest[n..] == rest;
  }

  lemma TakeOne(value: Bytes, prefix: Bytes, rest: Bytes, longer: Bytes, later: Bytes, maxBytes: nat, n: nat)
    requires Taking(value, prefix, rest, maxBytes)
    requires n == CharLength(rest) && 0 < n <= maxBytes - |prefix|
    requires longer == prefix + rest[..n] && later == rest[n..]
    ensures Taking(value, longer, later, maxBytes)
  {
    var leftLater: nat := maxBytes - |longer|;
    CountStep(rest, later, n, maxBytes - |prefix|, leftLater);
    MoveAcross(value, prefix, rest, n);
  }

  lemma TakingDone(value: Bytes, prefix: Bytes, rest: Bytes, maxBytes: nat)
    requires Taking(value, prefix, rest, maxBytes)
    requires CharLength(rest) == 0 || CharLength(rest) > maxBytes - |prefix|
    ensures prefix == value[..WholeChars(value, maxBytes)]
  {
    assert WholeChars(rest, maxBytes - |prefix|) == 0;
    assert value[..|prefix|] == prefix;
  }

  method Utf8Prefix(value: Bytes, maxBytes: nat) returns (prefix: Bytes)
    ensures prefix == value[..WholeChars(value, maxBytes)]
  {
    prefix := [];
    var rest := value;
    assert prefix + rest == value;
    var n := CharLength(rest);
    while n > 0
      invariant Taking(value, prefix, rest, maxBytes) && n == CharLength(rest)
      decreases |rest|
    {
      if |prefix| + n > maxBytes {
        break;
      }
      var longer, later := prefix + rest[..n], rest[n..];
      TakeOne(value, prefix, rest, longer, later, maxBytes, n);
      prefix, rest := longer, later;
      n := CharLength(rest);
    }
    TakingDone(value, prefix, rest, maxBytes);
  }

  lemma FloorInside(value: Bytes, i: nat)
    requires value != [] && i < CharLength(value)
    ensures FloorBoundary(value, i) == 0
  {
    assert forall j :: 0 < j <= i ==> !IsBoundary(value, j);
  }

  /** Dropping a prefix that ends at a boundary moves the boundaries after it. */
  lemma FloorPast(value: Bytes, rest: Bytes, n: nat, i: nat, k: nat)
    requires n <= |value| && rest == value[n..] && IsBoundary(value, n)
    requires i == n + k && i <= |value|
    ensures FloorBoundary(value, i) == n + FloorBoundary(rest, k)
  {
    var b := FloorBoundary(rest, k);
    assert forall j :: 0 <= j < |rest| ==> rest[j] == value[n + j];
    assert IsBoundary(value, n + b);
    forall j | n + b < j <= i ensures !IsBoundary(value, j) {
      assert !IsBoundary(rest, j - n);
    }
  }

  lemma FirstCharEndsAtBoundary(value: Bytes)
    requires ValidUtf8(value) && value != []
    ensures IsBoundary(value, CharLength(value))
  {
    var n := CharLength(value);
    if n < |value| {
      assert CharLength(value[n..]) > 0 && value[n..][0] == value[n];
    }
  }

  /** On valid text, taking characters one by one stops at the last boundary within the limit. */
  lemma {:induction false} WholeCharsIsFloor(value: Bytes, maxBytes: nat)
    requires ValidUtf8(value) && maxBytes <= |value|
    ensures WholeChars(value, maxBytes) == FloorBoundary(value, maxBytes)
    decreases |value|
  {
    if value != [] {
      var n := CharLength(value);
      if n > maxBytes {
        FloorInside(value, maxBytes);
      } else {
        var rest, left: nat := value[n..], maxBytes - n;
        FirstCharEndsAtBoundary(value);
        WholeCharsIsFloor(rest, left);
        FloorPast(value, rest, n, maxBytes, left);
        CountStep(value, rest, n, maxBytes, left);
      }
    }
  }

  /** What the marker leaves is halved between the start of the text and its end. */
  function Halves(maxBytes: nat, marker: Bytes): (share: Share)
    requires |marker| <= maxBytes
    ensures share.head + |marker| + share.tail == maxBytes
    ensures share.head <= share.tail <= share.head + 1
  {
    var contentBytes := maxBytes - |marker|;
    var headBytes := contentBytes / 2;
    Share(headBytes, contentBytes - headBytes)
  }

  function BoundedBy(value: Bytes, maxBytes: nat, marker: Bytes): Bytes {
    if |value| <= maxBytes then value
    else if maxBytes <= |marker| then value[..WholeChars(value, maxBytes)]
    else KeepEnds(value, marker, Halves(maxBytes, marker))
  }

  method BoundText(value: Bytes, maxBytes: nat, marker: Bytes) returns (result: Bytes)
    ensures result == BoundedBy(value, maxBytes, marker)
  {
    if |value| <= maxBytes {
      return value;
    }
    if maxBytes <= |marker| {
      result := Utf8Prefix(value, maxBytes);
      return;
    }
    result := CutEnds(value, marker, Halves(maxBytes, marker));
  }

  lemma WholeCharsValid(value: Bytes, maxBytes: nat)
    requires ValidUtf8(value) && maxBytes <= |value|
    ensures ValidUtf8(value[..WholeChars(value, maxBytes)])
  {
    WholeCharsIsFloor(value, maxBytes);
    PrefixFits(value, maxBytes);
  }

  /** What the context truncator keeps of any text, for any limit and marker. */
  lemma BoundedFits(value: Bytes, maxBytes: nat, marker: Bytes)
    ensures |BoundedBy(value, maxBytes, marker)| <= maxBytes
    ensures |value| <= maxBytes <==> BoundedBy(value, maxBytes, marker) == value
    ensures ValidUtf8(value) && |value| > maxBytes ==> |BoundedBy(value, maxBytes, marker)| + 6 >= maxBytes
  {
    if |value| > maxBytes > |marker| {
      KeepEndsFits(value, marker, Halves(maxBytes, marker));
    } else if |value| > maxBytes && ValidUtf8(value) {
      WholeCharsIsFloor(value, maxBytes);
      PrefixFits(value, maxBytes);
    }
  }

  /** Bounded text is still text. */
  lemma BoundedValid(value: Bytes, maxBytes: nat, marker: Bytes)
    requires ValidUtf8(value) && ValidUtf8(marker)
    ensures ValidUtf8(BoundedBy(value, maxBytes, marker))
  {
    if |value| > maxBytes > |marker| {
      KeepEndsValid(value, marker, Halves(maxBytes, marker));
    } else if |value| > maxBytes {
      WholeCharsValid(value, maxBytes);
    }
  }

  /** When the marker fits, a start and an end of the text are kept, half each, with the marker between. */
  lemma BoundedKeepsEnds(value: Bytes, maxBytes: nat, marker: Bytes) returns (from: nat, to: nat)
    requires |value| > maxBytes > |marker|
    ensures CutsTo(value, Halves(maxBytes, marker), from, to)
    ensures BoundedBy(value, maxBytes, marker) == value[..from] + marker + value[to..]
  {
    var share := Halves(maxBytes, marker);
    KeepEndsFits(value, marker, share);
    from, to := FloorBoundary(value, share.head), TailStart(value, share.tail);
  }

  /** Bounding twice is bounding once. */
  lemma BoundedOnce(value: Bytes, maxBytes: nat, marker: Bytes)
    ensures BoundedBy(BoundedBy(value, maxBytes, marker), maxBytes, marker) == BoundedBy(value, maxBytes, marker)
  {
    var once := BoundedBy(value, maxBytes, marker);
    BoundedFits(value, maxBytes, marker);
    BoundedFits(once, maxBytes, marker);
  }

  // ---------------------------------------------------------------- the context marker

  function ContextMarker(): Bytes {
    Ascii("\n[context content truncated by Vegvisir memory bound]\n")
  }

  function Bounded(value: Bytes, maxBytes: nat): Bytes {
    BoundedBy(value, maxBytes, ContextMarker())
  }

  method BoundedText(value: Bytes, maxBytes: nat) returns (result: Bytes)
    ensures result == Bounded(value, maxBytes)
  {
    result := BoundText(value, maxBytes, ContextMarker());
  }

  lemma ContextMarkerValid()
    ensures ValidUtf8(ContextMarker())
  {
    AsciiValid("\n[context content truncated by Vegvisir memory bound]\n");
  }

  /** Text bounded with the context marker is still text. */
  lemma BoundedTextIsUtf8(value: Bytes, maxBytes: nat)
    requires ValidUtf8(value)
    ensures ValidUtf8(Bounded(value, maxBytes))
  {
    ContextMarkerValid();
    BoundedValid(value, maxBytes, ContextMarker());
  }
}
