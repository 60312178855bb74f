/** Values with quotes in printed lists: their escape is read as the end of the string, and they never come back. */
module ListEscapes {
  import opened BlockScanner
  import opened ListText
  import opened Prelude
  import opened TextSpace

  // ---------------------------------------------------------------- the printed text around the first quote

  predicate TwoQuotes(s: string) {
    |s| >= 2 && s[0] == '"' && s[1] == '"'
  }

  lemma {:induction false} EscapeAppend(a: string, b: string)
    ensures Escape(a + b) == Escape(a) + Escape(b)
    decreases |a|
  {
    if a == "" {
      assert a + b == b;
    } else {
      assert (a + b)[0] == a[0] && (a + b)[1..] == a[1..] + b;
      EscapeAppend(a[1..], b);
    }
  }

  /** What is printed of a value up to and with its first quote, `p` being what comes before. */
  function Broken(p: string): string {
    "\"" + (Escape(p) + "\\") + "\""
  }

  lemma Rebracket(open: string, e: string, b: string, c: string, f: string)
    ensures open + (e + (b + c + f)) + c == (open + (e + b) + c) + (f + c)
  {
  }

  lemma FiveParts(first: string, comma: string, items: string, separator: string, quoted: string, after: string)
    ensures first + (comma + (items + separator + quoted + after))
            == first + (comma + items) + separator + quoted + after
  {
  }

  lemma FourParts(first: string, comma: string, items: string, more: string)
    ensures first + (comma + items) + more == first + (comma + (items + more))
  {
  }

  lemma EscapeQuoteFirst(q: string)
    ensures Escape("\"" + q) == "\\" + "\"" + Escape(q)
  {
    assert ("\"" + q)[1..] == q;
    assert "\\" + "\"" == "\\\"";
  }

  lemma QuoteBreaks(p: string, q: string)
    ensures Quote(p + "\"" + q) == Broken(p) + (Escape(q) + "\"")
  {
    assert p + "\"" + q == p + ("\"" + q);
    EscapeAppend(p, "\"" + q);
    EscapeQuoteFirst(q);
    Rebracket("\"", Escape(p), "\\", "\"", Escape(q));
  }

  function Separator(front: seq<string>): string {
    if front == [] then "" else ", "
  }

  function After(rest: seq<string>): string {
    if rest == [] then "" else ", " + Items(rest)
  }

  lemma ItemsCons(first: string, rest: seq<string>, all: seq<string>)
    requires all == [first] + rest
    ensures Items(all) == Quote(first) + After(rest)
  {
    assert all[1..] == rest;
    if rest == [] { assert Quote(first) + "" == Quote(first); }
  }

  lemma AroundFirst(first: string, items: string, separator: string, after: string, quoted: string, last: string)
    requires (items == "" && separator == "" && after == "") || (separator == ", " && after == ", " + items)
    ensures first + (", " + (items + separator + quoted + last)) == first + after + ", " + quoted + last
  {
    if after == "" {
      assert first + after == first && items + separator + quoted + last == quoted + last;
      FiveParts(first, "", "", ", ", quoted, last);
    } else {
      FiveParts(first, ", ", items, ", ", quoted, last);
    }
  }

  lemma ItemsOfBoth(first: string, less: seq<string>, tail: seq<string>, front: seq<string>, all: seq<string>)
    requires front == [first] + less && all == [first] + tail && tail != []
    ensures Items(all) == Quote(first) + (", " + Items(tail)) && Items(front) == Quote(first) + After(less)
  {
    ItemsCons(first, tail, all);
    ItemsCons(first, less, front);
  }

  lemma FirstApart<T>(front: seq<T>, last: seq<T>, all: seq<T>, first: T, less: seq<T>, tail: seq<T>)
    requires front != [] && all == front + last && first == front[0] && less == front[1..] && tail == all[1..]
    ensures front == [first] + less && all == [first] + tail && tail == less + last
  {
  }

  lemma NothingBefore(quoted: string, after: string)
    ensures "" + "" + quoted + after == quoted + after
  {
  }

  lemma {:induction false} ItemsAround(front: seq<string>, v: string, rest: seq<string>, all: seq<string>)
    requires all == front + ([v] + rest)
    ensures Items(all) == Items(front) + Separator(front) + Quote(v) + After(rest)
    decreases |front|
  {
    if front == [] {
      ItemsCons(v, rest, all);
      NothingBefore(Quote(v), After(rest));
    } else {
      var first, less, tail := front[0], front[1..], all[1..];
      FirstApart(front, [v] + rest, all, first, less, tail);
      ItemsAround(less, v, rest, tail);
      ItemsOfBoth(first, less, tail, front, all);
      AroundFirst(Quote(first), Items(less), Separator(less), After(less), Quote(v), After(rest));
    }
  }

  // ---------------------------------------------------------------- reading past it

  lemma {:induction false} StatementPastInner(inner: string, after: string, braces: nat, brackets: nat)
    requires QuoteFree(inner) && !TwoQuotes(after)
    ensures StatementLength(inner + "\"" + after, braces, brackets, true)
         == Shift(StatementLength(after, braces, brackets, false), |inner| + 1)
    decreases |inner|
  {
    var whole := inner + "\"" + after;
    if inner == "" {
      assert whole[0] == '"' && whole[1..] == after;
      assert |after| >= 2 ==> whole[1] == after[0] && whole[2] == after[1];
    } else {
      assert whole[0] == inner[0] && whole[1..] == inner[1..] + "\"" + after;
      StatementPastInner(inner[1..], after, braces, brackets);
      ShiftTwice(StatementLength(after, braces, brackets, false), |inner|, 1);
    }
  }

  lemma StatementPastBroken(p: string, after: string, brackets: nat)
    requires QuoteFree(p) && !TwoQuotes(after)
    ensures StatementLength(Broken(p) + after, 0, brackets, false)
         == Shift(StatementLength(after, 0, brackets, false), |Broken(p)|)
  {
    EscapeQuoteFree(p);
    var inner := Escape(p) + "\\";
    var whole := Broken(p) + after;
    assert whole[0] == '"' && whole[1..] == inner + "\"" + after;
    assert whole[1] == inner[0];
    StatementPastInner(inner, after, 0, brackets);
    ShiftTwice(StatementLength(after, 0, brackets, false), |inner| + 1, 1);
  }

  lemma {:induction false} SplitPastInner(inner: string, after: string, item: string)
    requires QuoteFree(inner) && !TwoQuotes(after)
    ensures SplitItems(inner + "\"" + after, item, true) == SplitItems(after, item + inner + "\"", false)
    decreases |inner|
  {
    var whole := inner + "\"" + after;
    if inner == "" {
      assert whole[0] == '"' && whole[1..] == after;
      assert |after| >= 2 ==> whole[1] == after[0] && whole[2] == after[1];
      assert item + inner + "\"" == item + ['"'];
    } else {
      assert whole[0] == inner[0] && whole[1..] == inner[1..] + "\"" + after;
      SplitPastInner(inner[1..], after, item + [inner[0]]);
      assert item + [inner[0]] + inner[1..] + "\"" == item + inner + "\"";
    }
  }

  lemma SplitPastBroken(p: string, after: string, item: string)
    requires QuoteFree(p) && !TwoQuotes(after)
    ensures SplitItems(Broken(p) + after, item, false) == SplitItems(after, item + Broken(p), false)
  {
    EscapeQuoteFree(p);
    var inner := Escape(p) + "\\";
    BrokenWhole(inner, after, Broken(p) + after);
    SplitPastInner(inner, after, item + ['"']);
    Join4(item, ['"'], inner, "\"");
    assert item + ['"'] + inner + "\"" == item + ("\"" + (inner + "\""));
    assert "\"" + (inner + "\"") == Broken(p);
  }

  lemma BrokenWhole(inner: string, after: string, whole: string)
    requires inner != "" && QuoteFree(inner) && whole == "\"" + inner + "\"" + after
    ensures whole[0] == '"' && whole[1..] == inner + "\"" + after && !StartsTriple(whole)
  {
    assert whole[1] == inner[0];
  }

  lemma SplitOneMore(v: string, next: string, space: string)
    requires QuoteFree(v) && (space == "" || space == " ")
    ensures SplitItems(Quote(v) + (", " + next), space, false) == [Quote(v)] + SplitItems(next, " ", false)
  {
    TrimQuote(v, space);
    SplitPastQuote(v, ", " + next, space);
    SplitPastComma(next, space + Quote(v));
  }

  lemma QuotesCons(front: seq<string>, less: seq<string>)
    requires front != [] && less == front[1..]
    ensures Quotes(front) == [Quote(front[0])] + Quotes(less)
  {
  }

  lemma FirstOfText(front: seq<string>, first: string, less: seq<string>, more: string, next: string, text: string)
    requires front == [first] + less && text == Items(front) + (", " + more)
    requires next == if less == [] then more else Items(less) + (", " + more)
    ensures text == Quote(first) + (", " + next)
  {
    ItemsCons(first, less, front);
    if less == [] {
      assert Quote(first) + "" + (", " + more) == Quote(first) + (", " + more);
    } else {
      FourParts(Quote(first), ", ", Items(less), ", " + more);
    }
  }

  lemma Regroup<T>(a: seq<T>, b: seq<T>, c: seq<T>)
    ensures a + (b + c) == (a + b) + c
  {
  }

  lemma {:induction false} SplitPastItems(front: seq<string>, space: string, more: string, text: string)
    requires front != [] && (forall v :: v in front ==> QuoteFree(v)) && (space == "" || space == " ")
    requires text == Items(front) + (", " + more)
    ensures SplitItems(text, space, false) == Quotes(front) + SplitItems(more, " ", false)
    decreases |front|
  {
    var first, less := front[0], front[1..];
    var next := if less == [] then more else Items(less) + (", " + more);
    FirstOfText(front, first, less, more, next, text);
    SplitOneMore(first, next, space);
    QuotesCons(front, less);
    if less == [] {
      assert Quotes(front) == [Quote(first)];
    } else {
      SplitPastItems(less, " ", more, next);
      Regroup([Quote(first)], Quotes(less), SplitItems(more, " ", false));
    }
  }

  /** The first item read is what stands before a comma, or all that is left. */
  lemma {:induction false} FirstItem(rest: string, item: string, inString: bool) returns (cut: nat)
    ensures cut <= |rest| && (cut < |rest| ==> rest[cut] == ',')
    ensures SplitItems(rest, item, inString) != [] && SplitItems(rest, item, inString)[0] == Trim(item + rest[..cut])
    decreases |rest|
  {
    if rest == "" {
      cut := 0;
      assert item + rest[..0] == item;
    } else if StartsTriple(rest) {
      cut := FirstItem(rest[3..], item + rest[..3], !inString);
      assert (item + rest[..3]) + rest[3..][..cut] == item + rest[..cut + 3];
      cut := cut + 3;
    } else if rest[0] == ',' && !inString {
      cut := 0;
      assert item + rest[..0] == item;
    } else {
      cut := FirstItem(rest[1..], item + [rest[0]], if rest[0] == '"' then !inString else inString);
      assert (item + [rest[0]]) + rest[1..][..cut] == item + rest[..cut + 1];
      cut := cut + 1;
    }
  }

  // ---------------------------------------------------------------- trimming

  predicate Solid(s: string) {
    s != "" && !IsWhitespace(s[0])
  }

  /** Trimming a text that does not start with space cuts space off its end. */
  lemma {:induction false} TrimmedTo(s: string) returns (t: nat)
    requires Solid(s)
    ensures 0 < t <= |s| && Trim(s) == s[..t] && !IsWhitespace(s[t - 1])
    ensures forall i :: t <= i < |s| ==> IsWhitespace(s[i])
    decreases |s|
  {
    var last := |s| - 1;
    if IsWhitespace(s[last]) {
      var front := s[..last];
      t := TrimmedTo(front);
      assert front[..t] == s[..t];
      assert forall i :: t <= i < last ==> s[i] == front[i];
    } else {
      t := |s|;
      TrimSolid(s);
    }
  }

  /** The text of an item that starts with `solid`: what was read of it, without the space after it. */
  lemma TrimAfter(space: string, solid: string, rest: string) returns (kept: nat)
    requires (space == "" || space == " ") && Solid(solid) && !IsWhitespace(solid[|solid| - 1])
    ensures kept <= |rest| && (kept < |rest| ==> IsWhitespace(rest[kept]))
    ensures Trim(Trim(space + solid + rest)) == solid + rest[..kept]
    ensures kept > 0 ==> !IsWhitespace(rest[kept - 1])
  {
    var whole, n := solid + rest, |solid|;
    TrimSpaceFirst(space, whole);
    assert space + solid + rest == space + whole;
    var t := TrimmedTo(whole);
    assert whole[n - 1] == solid[n - 1];
    kept := t - n;
    assert whole[..t] == solid + rest[..kept];
    TrimSolid(whole[..t]);
    if kept < |rest| { assert whole[t] == rest[kept]; }
    if kept > 0 { assert whole[t - 1] == rest[kept - 1]; }
  }

  lemma TrimSpaceFirst(space: string, s: string)
    requires (space == "" || space == " ")
    ensures Trim(space + s) == Trim(s)
  {
    if space == "" {
      assert space + s == s;
    } else {
      assert (space + s)[0] == ' ' && (space + s)[1..] == s;
    }
  }

  // ---------------------------------------------------------------- the item at the quote is never the value

  predicate SlashOrQuote(c: char) {
    c == '\\' || c == '"'
  }

  predicate SlashesAndQuotes(s: string, n: nat) {
    forall i :: 0 <= i < n && i < |s| ==> SlashOrQuote(s[i])
  }

  lemma {:induction false} EscapeLonger(s: string)
    ensures |Escape(s)| >= |s|
  {
    if s != "" { EscapeLonger(s[1..]); }
  }

  /** As far as a text is made of slashes and quotes, so is its escape. */
  lemma {:induction false} EscapeKeepsSlashes(s: string, n: nat)
    requires n <= |s| && SlashesAndQuotes(s, n)
    ensures SlashesAndQuotes(Escape(s), n)
    decreases |s|
  {
    if s != "" && n > 0 {
      var rest := s[1..];
      assert SlashOrQuote(s[0]);
      forall i | 0 <= i < n - 1 ensures SlashOrQuote(rest[i]) { assert rest[i] == s[i + 1]; }
      EscapeKeepsSlashes(rest, n - 1);
      EscapeLonger(rest);
      assert |Escape(s)| == 2 + |Escape(rest)| && Escape(s)[..2] + Escape(rest) == Escape(s);
      forall i | 0 <= i < n ensures SlashOrQuote(Escape(s)[i]) {
        if i >= 2 { assert Escape(s)[i] == Escape(rest)[i - 2]; }
      }
    }
  }

  /** A text that starts the escape of itself, four characters on, has only slashes and quotes, and so has what
      follows. */
  lemma {:induction false} SelfEscape(y: string, e: string, n: nat)
    requires e == "\\\\\\\"" + Escape(y) && y <= e && n <= |y|
    ensures n < |e| && SlashesAndQuotes(e, n + 1)
    decreases n
  {
    EscapeLonger(y);
    if n >= 4 {
      SelfEscape(y, e, n - 1);
      forall i | 0 <= i < n - 3 ensures SlashOrQuote(y[i]) { assert y[i] == e[i]; }
      EscapeKeepsSlashes(y, n - 3);
      assert e[n] == Escape(y)[n - 4];
    }
    forall i | 0 <= i < n + 1 ensures SlashOrQuote(e[i]) {
      if 4 <= i < n { assert SlashesAndQuotes(e, n); }
    }
  }

  // ---------------------------------------------------------------- a list with a quote in it

  /** What is printed up to and with the first quote inside a value. */
  function Head(front: seq<string>, p: string): string {
    Items(front) + Separator(front) + Broken(p)
  }

  lemma EscapeStart(q: string)
    ensures q != "" ==> Escape(q) != "" && Escape(q)[0] != '"'
  {
  }

  lemma NotTwoQuotes(escaped: string, last: string, z: string)
    requires z == escaped + ("\"" + last) && last != "" && last[0] != '"'
    requires escaped != "" ==> escaped[0] != '"'
    ensures !TwoQuotes(z) && escaped <= z && |escaped| < |z|
  {
    if escaped == "" { assert z[1] == last[0]; } else { assert z[0] == escaped[0]; }
  }

  lemma Gather(items: string, separator: string, broken: string, escaped: string, after: string, tail: string)
    ensures items + separator + (broken + (escaped + "\"")) + after + tail
         == (items + separator + broken) + (escaped + ("\"" + (after + tail)))
  {
  }

  /** The printed items split at the first quote: the head, then a text that starts with the rest of the value's
      escape. */
  lemma PrintedAround(front: seq<string>, p: string, q: string, rest: seq<string>, values: seq<string>, tail: string)
    returns (z: string)
    requires values == front + ([p + "\"" + q] + rest) && tail != "" && tail[0] == ']'
    ensures Items(values) + tail == Head(front, p) + z
    ensures !TwoQuotes(z) && Escape(q) <= z && |Escape(q)| < |z|
  {
    ItemsAround(front, p + "\"" + q, rest, values);
    QuoteBreaks(p, q);
    var last := After(rest) + tail;
    z := Escape(q) + ("\"" + last);
    Gather(Items(front), Separator(front), Broken(p), Escape(q), After(rest), tail);
    EscapeStart(q);
    assert last[0] == if rest == [] then tail[0] else ',';
    NotTwoQuotes(Escape(q), last, z);
  }

  lemma Join4(a: string, b: string, c: string, d: string)
    ensures (a + b + c) + d == a + (b + (c + d))
  {
  }

  /** The head and what follows it, as the readers meet them. */
  lemma HeadText(front: seq<string>, p: string, z: string, broken: string, text: string)
    requires broken == Broken(p) + z && text == Head(front, p) + z
    ensures if front == [] then text == broken && Head(front, p) == Broken(p)
            else text == Items(front) + (", " + broken)
    ensures front != [] ==> |Head(front, p)| == |Items(front)| + 2 + |Broken(p)|
  {
    Join4(Items(front), Separator(front), Broken(p), z);
    if front == [] {
      assert "" + ("" + broken) == broken && "" + "" + Broken(p) == Broken(p);
    }
  }

  lemma StatementToBreak(front: seq<string>, p: string, z: string, text: string)
    requires (forall v :: v in front ==> QuoteFree(v)) && QuoteFree(p) && !TwoQuotes(z) && text == Head(front, p) + z
    ensures StatementLength(text, 0, 1, false) == Shift(StatementLength(z, 0, 1, false), |Head(front, p)|)
  {
    var found, broken := StatementLength(z, 0, 1, false), Broken(p) + z;
    HeadText(front, p, z, broken, text);
    StatementPastBroken(p, z, 1);
    if front != [] {
      var spaced := ", " + broken;
      StatementPastItems(front, spaced, 1);
      StatementPastComma(broken, 1);
      ShiftThrice(found, |Broken(p)|, 2, |Items(front)|, |Head(front, p)|);
    }
  }

  lemma SplitToBreak(front: seq<string>, p: string, z: string, text: string) returns (space: string)
    requires (forall v :: v in front ==> QuoteFree(v)) && QuoteFree(p) && !TwoQuotes(z) && text == Head(front, p) + z
    ensures space == "" || space == " "
    ensures SplitItems(text, "", false) == Quotes(front) + SplitItems(z, space + Broken(p), false)
  {
    var broken := Broken(p) + z;
    HeadText(front, p, z, broken, text);
    space := if front == [] then "" else " ";
    SplitPastBroken(p, z, space);
    if front == [] {
      assert Quotes(front) == [];
    } else {
      SplitPastItems(front, "", broken, text);
    }
  }

  /** The list read from a statement that goes past the quote: nothing, or items up to a bracket after it. */
  lemma ParsePast(head: string, z: string, m: nat) returns (y: nat)
    requires head != "" && head[|head| - 1] == '"' && m <= |z|
    ensures var list := ParseList("[" + head + z[..m]);
            list == [] || (y < |z| && z[y] == ']' && list == KeptItems(SplitItems(head + z[..y], "", false)))
  {
    var raw := "[" + head + z[..m];
    var t := TrimmedTo(raw);
    y := 0;
    assert raw[|head|] == '"';
    if raw[t - 1] == ']' {
      y := t - 2 - |head|;
      assert raw[t - 1] == z[..m][y] == z[y];
      assert raw[..t][1..t - 1] == head + z[..y];
    }
  }

  // ---------------------------------------------------------------- what is kept

  lemma {:induction false} KeptAppend(a: seq<string>, b: seq<string>)
    ensures KeptItems(a + b) == KeptItems(a) + KeptItems(b)
    decreases |a|
  {
    if a == [] {
      assert a + b == b;
    } else {
      var text := Unquote(Trim(a[0]));
      assert (a + b)[0] == a[0] && (a + b)[1..] == a[1..] + b;
      KeptAppend(a[1..], b);
      Regroup(if text == "" then [] else [text], KeptItems(a[1..]), KeptItems(b));
    }
  }

  lemma {:induction false} KeptNonEmpty(items: seq<string>, i: nat)
    requires i < |KeptItems(items)|
    ensures KeptItems(items)[i] != ""
    decreases |items|
  {
    var text := Unquote(Trim(items[0]));
    if text == "" {
      KeptNonEmpty(items[1..], i);
    } else if i > 0 {
      KeptNonEmpty(items[1..], i - 1);
    }
  }

  lemma {:induction false} EscapedLength(values: seq<string>)
    requires forall i :: 0 <= i < |values| ==> values[i] != ""
    ensures |EscapedNonEmpty(values)| == |values|
  {
    if values != [] { EscapedLength(values[1..]); }
  }

  lemma StrippedIsOther(inner: string, y: string, r: string, v: string, n: nat)
    requires QuoteFree(inner) && n < |inner| && n < |v| && v[n] == '"' && inner <= r
    ensures r != v
  {
    assert r[n] == inner[n];
  }

  lemma StartsPlain(p: string, q: string)
    requires QuoteFree(p)
    ensures (p + "\"" + q)[0] == '"' ==> p == ""
  {
  }

  lemma UnstrippedIs(p: string, q: string, inner: string, y: string, u: string)
    requires QuoteFree(p) && inner == Escape(p) + "\\" && u == "\"" + inner + "\"" + y && u == p + "\"" + q
    ensures q == "\\\"" + y
  {
    var v := p + "\"" + q;
    StartsPlain(p, q);
    assert v[0] == '"';
    assert p == "" && Escape(p) == "" && inner == "\\";
    assert v[1..] == q && u[1..] == "\\\"" + y;
  }

  /** The item that starts at the quote is read as the value only if the value is a quote and then the text read,
      escaped. */
  lemma UnquoteBroken(p: string, q: string, y: string)
    requires QuoteFree(p) && (y == "" || !IsWhitespace(y[|y| - 1]))
    ensures Unquote(Broken(p) + y) != ""
    ensures Unquote(Broken(p) + y) == p + "\"" + q ==> q == "\\\"" + y
  {
    EscapeQuoteFree(p);
    var u, inner, v := Broken(p) + y, Escape(p) + "\\", p + "\"" + q;
    var last := |u| - 1;
    assert u == "\"" + inner + "\"" + y;
    assert u[0] == '"' && u[1] == inner[0] && u[last] == if y == "" then '"' else y[|y| - 1];
    TrimSolid(u);
    if u[last] == '"' {
      var r := u[1..last];
      assert forall i :: 0 <= i < |inner| ==> r[i] == u[i + 1] == inner[i];
      assert v[|p|] == '"';
      StrippedIsOther(inner, y, r, v, |p|);
    } else if u == v {
      UnstrippedIs(p, q, inner, y, u);
    }
  }

  /** And no value is that: the text read ends in front of a space, a comma or a bracket. */
  lemma ReadTextEnds(q: string, y: string, z: string)
    requires q == "\\\"" + y && Escape(q) <= z && y <= z
    ensures |y| < |z| && SlashOrQuote(z[|y|])
  {
    EscapeAppend("\\\"", y);
    var e := Escape(q);
    assert Escape("\\\"") == "\\\\\\\"" by {
      assert "\\\""[1..] == "\"" && "\""[1..] == "";
    }
    EscapeLonger(y);
    assert forall i :: 0 <= i < |y| ==> y[i] == z[i] == e[i];
    SelfEscape(y, e, |y|);
  }

  // ---------------------------------------------------------------- the round trip

  /** What follows the head is cut at `y` in front of a bracket: the item read there is not the value. */
  lemma BrokenItem(p: string, q: string, z: string, y: nat, space: string)
    requires QuoteFree(p) && (space == "" || space == " ") && Escape(q) <= z
    requires y < |z| && z[y] == ']'
    ensures var items := SplitItems(z[..y], space + Broken(p), false);
            items != [] && Unquote(Trim(items[0])) != "" && Unquote(Trim(items[0])) != p + "\"" + q
  {
    var cut := FirstItem(z[..y], space + Broken(p), false);
    var read := z[..cut];
    assert z[..y][..cut] == read;
    var kept := TrimAfter(space, Broken(p), read);
    assert read[..kept] == z[..kept];
    UnquoteBroken(p, q, z[..kept]);
    ReadEnds(z, y, cut, kept);
    if q == "\\\"" + z[..kept] {
      ReadTextEnds(q, z[..kept], z);
    }
  }

  /** Where the text that was read ends, a slash or a quote never stands. */
  lemma ReadEnds(z: string, y: nat, cut: nat, kept: nat)
    requires kept <= cut <= y < |z| && z[y] == ']'
    requires cut < y ==> z[..y][cut] == ','
    requires kept < cut ==> IsWhitespace(z[..cut][kept])
    ensures !SlashOrQuote(z[kept])
  {
    assert cut < y ==> z[cut] == ',';
    assert kept < cut ==> IsWhitespace(z[kept]);
  }

  lemma KeptIsOther(front: seq<string>, v: string, rest: seq<string>, values: seq<string>, more: seq<string>)
    requires (forall u :: u in front ==> QuoteFree(u)) && values == front + ([v] + rest)
    requires more != [] && Unquote(Trim(more[0])) != "" && Unquote(Trim(more[0])) != v
    ensures KeptItems(Quotes(front) + more) != values
  {
    var kept := KeptItems(Quotes(front) + more);
    KeptAppend(Quotes(front), more);
    KeptQuotes(front);
    if forall i :: 0 <= i < |front| ==> front[i] != "" {
      EscapedLength(front);
      assert kept[|front|] == KeptItems(more)[0] && values[|front|] == v;
    } else {
      var i :| 0 <= i < |front| && front[i] == "";
      assert values[i] == front[i];
      if i < |kept| { KeptNonEmpty(Quotes(front) + more, i); }
    }
  }

  lemma ListPrefix(list: string, head: string, z: string, m: nat, n: nat)
    requires list == "[" + (head + z) && m <= |z| && n == 1 + |head| + m
    ensures list[..n] == "[" + head + z[..m]
  {
  }

  lemma SpaceBefore(list: string)
    requires list != "" && list[0] == '['
    ensures FieldValue(" " + list)
         == match StatementLength(list, 0, 0, false) case None => None case Some(n) => Some(list[..n])
  {
    ReadsSpace(" ", list);
    assert (" " + list)[1..] == list;
  }

  lemma OpenBracket(list: string, text: string)
    requires list == "[" + text
    ensures StatementLength(list, 0, 0, false) == Shift(StatementLength(text, 0, 1, false), 1)
  {
    assert list[0] == '[' && list[1..] == text;
  }

  lemma BrokenStatement(list: string, text: string, skipped: nat, found: Option<nat>)
    requires list == "[" + text && StatementLength(text, 0, 1, false) == Shift(found, skipped)
    ensures StatementLength(list, 0, 0, false) == Shift(found, skipped + 1)
  {
    OpenBracket(list, text);
    ShiftTwice(found, skipped, 1);
  }

  /** The statement that holds the list, when it is one. */
  lemma BrokenValue(list: string, head: string, z: string, found: Option<nat>, n: nat)
    requires list == "[" + (head + z) && (found.Some? ==> found.value <= |z| && n == 1 + |head| + found.value)
    requires StatementLength(list, 0, 0, false) == if found == None then None else Some(n)
    ensures FieldValue(" " + list) == if found == None then None else Some("[" + head + z[..found.value])
  {
    SpaceBefore(list);
    if found.Some? {
      ListPrefix(list, head, z, found.value, n);
    }
  }

  lemma BrokenListIsOther(front: seq<string>, p: string, q: string, rest: seq<string>, values: seq<string>,
                          z: string, m: nat)
    requires (forall u :: u in front ==> QuoteFree(u)) && QuoteFree(p) && values == front + ([p + "\"" + q] + rest)
    requires !TwoQuotes(z) && Escape(q) <= z && m <= |z|
    ensures ParseList("[" + Head(front, p) + z[..m]) != values
  {
    var head := Head(front, p);
    var y := ParsePast(head, z, m);
    if ParseList("[" + head + z[..m]) != [] {
      assert !TwoQuotes(z[..y]);
      var space := SplitToBreak(front, p, z[..y], head + z[..y]);
      BrokenItem(p, q, z, y, space);
      KeptIsOther(front, p + "\"" + q, rest, values, SplitItems(z[..y], space + Broken(p), false));
    }
  }

  lemma BrokenFieldIsOther(front: seq<string>, p: string, q: string, rest: seq<string>, values: seq<string>,
                           after: string, list: string)
    requires (forall u :: u in front ==> QuoteFree(u)) && QuoteFree(p) && values == front + ([p + "\"" + q] + rest)
    requires list == "[" + Items(values) + "];" + after
    ensures FieldValue(" " + list) == None || ParseList(FieldValue(" " + list).value) != values
  {
    var z := PrintedAround(front, p, q, rest, values, "];" + after);
    var text := Items(values) + ("];" + after);
    assert list == "[" + text;
    StatementToBreak(front, p, z, text);
    var found := StatementLength(z, 0, 1, false);
    BrokenStatement(list, text, |Head(front, p)|, found);
    BrokenValue(list, Head(front, p), z, found, if found == None then 0 else 1 + |Head(front, p)| + found.value);
    if found.Some? {
      BrokenListIsOther(front, p, q, rest, values, z, found.value);
    }
  }

  predicate Plain(value: string) {
    value != "" && forall i :: 0 <= i < |value| ==> value[i] != '\\' && value[i] != '"'
  }

  lemma {:induction false} FirstQuote(v: string) returns (p: string, q: string)
    requires !QuoteFree(v)
    ensures QuoteFree(p) && v == p + "\"" + q
  {
    if v[0] == '"' {
      p, q := "", v[1..];
    } else {
      var rest := v[1..];
      assert !QuoteFree(rest) by {
        var i :| 0 <= i < |v| && v[i] == '"';
        assert rest[i - 1] == '"';
      }
      p, q := FirstQuote(rest);
      assert v == [v[0]] + rest;
      p := [v[0]] + p;
    }
  }

  lemma {:induction false} FirstWithQuote(values: seq<string>) returns (i: nat)
    requires !(forall v :: v in values ==> QuoteFree(v))
    ensures i < |values| && !QuoteFree(values[i]) && forall v :: v in values[..i] ==> QuoteFree(v)
  {
    if !QuoteFree(values[0]) {
      i := 0;
    } else {
      i := FirstWithQuote(values[1..]);
      assert values[..i + 1] == [values[0]] + values[1..][..i];
      i := i + 1;
    }
  }

  /** Whatever follows a printed list, reading it gives the list back if and only if every value is non-empty and has
      neither a quote nor a backslash.  Commas, semicolons, brackets and braces do not matter. */
  lemma RoundTripIff(name: string, values: seq<string>, levels: nat, after: string)
    requires IsFieldName(name)
    ensures ListField(RenderedList(name, values, levels) + after, name) == values
            <==> forall v :: v in values ==> Plain(v)
  {
    if forall v :: v in values ==> QuoteFree(v) {
      QuoteFreeRoundTripIff(name, values, levels, after);
      assert forall v :: v in values ==> (Plain(v) <==> v != "" && forall i :: 0 <= i < |v| ==> v[i] != '\\');
    } else {
      var i := FirstWithQuote(values);
      var front, v, rest := values[..i], values[i], values[i + 1..];
      var p, q := FirstQuote(v);
      assert values == front + ([v] + rest);
      assert v in values && v[|p|] == '"';
      BrokenFieldIsOther(front, p, q, rest, values, "\n" + after, "[" + Items(values) + "];" + ("\n" + after));
      PrintedField(name, values, levels, after);
    }
  }
}
