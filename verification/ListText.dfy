/** Printed string lists, and the field and list readers that take them back. */
module ListText {
  import opened Prelude
  import opened TextSpace
  import opened BlockScanner

  // ---------------------------------------------------------------- statements

  /**
   Where the `;` that ends a statement is, counted from the start of `rest`: outside strings, with no
   brace or bracket open.  Closing more than was opened is ignored.
   */
  function StatementLength(rest: string, braces: nat, brackets: nat, inString: bool): (length: Option<nat>)
    ensures length.Some? ==> length.value < |rest| && rest[length.value] == ';'
    decreases |rest|
  {
    if rest == "" then None
    else if StartsTriple(rest) then Shift(StatementLength(rest[3..], braces, brackets, !inString), 3)
    else
      var quoted := if rest[0] == '"' then !inString else inString;
      if quoted then Shift(StatementLength(rest[1..], braces, brackets, quoted), 1)
      else if rest[0] == ';' && braces == 0 && brackets == 0 then Some(0)
      else
        Shift(StatementLength(rest[1..], Step(braces, rest[0], '{', '}'), Step(brackets, rest[0], '[', ']'), quoted), 1)
  }

  function Step(count: nat, c: char, open: char, close: char): nat {
    if c == open then count + 1 else if c == close && count > 0 then count - 1 else count
  }

  /** The same, counted from the start of `source`. */
  function StatementAt(source: string, at: nat, braces: nat, brackets: nat, inString: bool): Option<nat>
    requires at <= |source|
  {
    Shift(StatementLength(source[at..], braces, brackets, inString), at)
  }

  lemma PastTriple(source: string, at: nat, next: nat, braces: nat, brackets: nat, inString: bool)
    requires next <= |source| && next == at + 3 && StartsTriple(source[at..])
    ensures StatementAt(source, at, braces, brackets, inString)
            == StatementAt(source, next, braces, brackets, !inString)
  {
    assert source[at..][3..] == source[next..];
    ShiftTwice(StatementLength(source[next..], braces, brackets, !inString), 3, at);
  }

  lemma PastChar(source: string, at: nat, next: nat, braces: nat, brackets: nat, inString: bool,
                 quoted: bool, bracesNext: nat, bracketsNext: nat)
    requires next <= |source| && next == at + 1 && !StartsTriple(source[at..])
    requires quoted == if source[at] == '"' then !inString else inString
    requires quoted ==> bracesNext == braces && bracketsNext == brackets
    requires !quoted ==> !(source[at] == ';' && braces == 0 && brackets == 0)
    requires !quoted ==> bracesNext == Step(braces, source[at], '{', '}')
    requires !quoted ==> bracketsNext == Step(brackets, source[at], '[', ']')
    ensures StatementAt(source, at, braces, brackets, inString)
            == StatementAt(source, next, bracesNext, bracketsNext, quoted)
  {
    assert source[at..][0] == source[at] && source[at..][1..] == source[next..];
    ShiftTwice(StatementLength(source[next..], bracesNext, bracketsNext, quoted), 1, at);
  }

  lemma AtEnd(source: string, at: nat, braces: nat, brackets: nat, inString: bool)
    requires at < |source| && source[at] == ';' && braces == 0 && brackets == 0 && !inString
    ensures StatementAt(source, at, braces, brackets, inString) == Some(at)
  {
    assert source[at..][0] == ';';
  }

  /** What one character does outside a triple quote. */
  method ReadStatementChar(c: char, braces: nat, brackets: nat, inString: bool)
    returns (ends: bool, bracesNext: nat, bracketsNext: nat, quoted: bool)
    ensures quoted == if c == '"' then !inString else inString
    ensures ends == (!quoted && c == ';' && braces == 0 && brackets == 0)
    ensures quoted ==> bracesNext == braces && bracketsNext == brackets
    ensures !quoted ==> bracesNext == Step(braces, c, '{', '}') && bracketsNext == Step(brackets, c, '[', ']')
  {
    ends, bracesNext, bracketsNext, quoted := false, braces, brackets, inString;
    if c == '"' {
      quoted := !quoted;
    }
    if !quoted {
      ends := c == ';' && braces == 0 && brackets == 0;
      bracesNext, bracketsNext := Step(braces, c, '{', '}'), Step(brackets, c, '[', ']');
    }
  }

  /** The body of the scanner's loop. */
  method ReadStatementTurn(source: string, cursor: nat, braces: nat, brackets: nat, inString: bool)
    returns (ends: bool, next: nat, bracesNext: nat, bracketsNext: nat, quoted: bool)
    requires cursor < |source|
    ensures ends ==> StatementAt(source, cursor, braces, brackets, inString) == Some(cursor)
    ensures !ends ==> cursor < next <= |source|
    ensures !ends ==> StatementAt(source, cursor, braces, brackets, inString)
                      == StatementAt(source, next, bracesNext, bracketsNext, quoted)
  {
    if StartsTriple(source[cursor..]) {
      next := cursor + 3;
      PastTriple(source, cursor, next, braces, brackets, inString);
      return false, next, braces, brackets, !inString;
    }
    next := cursor + 1;
    ends, bracesNext, bracketsNext, quoted := ReadStatementChar(source[cursor], braces, brackets, inString);
    if ends {
      AtEnd(source, cursor, braces, brackets, inString);
    } else {
      PastChar(source, cursor, next, braces, brackets, inString, quoted, bracesNext, bracketsNext);
    }
  }

  method StatementEnd(source: string, start: nat) returns (end: Option<nat>)
    requires start <= |source|
    ensures end == StatementAt(source, start, 0, 0, false)
  {
    var cursor := start;
    var braces: nat, brackets: nat, inString := 0, 0, false;
    while cursor < |source|
      invariant start <= cursor <= |source|
      invariant StatementAt(source, cursor, braces, brackets, inString) == StatementAt(source, start, 0, 0, false)
    {
      var ends, next, bracesNext, bracketsNext, quoted := ReadStatementTurn(source, cursor, braces, brackets, inString);
      if ends {
        return Some(cursor);
      }
      cursor, braces, brackets, inString := next, bracesNext, bracketsNext, quoted;
    }
    assert source[cursor..] == "";
    end := None;
  }

  // ---------------------------------------------------------------- fields

  function FindText(rest: string, word: string): Option<nat>
    ensures FindText(rest, word).Some? ==> FindText(rest, word).value + |word| <= |rest|
  {
    if |rest| < |word| then None
    else if rest[..|word|] == word then Some(0)
    else if rest == "" then None
    else Shift(FindText(rest[1..], word), 1)
  }

  function EndOf(at: nat, word: string): nat {
    at + |word|
  }

  /** The `word` at `at` is not part of a longer one. */
  predicate Bounded(source: string, at: nat, word: string) {
    && (at == 0 || at > |source| || !IsIdentChar(source[at - 1]))
    && (EndOf(at, word) >= |source| || !IsIdentChar(source[EndOf(at, word)]))
  }

  function NextAt(source: string, word: string, start: nat): (at: Option<nat>)
    requires start <= |source|
    ensures at.Some? ==> start <= at.value && EndOf(at.value, word) <= |source|
  {
    Shift(FindText(source[start..], word), start)
  }

  /** The first occurrence of `word` at or after `start` that is not part of a longer word. */
  function FindWord(source: string, word: string, start: nat): (found: Option<nat>)
    requires word != "" && start <= |source|
    ensures found.Some? ==> start <= found.value && EndOf(found.value, word) <= |source|
    decreases |source| - start
  {
    match NextAt(source, word, start)
    case None => None
    case Some(at) => if Bounded(source, at, word) then Some(at) else FindWord(source, word, EndOf(at, word))
  }

  /** Past the space that follows a key. */
  function AfterKey(source: string, found: nat, key: string): (after: nat)
    requires EndOf(found, key) <= |source|
    ensures EndOf(found, key) <= after <= |source|
  {
    EndOf(found, key) + SpaceLength(source[EndOf(found, key)..])
  }

  /** The text of the first `key: ...;` statement. */
  function FieldFrom(source: string, key: string, start: nat): Option<string>
    requires key != "" && start <= |source|
    decreases |source| - start
  {
    match FindWord(source, key, start)
    case None => None
    case Some(found) =>
      var afterKey := AfterKey(source, found, key);
      if afterKey == |source| || source[afterKey] != ':' then FieldFrom(source, key, afterKey)
      else ValueAfter(source, afterKey)
  }

  function ValueAfter(source: string, colon: nat): Option<string>
    requires colon < |source|
  {
    FieldValue(source[colon + 1..])
  }

  /** The value after a field's colon: up to the end of the statement, if it ends. */
  function FieldValue(rest: string): Option<string> {
    var value := rest[SpaceLength(rest)..];
    match StatementLength(value, 0, 0, false)
    case None => None
    case Some(n) => Some(value[..n])
  }

  method ScanWord(source: string, word: string, start: nat) returns (found: Option<nat>)
    requires word != "" && start <= |source|
    ensures found == FindWord(source, word, start)
  {
    var cursor := start;
    while true
      invariant start <= cursor <= |source|
      invariant FindWord(source, word, cursor) == FindWord(source, word, start)
      decreases |source| - cursor
    {
      var at := NextAt(source, word, cursor);
      if at == None {
        return None;
      }
      if Bounded(source, at.value, word) {
        return at;
      }
      cursor := EndOf(at.value, word);
    }
  }

  method FieldRaw(source: string, key: string) returns (raw: Option<string>)
    requires key != ""
    ensures raw == FieldFrom(source, key, 0)
  {
    var cursor := 0;
    while true
      invariant 0 <= cursor <= |source|
      invariant FieldFrom(source, key, cursor) == FieldFrom(source, key, 0)
      decreases |source| - cursor
    {
      var found := ScanWord(source, key, cursor);
      if found == None {
        return None;
      }
      var afterKey := AfterKey(source, found.value, key);
      if afterKey == |source| || source[afterKey] != ':' {
        cursor := afterKey;
        continue;
      }
      return ValueAfter(source, afterKey);
    }
  }

  // ---------------------------------------------------------------- lists

  function Unquote(text: string): string {
    var value := Trim(text);
    if |value| >= 6 && StartsTriple(value) && StartsTriple(value[|value| - 3..]) then value[3..|value| - 3]
    else if |value| >= 2 && value[0] == '"' && value[|value| - 1] == '"' then value[1..|value| - 1]
    else value
  }

  /** The comma-separated items of `rest`, `item` being what has been read of the current one. */
  function SplitItems(rest: string, item: string, inString: bool): seq<string>
    decreases |rest|
  {
    if rest == "" then [Trim(item)]
    else if StartsTriple(rest) then SplitItems(rest[3..], item + rest[..3], !inString)
    else if rest[0] == '"' then SplitItems(rest[1..], item + [rest[0]], !inString)
    else if rest[0] == ',' && !inString then [Trim(item)] + SplitItems(rest[1..], "", inString)
    else SplitItems(rest[1..], item + [rest[0]], inString)
  }

  /** The items from the cursor `at` on, the current one having begun at `start`. */
  function SplitAt(source: string, start: nat, at: nat, inString: bool): seq<string>
    requires start <= at <= |source|
  {
    SplitItems(source[at..], source[start..at], inString)
  }

  lemma SplitTriple(source: string, start: nat, at: nat, next: nat, inString: bool)
    requires start <= at && next == at + 3 <= |source| && StartsTriple(source[at..])
    ensures SplitAt(source, start, at, inString) == SplitAt(source, start, next, !inString)
  {
    assert source[at..][3..] == source[next..];
    assert source[start..at] + source[at..][..3] == source[start..next];
  }

  lemma SplitChar(source: string, start: nat, at: nat, next: nat, inString: bool)
    requires start <= at && next == at + 1 <= |source| && !StartsTriple(source[at..])
    requires source[at] == ',' ==> inString
    ensures SplitAt(source, start, at, inString)
         == SplitAt(source, start, next, if source[at] == '"' then !inString else inString)
  {
    assert source[at..][0] == source[at] && source[at..][1..] == source[next..];
    assert source[start..at] + [source[at]] == source[start..next];
  }

  lemma SplitComma(source: string, start: nat, at: nat, next: nat)
    requires start <= at && next == at + 1 <= |source| && source[at] == ','
    ensures SplitAt(source, start, at, false) == [Trim(source[start..at])] + SplitAt(source, next, next, false)
  {
    assert source[at..][0] == ',' && source[at..][1..] == source[next..] && source[next..next] == "";
  }

  method SplitListItems(source: string) returns (items: seq<string>)
    ensures items == SplitItems(source, "", false)
  {
    items := [];
    var start, cursor, inString := 0, 0, false;
    assert source[0..] == source && source[0..0] == "";
    ghost var all := SplitAt(source, 0, 0, false);
    while cursor < |source|
      invariant 0 <= start <= cursor <= |source|
      invariant items + SplitAt(source, start, cursor, inString) == all
    {
      if StartsTriple(source[cursor..]) {
        SplitTriple(source, start, cursor, cursor + 3, inString);
        inString := !inString;
        cursor := cursor + 3;
        continue;
      }
      if source[cursor] == '"' {
        SplitChar(source, start, cursor, cursor + 1, inString);
        inString := !inString;
      } else if source[cursor] == ',' && !inString {
        SplitComma(source, start, cursor, cursor + 1);
        items := items + [Trim(source[start..cursor])];
        start := cursor + 1;
      } else {
        SplitChar(source, start, cursor, cursor + 1, inString);
      }
      cursor := cursor + 1;
    }
    assert source[cursor..] == "" && source[start..cursor] == source[start..];
    items := items + [Trim(source[start..])];
  }

  /** Each item unquoted, the empty ones dropped. */
  function KeptItems(items: seq<string>): seq<string> {
    if items == [] then []
    else
      var text := Unquote(Trim(items[0]));
      (if text == "" then [] else [text]) + KeptItems(items[1..])
  }

  function ParseList(raw: string): seq<string> {
    var trimmed := Trim(raw);
    if trimmed == "" || trimmed[0] != '[' || trimmed[|trimmed| - 1] != ']' || |trimmed| < 2 then []
    else KeptItems(SplitItems(trimmed[1..|trimmed| - 1], "", false))
  }

  function ListField(source: string, key: string): seq<string>
    requires key != ""
  {
    match FieldFrom(source, key, 0)
    case None => []
    case Some(raw) => ParseList(raw)
  }

  // ---------------------------------------------------------------- printing

  function Escape(value: string): string {
    if value == "" then ""
    else (if value[0] == '\\' then "\\\\" else if value[0] == '"' then "\\\"" else [value[0]]) + Escape(value[1..])
  }

  function Quote(value: string): string {
    "\"" + Escape(value) + "\""
  }

  function Items(values: seq<string>): string {
    if values == [] then ""
    else if |values| == 1 then Quote(values[0])
    else Quote(values[0]) + (", " + Items(values[1..]))
  }

  function Indent(levels: nat): string {
    if levels == 0 then "" else "    " + Indent(levels - 1)
  }

  function RenderedList(name: string, values: seq<string>, levels: nat): string {
    Indent(levels) + (name + (": [" + (Items(values) + "];\n")))
  }

  lemma JoinedAgain(first: string, middle: string, last: string)
    ensures first + (", " + (middle + ", " + last)) == (first + (", " + middle)) + ", " + last
  {
  }

  lemma {:induction false} ItemsAppend(values: seq<string>, last: string)
    requires values != []
    ensures Items(values + [last]) == Items(values) + ", " + Quote(last)
    decreases |values|
  {
    var all := values + [last];
    assert all[0] == values[0] && all[1..] == values[1..] + [last];
    if |values| == 1 {
      assert all[1..] == [last];
      assert Quote(values[0]) + (", " + Quote(last)) == Quote(values[0]) + ", " + Quote(last);
    } else {
      ItemsAppend(values[1..], last);
      JoinedAgain(Quote(values[0]), Items(values[1..]), Quote(last));
    }
  }

  lemma OneItemMore(head: string, done: seq<string>, last: string, text: string)
    requires text == head + Items(done)
    ensures text + (if done == [] then "" else ", ") + Quote(last) == head + Items(done + [last])
  {
    if done == [] {
      assert done + [last] == [last] && text + "" == text == head + "";
    } else {
      ItemsAppend(done, last);
      assert head + Items(done) + ", " + Quote(last) == head + (Items(done) + ", " + Quote(last));
    }
  }

  method RenderStringList(out: string, name: string, values: seq<string>, levels: nat) returns (text: string)
    ensures text == out + RenderedList(name, values, levels)
  {
    text := out + Indent(levels) + name + ": [";
    ghost var head := text;
    var i := 0;
    while i < |values|
      invariant 0 <= i <= |values|
      invariant text == head + Items(values[..i])
    {
      assert values[..i + 1] == values[..i] + [values[i]];
      OneItemMore(head, values[..i], values[i], text);
      text := text + (if i > 0 then ", " else "") + Quote(values[i]);
      i := i + 1;
    }
    assert values[..i] == values;
    text := text + "];\n";
    ListParts(out, Indent(levels), name, Items(values), text);
  }

  lemma ListParts(out: string, indent: string, name: string, items: string, text: string)
    requires text == out + indent + name + ": [" + items + "];\n"
    ensures text == out + (indent + (name + (": [" + (items + "];\n"))))
  {
  }

  // ---------------------------------------------------------------- reading back

  predicate QuoteFree(s: string) {
    forall i :: 0 <= i < |s| ==> s[i] != '"'
  }

  predicate StartsQuote(s: string) {
    s != "" && s[0] == '"'
  }

  lemma {:induction false} EscapeQuoteFree(value: string)
    requires QuoteFree(value)
    ensures QuoteFree(Escape(value))
    ensures |Escape(value)| >= |value|
    ensures Escape(value) == value <==> forall i :: 0 <= i < |value| ==> value[i] != '\\'
    ensures |Escape(value)| == |value| ==> Escape(value) == value
  {
    if value != "" {
      EscapeQuoteFree(value[1..]);
      if value[0] == '\\' {
        assert |Escape(value)| > |value|;
      } else {
        assert value == [value[0]] + value[1..];
        assert Escape(value)[1..] == Escape(value[1..]);
        assert forall i :: 0 < i < |value| ==> value[i] == value[1..][i - 1];
      }
    }
  }

  lemma {:induction false} StatementInString(inner: string, after: string, braces: nat, brackets: nat)
    requires QuoteFree(inner) && !StartsQuote(after)
    ensures StatementLength(inner + "\"" + after, braces, brackets, true)
         == Shift(StatementLength(after, braces, brackets, false), |inner| + 1)
    decreases |inner|
  {
    var whole := inner + "\"" + after;
    if inner == "" {
      assert whole[0] == '"' && whole[1..] == after;
      assert |whole| > 1 ==> whole[1] == after[0];
    } else {
      assert whole[0] == inner[0] && whole[1..] == inner[1..] + "\"" + after;
      StatementInString(inner[1..], after, braces, brackets);
      ShiftTwice(StatementLength(after, braces, brackets, false), |inner|, 1);
    }
  }

  /** A quoted text and what follows it, as a scanner meets them. */
  lemma QuotedWhole(inner: string, after: string, whole: string)
    requires QuoteFree(inner) && !StartsQuote(after) && whole == "\"" + inner + "\"" + after
    ensures whole[0] == '"' && whole[1..] == inner + "\"" + after && !StartsTriple(whole)
  {
    assert inner != "" ==> whole[1] == inner[0];
    assert inner == "" ==> whole[1] == '"' && (|whole| > 2 ==> whole[2] == after[0]);
  }

  lemma StatementPastQuote(value: string, after: string, braces: nat, brackets: nat)
    requires QuoteFree(value) && !StartsQuote(after)
    ensures StatementLength(Quote(value) + after, braces, brackets, false)
         == Shift(StatementLength(after, braces, brackets, false), |Quote(value)|)
  {
    EscapeQuoteFree(value);
    var inner := Escape(value);
    QuotedWhole(inner, after, Quote(value) + after);
    StatementInString(inner, after, braces, brackets);
    ShiftTwice(StatementLength(after, braces, brackets, false), |inner| + 1, 1);
  }

  lemma StatementPastComma(rest: string, brackets: nat)
    requires brackets > 0
    ensures StatementLength(", " + rest, 0, brackets, false) == Shift(StatementLength(rest, 0, brackets, false), 2)
  {
    assert (", " + rest)[1..] == " " + rest;
    assert (" " + rest)[1..] == rest;
    assert StatementLength(" " + rest, 0, brackets, false) == Shift(StatementLength(rest, 0, brackets, false), 1);
  }

  lemma {:induction false} StatementPastItems(values: seq<string>, after: string, brackets: nat)
    requires (forall v :: v in values ==> QuoteFree(v)) && !StartsQuote(after) && brackets > 0
    ensures StatementLength(Items(values) + after, 0, brackets, false)
         == Shift(StatementLength(after, 0, brackets, false), |Items(values)|)
    decreases |values|
  {
    if values == [] {
      assert Items(values) + after == after;
    } else if |values| == 1 {
      StatementPastQuote(values[0], after, 0, brackets);
    } else {
      var quoted, more := Quote(values[0]), Items(values[1..]);
      var end := StatementLength(after, 0, brackets, false);
      assert Items(values) + after == quoted + (", " + (more + after));
      StatementPastQuote(values[0], ", " + (more + after), 0, brackets);
      StatementPastComma(more + after, brackets);
      StatementPastItems(values[1..], after, brackets);
      assert |Items(values)| == |quoted| + 2 + |more|;
      ShiftThrice(end, |more|, 2, |quoted|, |Items(values)|);
    }
  }

  lemma ShiftThrice(found: Option<nat>, a: nat, b: nat, c: nat, sum: nat)
    requires sum == a + b + c
    ensures Shift(Shift(Shift(found, a), b), c) == Shift(found, sum)
  {
  }

  /** The printed list is one statement. */
  lemma ListIsStatement(values: seq<string>, after: string)
    requires forall v :: v in values ==> QuoteFree(v)
    ensures StatementLength("[" + Items(values) + "];" + after, 0, 0, false) == Some(|Items(values)| + 2)
  {
    var whole := "[" + Items(values) + "];" + after;
    var tail := "];" + after;
    assert whole[1..] == Items(values) + tail;
    StatementPastItems(values, tail, 1);
    assert tail[1..] == ";" + after;
  }

  lemma {:induction false} SplitInString(inner: string, after: string, item: string)
    requires QuoteFree(inner) && !StartsQuote(after)
    ensures SplitItems(inner + "\"" + after, item, true) == SplitItems(after, item + inner + "\"", false)
    decreases |inner|
  {
    var whole := inner + "\"" + after;
    if inner == "" {
      assert whole[0] == '"' && whole[1..] == after;
      assert |whole| > 1 ==> whole[1] == after[0];
      assert item + inner + "\"" == item + ['"'];
    } else {
      assert whole[0] == inner[0] && whole[1..] == inner[1..] + "\"" + after;
      SplitInString(inner[1..], after, item + [inner[0]]);
      assert item + [inner[0]] + inner[1..] + "\"" == item + inner + "\"";
    }
  }

  lemma SplitPastQuote(value: string, after: string, item: string)
    requires QuoteFree(value) && !StartsQuote(after)
    ensures SplitItems(Quote(value) + after, item, false) == SplitItems(after, item + Quote(value), false)
  {
    EscapeQuoteFree(value);
    var inner := Escape(value);
    QuotedWhole(inner, after, Quote(value) + after);
    SplitInString(inner, after, item + ['"']);
    assert item + ['"'] + inner + "\"" == item + ("\"" + inner + "\"");
  }

  function Quotes(values: seq<string>): (items: seq<string>)
    ensures |items| == |values| && forall i :: 0 <= i < |values| ==> items[i] == Quote(values[i])
  {
    seq(|values|, i requires 0 <= i < |values| => Quote(values[i]))
  }

  lemma TrimQuote(value: string, space: string)
    requires space == "" || space == " "
    ensures Trim(space + Quote(value)) == Quote(value)
  {
    var quoted := Quote(value);
    assert quoted[0] == '"' && quoted[|quoted| - 1] == '"';
    TrimSolid(quoted);
    if space == "" {
      assert space + quoted == quoted;
    } else {
      assert (space + quoted)[0] == ' ' && (space + quoted)[1..] == quoted;
    }
  }

  lemma SplitPastComma(rest: string, item: string)
    ensures SplitItems(", " + rest, item, false) == [Trim(item)] + SplitItems(rest, " ", false)
  {
    assert (", " + rest)[1..] == " " + rest;
    assert (" " + rest)[1..] == rest;
    assert "" + [' '] == " ";
    assert SplitItems(" " + rest, "", false) == SplitItems(rest, " ", false);
  }

  lemma {:induction false} SplitGivesQuotes(values: seq<string>, space: string)
    requires values != [] && (forall v :: v in values ==> QuoteFree(v))
    requires space == "" || space == " "
    ensures SplitItems(Items(values), space, false) == Quotes(values)
    decreases |values|
  {
    var first := space + Quote(values[0]);
    TrimQuote(values[0], space);
    if |values| == 1 {
      assert Quote(values[0]) + "" == Quote(values[0]);
      SplitPastQuote(values[0], "", space);
      assert Quotes(values) == [Quote(values[0])];
    } else {
      var spaced := ", " + Items(values[1..]);
      SplitPastQuote(values[0], spaced, space);
      SplitPastComma(Items(values[1..]), first);
      SplitGivesQuotes(values[1..], " ");
      assert [Quote(values[0])] + Quotes(values[1..]) == Quotes(values);
    }
  }

  lemma UnquoteQuote(value: string)
    requires QuoteFree(value)
    ensures Unquote(Trim(Quote(value))) == Escape(value)
  {
    EscapeQuoteFree(value);
    var quoted, inner := Quote(value), Escape(value);
    TrimQuote(value, "");
    assert "" + quoted == quoted;
    assert quoted[1..|quoted| - 1] == inner;
    if |inner| > 0 { assert quoted[1] == inner[0]; }
  }

  /** The values, escaped, without the empty ones. */
  function EscapedNonEmpty(values: seq<string>): seq<string> {
    if values == [] then []
    else (if values[0] == "" then [] else [Escape(values[0])]) + EscapedNonEmpty(values[1..])
  }

  lemma {:induction false} KeptQuotes(values: seq<string>)
    requires forall v :: v in values ==> QuoteFree(v)
    ensures KeptItems(Quotes(values)) == EscapedNonEmpty(values)
    decreases |values|
  {
    if values != [] {
      UnquoteQuote(values[0]);
      EscapeQuoteFree(values[0]);
      assert Quotes(values)[1..] == Quotes(values[1..]);
      KeptQuotes(values[1..]);
    }
  }

  lemma ParsePrinted(values: seq<string>)
    requires forall v :: v in values ==> QuoteFree(v)
    ensures ParseList("[" + Items(values) + "]") == EscapedNonEmpty(values)
  {
    var raw := "[" + Items(values) + "]";
    assert raw[0] == '[' && raw[|raw| - 1] == ']';
    TrimSolid(raw);
    assert raw[1..|raw| - 1] == Items(values);
    if values == [] {
      assert KeptItems([""]) == [] + KeptItems([""][1..]);
      assert SplitItems("", "", false) == [""];
    } else {
      SplitGivesQuotes(values, "");
      KeptQuotes(values);
    }
  }

  /** A field name as the printer uses them: one word. */
  predicate IsFieldName(name: string) {
    name != "" && forall i :: 0 <= i < |name| ==> IsIdentChar(name[i])
  }

  predicate AllSpaces(s: string) {
    forall i :: 0 <= i < |s| ==> s[i] == ' '
  }

  lemma {:induction false} IndentIsSpaces(levels: nat)
    ensures AllSpaces(Indent(levels))
  {
    if levels > 0 {
      IndentIsSpaces(levels - 1);
    }
  }

  lemma {:induction false} FindPastSpaces(spaces: string, name: string, after: string)
    requires AllSpaces(spaces) && IsFieldName(name)
    ensures FindText(spaces + (name + after), name) == Some(|spaces|)
    decreases |spaces|
  {
    var whole := spaces + (name + after);
    if spaces == "" {
      assert whole == name + after && whole[..|name|] == name;
    } else {
      assert whole[0] == ' ' && whole[1..] == spaces[1..] + (name + after);
      assert whole[..|name|][0] == ' ';
      FindPastSpaces(spaces[1..], name, after);
    }
  }

  lemma WordIsFound(spaces: string, name: string, rest: string)
    requires AllSpaces(spaces) && IsFieldName(name)
    ensures FindWord(spaces + (name + (":" + rest)), name, 0) == Some(|spaces|)
  {
    var source := spaces + (name + (":" + rest));
    var at := |spaces|;
    FindPastSpaces(spaces, name, ":" + rest);
    assert source[0..] == source;
    assert at > 0 ==> source[at - 1] == ' ';
    assert source[at + |name|] == ':';
    assert Bounded(source, at, name);
  }

  lemma FieldFromFound(source: string, key: string, found: nat, end: nat, rest: string)
    requires key != "" && FindWord(source, key, 0) == Some(found) && end == EndOf(found, key)
    requires source[end..] == ":" + rest
    ensures FieldFrom(source, key, 0) == FieldValue(rest)
  {
    assert SpaceLength(source[end..]) == 0;
    assert source[end] == source[end..][0] == ':';
    assert AfterKey(source, found, key) == end;
    ValueAfterColon(source, end, rest);
  }

  lemma ValueAfterColon(source: string, colon: nat, rest: string)
    requires colon < |source| && source[colon..] == ":" + rest
    ensures ValueAfter(source, colon) == FieldValue(rest)
  {
    var next := colon + 1;
    assert source[next..] == source[colon..][1..] == rest;
  }

  /** The first field of a text, found by its name. */
  lemma FieldIsFound(spaces: string, name: string, rest: string)
    requires AllSpaces(spaces) && IsFieldName(name)
    ensures FieldFrom(spaces + (name + (":" + rest)), name, 0) == FieldValue(rest)
  {
    var tail := ":" + rest;
    var source, end := spaces + (name + tail), EndOf(|spaces|, name);
    WordIsFound(spaces, name, rest);
    AfterWord(spaces, name, tail, source, end);
    FieldFromFound(source, name, |spaces|, end, rest);
  }

  lemma AfterWord(spaces: string, name: string, tail: string, source: string, end: nat)
    requires source == spaces + (name + tail) && end == EndOf(|spaces|, name)
    ensures source[end..] == tail
  {
  }

  lemma ListIsValue(values: seq<string>, after: string)
    requires forall v :: v in values ==> QuoteFree(v)
    ensures FieldValue(" " + ("[" + Items(values) + "];" + after)) == Some("[" + Items(values) + "]")
  {
    var list := "[" + Items(values) + "];" + after;
    ReadsSpace(" ", list);
    assert (" " + list)[1..] == list;
    ListIsStatement(values, after);
    assert list[..|Items(values)| + 2] == "[" + Items(values) + "]";
  }

  /** The field is found in front of its printed list, whatever the values. */
  lemma PrintedField(name: string, values: seq<string>, levels: nat, after: string)
    requires IsFieldName(name)
    ensures FieldFrom(RenderedList(name, values, levels) + after, name, 0)
         == FieldValue(" " + ("[" + Items(values) + "];" + ("\n" + after)))
  {
    var rest := " " + ("[" + Items(values) + "];" + ("\n" + after));
    assert RenderedList(name, values, levels) + after == Indent(levels) + (name + (":" + rest));
    IndentIsSpaces(levels);
    FieldIsFound(Indent(levels), name, rest);
  }

  lemma FieldReadsBack(name: string, values: seq<string>, levels: nat, after: string)
    requires IsFieldName(name) && forall v :: v in values ==> QuoteFree(v)
    ensures FieldFrom(RenderedList(name, values, levels) + after, name, 0) == Some("[" + Items(values) + "]")
  {
    PrintedField(name, values, levels, after);
    ListIsValue(values, "\n" + after);
  }

  /**
   Reading a printed list back, whatever follows it: the values in order with backslashes doubled and
   empty strings gone.  Commas, semicolons, brackets and braces inside values do not matter.
   */
  lemma PrintedListReadsBack(name: string, values: seq<string>, levels: nat, after: string)
    requires IsFieldName(name) && forall v :: v in values ==> QuoteFree(v)
    ensures ListField(RenderedList(name, values, levels) + after, name) == EscapedNonEmpty(values)
  {
    FieldReadsBack(name, values, levels, after);
    ParsePrinted(values);
  }

  /** Among lists without quotes, exactly those of non-empty strings without backslashes survive the round trip. */
  lemma QuoteFreeRoundTripIff(name: string, values: seq<string>, levels: nat, after: string)
    requires IsFieldName(name) && forall v :: v in values ==> QuoteFree(v)
    ensures ListField(RenderedList(name, values, levels) + after, name) == values
       <==> forall v :: v in values ==> v != "" && forall i :: 0 <= i < |v| ==> v[i] != '\\'
  {
    PrintedListReadsBack(name, values, levels, after);
    EscapedNonEmptyIdentity(values);
  }

  lemma {:induction false} EscapedNonEmptyIdentity(values: seq<string>)
    requires forall v :: v in values ==> QuoteFree(v)
    ensures |EscapedNonEmpty(values)| <= |values|
    ensures EscapedNonEmpty(values) == values
       <==> forall v :: v in values ==> v != "" && forall i :: 0 <= i < |v| ==> v[i] != '\\'
    decreases |values|
  {
    if values != [] {
      var v, rest := values[0], values[1..];
      EscapeQuoteFree(v);
      EscapedNonEmptyIdentity(rest);
      assert values == [v] + rest;
      assert v in values;
      assert forall u :: u in values <==> u == v || u in rest;
      var e := EscapedNonEmpty(values);
      if v != "" {
        assert e[0] == Escape(v) && e[1..] == EscapedNonEmpty(rest);
      }
    }
  }
}
